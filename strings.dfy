/** The few Foundation string operations the two scripts use, on ASCII `seq<char>`. */
module Strings {

  /** Swift's `hasPrefix`. */
  predicate HasPrefix(s: string, p: string) {
    |p| <= |s| && s[..|p|] == p
  }

  /** Swift's `suffix(|p|) == p`: the last |p| characters are `p` (false when `s` is shorter). */
  predicate HasSuffix(s: string, p: string) {
    |p| <= |s| && s[|s| - |p|..] == p
  }

  /** Swift's `dropLast(k)`: all but the last `k` characters, or "" when there are fewer. */
  function DropLast(s: string, k: nat): (r: string)
    ensures |r| == if k <= |s| then |s| - k else 0
    ensures r == s[..|r|]
  {
    if k <= |s| then s[..|s| - k] else ""
  }

  /** Swift's `components(separatedBy:)` for a one-character separator. */
  function Split(s: string, sep: char): (parts: seq<string>)
    ensures |parts| >= 1
    decreases |s|
  {
    if |s| == 0 then [""]
    else
      var rest := Split(s[1..], sep);
      if s[0] == sep then [""] + rest else [[s[0]] + rest[0]] + rest[1..]
  }

  /** The parts with `sep` between each two of them. */
  function Join(parts: seq<string>, sep: string): string
    decreases |parts|
  {
    if |parts| == 0 then ""
    else if |parts| == 1 then parts[0]
    else parts[0] + sep + Join(parts[1..], sep)
  }

  /** The parts, each followed by `sep`: what a loop doing `acc += part + sep` builds. */
  function Terminated(parts: seq<string>, sep: string): string
    decreases |parts|
  {
    if |parts| == 0 then ""
    else Terminated(parts[..|parts| - 1], sep) + parts[|parts| - 1] + sep
  }

  /** Concatenation regrouped. */
  lemma Append3(a: string, b: string, c: string)
    ensures a + b + c == a + (b + c)
  {
  }

  /** A prefix stays a prefix when more text follows. */
  lemma PrefixExtend(a: string, b: string, c: string)
    requires a <= b
    ensures a <= b + c
  {
  }

  /** A prefix of the first part, after a common opening, is a prefix of the whole. */
  lemma PrefixWithin(p: string, a: string, b: string, c: string, d: string)
    requires a <= b
    ensures p + a <= p + (b + c + d)
  {
    PrefixExtend(a, b, c);
    PrefixExtend(a, b + c, d);
  }

  /** Splitting at the head: a character other than `sep` joins the first part. */
  lemma SplitCons(c: char, rest: string, sep: char)
    requires c != sep
    ensures Split([c] + rest, sep) == [[c] + Split(rest, sep)[0]] + Split(rest, sep)[1..]
  {
    assert ([c] + rest)[1..] == rest;
  }

  /** A part free of `sep` stays whole at the front of what follows it. */
  lemma {:induction false} SplitPrefix(p: string, rest: string, sep: char)
    requires sep !in p
    ensures Split(p + rest, sep) == [p + Split(rest, sep)[0]] + Split(rest, sep)[1..]
  {
    if |p| > 0 {
      assert p + rest == [p[0]] + (p[1..] + rest);
      SplitPrefix(p[1..], rest, sep);
      SplitCons(p[0], p[1..] + rest, sep);
      assert [p[0]] + (p[1..] + Split(rest, sep)[0]) == p + Split(rest, sep)[0];
    } else {
      assert p + rest == rest;
      assert p + Split(rest, sep)[0] == Split(rest, sep)[0];
      assert Split(rest, sep) == [Split(rest, sep)[0]] + Split(rest, sep)[1..];
    }
  }

  /** Splitting undoes joining, when no part holds the separator. */
  lemma {:induction false} SplitJoin(parts: seq<string>, sep: char)
    requires |parts| >= 1
    requires forall i :: 0 <= i < |parts| ==> sep !in parts[i]
    ensures Split(Join(parts, [sep]), sep) == parts
  {
    if |parts| == 1 {
      SplitPrefix(parts[0], "", sep);
      assert parts[0] + "" == parts[0];
      assert Split("", sep) == [""];
    } else {
      var tail := Join(parts[1..], [sep]);
      assert Join(parts, [sep]) == parts[0] + ([sep] + tail);
      SplitPrefix(parts[0], [sep] + tail, sep);
      assert ([sep] + tail)[1..] == tail;
      assert Split([sep] + tail, sep) == [""] + Split(tail, sep);
      assert parts[0] + "" == parts[0];
      SplitJoin(parts[1..], sep);
      assert parts == [parts[0]] + parts[1..];
    }
  }

  /** Two parts free of `sep`, with `sep` between them, split back into the two. */
  lemma SplitTwo(a: string, b: string, sep: char)
    requires sep !in a && sep !in b
    ensures Split(a + [sep] + b, sep) == [a, b]
  {
    SplitPrefix(b, "", sep);
    assert b + "" == b;
    assert Split("", sep) == [""];
    assert Split(b, sep) == [b];
    assert ([sep] + b)[1..] == b;
    assert Split([sep] + b, sep) == [""] + [b];
    SplitPrefix(a, [sep] + b, sep);
    assert a + "" == a;
    Append3(a, [sep], b);
  }

  /** Joining undoes splitting. */
  lemma {:induction false} JoinSplit(s: string, sep: char)
    ensures Join(Split(s, sep), [sep]) == s
    decreases |s|
  {
    if |s| > 0 {
      var rest := Split(s[1..], sep);
      JoinSplit(s[1..], sep);
      if s[0] == sep {
        assert s == [sep] + s[1..];
      } else {
        var parts := [[s[0]] + rest[0]] + rest[1..];
        if |rest| == 1 {
          assert Join(parts, [sep]) == [s[0]] + rest[0];
        } else {
          assert Join(rest, [sep]) == rest[0] + [sep] + Join(rest[1..], [sep]);
          assert parts[1..] == rest[1..];
        }
        assert s == [s[0]] + s[1..];
      }
    }
  }

  /** No part that `Split` returns holds the separator. */
  lemma {:induction false} SplitPartsFree(s: string, sep: char)
    ensures forall i :: 0 <= i < |Split(s, sep)| ==> sep !in Split(s, sep)[i]
    decreases |s|
  {
    if |s| > 0 {
      SplitPartsFree(s[1..], sep);
    }
  }

  /** A character that no part holds is not in their join with another character. */
  lemma {:induction false} JoinFree(parts: seq<string>, sep: char, c: char)
    requires c != sep
    requires forall i :: 0 <= i < |parts| ==> c !in parts[i]
    ensures c !in Join(parts, [sep])
    decreases |parts|
  {
    if |parts| > 1 {
      JoinFree(parts[1..], sep, c);
    }
  }

  /** Joining one more part at the end. */
  lemma {:induction false} JoinSnoc(parts: seq<string>, last: string, sep: string)
    requires |parts| >= 1
    ensures Join(parts + [last], sep) == Join(parts, sep) + sep + last
    decreases |parts|
  {
    if |parts| > 1 {
      assert (parts + [last])[1..] == parts[1..] + [last];
      JoinSnoc(parts[1..], last, sep);
    }
  }

  /** Each part followed by `sep` is the join of the parts with one more `sep` at the end. */
  lemma {:induction false} TerminatedIsJoin(parts: seq<string>, sep: string)
    ensures Terminated(parts, sep) == Join(parts + [""], sep)
    decreases |parts|
  {
    if |parts| == 0 {
    } else {
      var init := parts[..|parts| - 1];
      var last := parts[|parts| - 1];
      TerminatedIsJoin(init, sep);
      assert parts + [""] == (init + [last]) + [""];
      if |init| == 0 {
        assert parts + [""] == [last, ""];
        assert Join([last, ""], sep) == last + sep + Join([""], sep);
      } else {
        JoinSnoc(init, last, sep);
        JoinSnoc(init + [last], "", sep);
        JoinSnoc(init, "", sep);
        assert Join(init + [""], sep) == Join(init, sep) + sep;
      }
    }
  }

  /** The loop's trailing separator, dropped, leaves the join. */
  lemma TerminatedDropLast(parts: seq<string>, sep: string)
    requires |parts| >= 1
    ensures DropLast(Terminated(parts, sep), |sep|) == Join(parts, sep)
  {
    TerminatedIsJoin(parts, sep);
    JoinSnoc(parts, "", sep);
    assert Terminated(parts, sep) == Join(parts, sep) + sep;
  }

  // ASCII letters and whitespace: Foundation's Unicode tables are not modelled.

  predicate IsUpperAscii(c: char) { 'A' <= c <= 'Z' }

  predicate IsLowerAscii(c: char) { 'a' <= c <= 'z' }

  function Lower(c: char): (r: char)
    ensures !IsUpperAscii(r)
  {
    if IsUpperAscii(c) then (c as int + 32) as char else c
  }

  function Upper(c: char): (r: char)
    ensures !IsLowerAscii(r)
    ensures Lower(r) == Lower(c)
  {
    if IsLowerAscii(c) then (c as int - 32) as char else c
  }

  /** Equal when compared letter by letter without regard to case. */
  predicate EqualIgnoringCase(a: string, b: string) {
    |a| == |b| && forall i :: 0 <= i < |a| ==> Lower(a[i]) == Lower(b[i])
  }

  predicate StartsWithIgnoringCase(s: string, p: string) {
    |p| <= |s| && EqualIgnoringCase(s[..|p|], p)
  }

  /** Some position of `s` starts a case-insensitive copy of `p` (a regular expression that is a plain word). */
  predicate ContainsIgnoringCase(s: string, p: string)
    decreases |s|
  {
    StartsWithIgnoringCase(s, p) || (|s| > 0 && ContainsIgnoringCase(s[1..], p))
  }

  /** A case-insensitive copy of `p` starts at position `i` of `s`. */
  predicate OccursAt(s: string, p: string, i: nat) {
    i + |p| <= |s| && EqualIgnoringCase(s[i..i + |p|], p)
  }

  /** Dropping the first character moves every occurrence one place to the left. */
  lemma OccursShift(s: string, p: string, i: nat)
    requires |s| > 0
    ensures OccursAt(s[1..], p, i) <==> OccursAt(s, p, i + 1)
  {
    if i + 1 + |p| <= |s| {
      assert s[1..][i..i + |p|] == s[i + 1..i + 1 + |p|];
    }
  }

  /** The recursive search finds `p` exactly when some position of `s` starts a copy of it. */
  lemma {:induction false} ContainsAt(s: string, p: string)
    ensures ContainsIgnoringCase(s, p) <==> exists i: nat :: OccursAt(s, p, i)
    decreases |s|
  {
    if StartsWithIgnoringCase(s, p) {
      assert s[0..|p|] == s[..|p|];
      assert OccursAt(s, p, 0);
    } else if |s| > 0 {
      ContainsAt(s[1..], p);
      if i: nat :| OccursAt(s[1..], p, i) {
        OccursShift(s, p, i);
      }
      forall i: nat | OccursAt(s, p, i)
        ensures exists i': nat :: OccursAt(s[1..], p, i')
      {
        if i > 0 {
          OccursShift(s, p, i - 1);
        }
      }
    }
  }

  /** `String.capitalizeFirstLetter`: the first letter upper-cased, the rest as it was. */
  function CapitalizeFirstLetter(s: string): (r: string)
    ensures |r| == |s|
    ensures forall i :: 0 < i < |s| ==> r[i] == s[i]
    ensures |s| > 0 ==> !IsLowerAscii(r[0]) && Lower(r[0]) == Lower(s[0])
  {
    if |s| == 0 then "" else [Upper(s[0])] + s[1..]
  }

  /** Capitalizing twice is capitalizing once. */
  lemma CapitalizeIdempotent(s: string)
    ensures CapitalizeFirstLetter(CapitalizeFirstLetter(s)) == CapitalizeFirstLetter(s)
  {
  }

  /** `.whitespacesAndNewlines`, restricted to ASCII. */
  predicate IsWhitespace(c: char) {
    c == ' ' || c == '\t' || c == '\n' || c == '\r' || c == '\U{000B}' || c == '\U{000C}'
  }

  /** The characters after the leading whitespace. */
  function TrimLeading(s: string): string
    decreases |s|
  {
    if |s| > 0 && IsWhitespace(s[0]) then TrimLeading(s[1..]) else s
  }

  /** The characters before the trailing whitespace. */
  function TrimTrailing(s: string): string
    decreases |s|
  {
    if |s| > 0 && IsWhitespace(s[|s| - 1]) then TrimTrailing(s[..|s| - 1]) else s
  }

  /** `trimmingCharacters(in: .whitespacesAndNewlines)`; `TrimmedCore` states what it keeps. */
  function Trim(s: string): string {
    TrimTrailing(TrimLeading(s))
  }

  /** Only leading whitespace is dropped, and all of it. */
  lemma {:induction false} TrimLeadingDrops(s: string)
    ensures |TrimLeading(s)| <= |s| && TrimLeading(s) == s[|s| - |TrimLeading(s)|..]
    ensures forall i :: 0 <= i < |s| - |TrimLeading(s)| ==> IsWhitespace(s[i])
    ensures |TrimLeading(s)| > 0 ==> !IsWhitespace(TrimLeading(s)[0])
    decreases |s|
  {
    if |s| > 0 && IsWhitespace(s[0]) {
      TrimLeadingDrops(s[1..]);
      assert s[1..][|s| - 1 - |TrimLeading(s)|..] == s[|s| - |TrimLeading(s)|..];
    }
  }

  /** Only trailing whitespace is dropped, and all of it. */
  lemma {:induction false} TrimTrailingDrops(s: string)
    ensures |TrimTrailing(s)| <= |s| && TrimTrailing(s) == s[..|TrimTrailing(s)|]
    ensures forall i :: |TrimTrailing(s)| <= i < |s| ==> IsWhitespace(s[i])
    ensures |TrimTrailing(s)| > 0 ==> !IsWhitespace(TrimTrailing(s)[|TrimTrailing(s)| - 1])
    decreases |s|
  {
    if |s| > 0 && IsWhitespace(s[|s| - 1]) {
      TrimTrailingDrops(s[..|s| - 1]);
      assert s[..|s| - 1][..|TrimTrailing(s)|] == s[..|TrimTrailing(s)|];
    }
  }

  /**
   * Trimming keeps one contiguous run of `s`, starting at `start`: everything before and
   * after it is whitespace, and the run neither starts nor ends with whitespace.
   */
  lemma TrimmedCore(s: string, start: nat)
    requires start == |s| - |TrimLeading(s)|
    ensures start + |Trim(s)| <= |s| && Trim(s) == s[start..start + |Trim(s)|]
    ensures forall i :: 0 <= i < start ==> IsWhitespace(s[i])
    ensures forall i :: start + |Trim(s)| <= i < |s| ==> IsWhitespace(s[i])
    ensures |Trim(s)| > 0 ==> !IsWhitespace(Trim(s)[0]) && !IsWhitespace(Trim(s)[|Trim(s)| - 1])
  {
    var t := TrimLeading(s);
    TrimLeadingDrops(s);
    TrimTrailingDrops(t);
    var r := Trim(s);
    assert r == t[..|r|];
    assert t[..|r|] == s[start..start + |r|];
    forall i | start + |r| <= i < |s|
      ensures IsWhitespace(s[i])
    {
      assert s[i] == t[i - start];
    }
    if |r| > 0 {
      assert r[0] == t[0];
    }
  }
}
