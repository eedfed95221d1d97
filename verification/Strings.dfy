/** String operations the source takes from Python: split, join, strip, lower, startswith, int. */
module Strings {
  import opened Wrappers

  function Join(parts: seq<string>, sep: char): string {
    if parts == [] then ""
    else if |parts| == 1 then parts[0]
    else parts[0] + [sep] + Join(parts[1..], sep)
  }

  /** Position of the first c, or the length. */
  function Find(s: string, c: char): (i: nat)
    ensures i <= |s| && c !in s[..i]
    ensures i < |s| ==> s[i] == c
  {
    if s == "" || s[0] == c then 0 else
      var i := 1 + Find(s[1..], c);
      assert s[..i] == [s[0]] + s[1..][..i - 1];
      i
  }

  /** `s.split(sep, max)`: at most max cuts, from the left. */
  function Split(s: string, sep: char, max: nat): (parts: seq<string>)
    ensures 1 <= |parts| <= max + 1
    decreases max
  {
    var i := Find(s, sep);
    if max == 0 || i == |s| then [s] else [s[..i]] + Split(s[i + 1..], sep, max - 1)
  }

  lemma {:induction false} FindAfter(a: string, c: char, b: string)
    requires c !in a
    ensures Find(a + [c] + b, c) == |a|
    ensures Find(a, c) == |a|
  {
    var s := a + [c] + b;
    if a != "" {
      assert s[0] == a[0] && a[0] in a;
      assert s[1..] == a[1..] + [c] + b;
      FindAfter(a[1..], c, b);
    }
  }

  /** Joining what split produced gives the string back. */
  lemma {:induction false} JoinSplit(s: string, sep: char, max: nat)
    ensures Join(Split(s, sep, max), sep) == s
    decreases max
  {
    var i := Find(s, sep);
    if max != 0 && i != |s| {
      var rest := Split(s[i + 1..], sep, max - 1);
      JoinSplit(s[i + 1..], sep, max - 1);
      assert Split(s, sep, max)[1..] == rest;
      assert s == s[..i] + [sep] + s[i + 1..];
    }
  }

  lemma SplitStep(a: string, sep: char, b: string, max: nat)
    requires sep !in a && max > 0
    ensures Split(a + [sep] + b, sep, max) == [a] + Split(b, sep, max - 1)
  {
    var s := a + [sep] + b;
    FindAfter(a, sep, b);
    assert s[..|a|] == a && s[|a| + 1..] == b;
  }

  /** Only the last part may hold the separator. */
  predicate CleanButLast(parts: seq<string>, sep: char) {
    forall k | 0 <= k < |parts| - 1 :: sep !in parts[k]
  }

  lemma CleanTail(parts: seq<string>, sep: char)
    requires |parts| > 1 && CleanButLast(parts, sep)
    ensures sep !in parts[0] && CleanButLast(parts[1..], sep)
  {
  }

  /** Splitting a join gives the parts back when only the last may hold the separator. */
  lemma {:induction false} SplitJoin(parts: seq<string>, sep: char)
    requires |parts| >= 1
    requires CleanButLast(parts, sep)
    ensures Split(Join(parts, sep), sep, |parts| - 1) == parts
    decreases |parts|
  {
    hide Split, Join, CleanButLast;
    if |parts| == 1 {
      SplitNone(parts, sep);
    } else {
      var rest := parts[1..];
      CleanTail(parts, sep);
      SplitJoin(rest, sep);
      SplitStep(parts[0], sep, Join(rest, sep), |rest|);
      SplitCons(parts, rest, sep);
    }
  }

  /** Gluing the first part back on. */
  lemma SplitCons(parts: seq<string>, rest: seq<string>, sep: char)
    requires |parts| > 1 && rest == parts[1..]
    requires Split(parts[0] + [sep] + Join(rest, sep), sep, |rest|) == [parts[0]] + rest
    ensures Split(Join(parts, sep), sep, |parts| - 1) == parts
  {
    assert Join(parts, sep) == parts[0] + [sep] + Join(rest, sep);
    hide Split, Join;
    assert parts == [parts[0]] + rest;
  }

  lemma SplitNone(parts: seq<string>, sep: char)
    requires |parts| == 1
    ensures Split(Join(parts, sep), sep, 0) == parts
  {
  }

  /** Every cut but the last is free of the separator. */
  lemma {:induction false} SplitClean(s: string, sep: char, max: nat, k: nat)
    requires k < |Split(s, sep, max)| - 1
    ensures sep !in Split(s, sep, max)[k]
    decreases max
  {
    var i := Find(s, sep);
    if k > 0 { SplitClean(s[i + 1..], sep, max - 1, k - 1); }
  }

  /** Joining is one-to-one on lists of the same length whose parts, but the last, lack the separator. */
  lemma JoinInjective(a: seq<string>, b: seq<string>, sep: char)
    requires |a| == |b| >= 1
    requires CleanButLast(a, sep) && CleanButLast(b, sep)
    requires Join(a, sep) == Join(b, sep)
    ensures a == b
  {
    SplitJoin(a, sep);
    SplitJoin(b, sep);
  }

  predicate StartsWith(s: string, p: string) { p <= s }

  predicate IsSpace(c: char) { c in {' ', '\t', '\n', '\r', '\U{000B}', '\U{000C}'} }

  function StripLeft(s: string): string {
    if s != "" && IsSpace(s[0]) then StripLeft(s[1..]) else s
  }

  function StripRight(s: string): string {
    if s != "" && IsSpace(s[|s| - 1]) then StripRight(s[..|s| - 1]) else s
  }

  function Strip(s: string): string { StripRight(StripLeft(s)) }

  function LowerChar(c: char): char {
    if 'A' <= c <= 'Z' then (c as int + 32) as char else c
  }

  function UpperChar(c: char): char {
    if 'a' <= c <= 'z' then (c as int - 32) as char else c
  }

  function Lower(s: string): (r: string) {
    seq(|s|, i requires 0 <= i < |s| => LowerChar(s[i]))
  }

  function Upper(s: string): (r: string) {
    seq(|s|, i requires 0 <= i < |s| => UpperChar(s[i]))
  }

  predicate IsDigit(c: char) { '0' <= c <= '9' }

  /** `s.isdigit()` */
  predicate Digits(s: string) { s != "" && forall i | 0 <= i < |s| :: IsDigit(s[i]) }

  function DigitValue(c: char): nat
    requires IsDigit(c)
  {
    c as int - '0' as int
  }

  /** `int(s)` */
  function ToNat(s: string): nat
    requires forall i | 0 <= i < |s| :: IsDigit(s[i])
  {
    if s == "" then 0 else 10 * ToNat(s[..|s| - 1]) + DigitValue(s[|s| - 1])
  }

  /** The decimal numeral of n, as `str` prints it. */
  function Decimal(n: nat): (s: string)
    ensures s != ""
  {
    var last := [('0' as int + n % 10) as char];
    if n < 10 then last else Decimal(n / 10) + last
  }

  /** `int` reads back what `str` prints. */
  lemma {:induction false} ToNatDecimal(n: nat)
    ensures Digits(Decimal(n)) && ToNat(Decimal(n)) == n
  {
    var c := ('0' as int + n % 10) as char;
    if n < 10 {
      assert [c][..0] == "" && ToNat("") == 0;
    } else {
      ToNatDecimal(n / 10);
      assert (Decimal(n / 10) + [c])[..|Decimal(n / 10)|] == Decimal(n / 10);
    }
  }

  /** Letters in either case have one lower-case form, which is its own, and so for upper case. */
  lemma LowerUpper(s: string)
    ensures Lower(Upper(s)) == Lower(s) == Lower(Lower(s)) && Upper(Lower(s)) == Upper(s) == Upper(Upper(s))
    ensures forall i | 0 <= i < |s| :: Lower(s)[i] !in "ABCDEFGHIJKLMNOPQRSTUVWXYZ"
    ensures forall i | 0 <= i < |s| && s[i] !in "ABCDEFGHIJKLMNOPQRSTUVWXYZ" :: Lower(s)[i] == s[i]
  {
  }

  predicate Blank(s: string) { forall i | 0 <= i < |s| :: IsSpace(s[i]) }

  lemma {:induction false} StripLeftCuts(s: string)
    ensures var r := StripLeft(s);
            |r| <= |s| && Blank(s[..|s| - |r|]) && s[|s| - |r|..] == r && (r == "" || !IsSpace(r[0]))
  {
    if s != "" && IsSpace(s[0]) {
      StripLeftCuts(s[1..]);
      var n := |s| - |StripLeft(s)|;
      assert s[..n] == [s[0]] + s[1..][..n - 1] && s[n..] == s[1..][n - 1..];
    }
  }

  lemma {:induction false} StripRightCuts(s: string)
    ensures var r := StripRight(s);
            |r| <= |s| && s[..|r|] == r && Blank(s[|r|..]) && (r == "" || !IsSpace(r[|r| - 1]))
  {
    if s != "" && IsSpace(s[|s| - 1]) {
      var t := s[..|s| - 1];
      StripRightCuts(t);
      var n := |StripRight(t)|;
      assert s[..n] == t[..n] && s[n..] == t[n..] + [s[|s| - 1]];
    }
  }

  /** Stripping takes white space off both ends, and all of it. */
  lemma StripCuts(s: string)
    ensures var r := Strip(s);
            && (r == "" || (!IsSpace(r[0]) && !IsSpace(r[|r| - 1])))
            && exists a: nat :: a + |r| <= |s| && Blank(s[..a]) && s[a..a + |r|] == r && Blank(s[a + |r|..])
  {
    StripLeftCuts(s);
    var t := StripLeft(s);
    StripRightCuts(t);
    var a, r := |s| - |t|, StripRight(t);
    assert s[a..a + |r|] == t[..|r|] && s[a + |r|..] == t[|r|..];
  }
}
