/** Release tags, the version extractor and the decision to offer an update
    (apps/common/security_updates.py).

    The regular expressions' `\d` and `int` know every decimal digit of Unicode; `Numerals` stands for
    that table. */
module ReleaseTags {
  import opened Wrappers
  import opened Strings

  type Numerals = char -> Option<nat>

  /** Nothing that the grammar spells out is a digit. */
  ghost predicate Sane(num: Numerals) {
    forall c: char | c in ".-+vyetka" :: num(c).None?
  }

  predicate AllDigits(num: Numerals, s: string) {
    s != "" && forall i | 0 <= i < |s| :: num(s[i]).Some?
  }

  predicate NoDigits(num: Numerals, s: string) {
    forall i | 0 <= i < |s| :: num(s[i]).None?
  }

  function Value(num: Numerals, s: string): nat {
    if s == "" then 0
    else 10 * Value(num, s[..|s| - 1]) + (var d := num(s[|s| - 1]); if d.Some? then d.value else 0)
  }

  // ---------- Numerals ----------

  /** The table gives the digits of ASCII their values. */
  ghost predicate Ascii(num: Numerals) {
    forall c: char | IsDigit(c) :: num(c) == Some(c as int - '0' as int)
  }

  /** A numeral has ten times the value of what is before its last digit, and this digit's value more. */
  lemma ValueByDigits(num: Numerals, s: string, c: char)
    requires num(c).Some? && num(c).value < 10
    ensures Value(num, s + [c]) / 10 == Value(num, s) && Value(num, s + [c]) % 10 == num(c).value
  {
    assert (s + [c])[..|s|] == s;
  }

  /** A decimal numeral is read as its number. */
  lemma {:induction false} ValueOfDecimal(num: Numerals, n: nat)
    requires Ascii(num)
    ensures AllDigits(num, Decimal(n)) && Value(num, Decimal(n)) == n
  {
    var c := ('0' as int + n % 10) as char;
    assert IsDigit(c);
    if n < 10 {
      assert [c][..0] == "" && Value(num, "") == 0;
    } else {
      ValueOfDecimal(num, n / 10);
      ValueByDigits(num, Decimal(n / 10), c);
    }
  }

  // ---------- The extractor ----------

  /** Length of the digits at the front, `\d+` being greedy. */
  function Run(num: Numerals, s: string): (k: nat)
    ensures k <= |s|
  {
    if s == "" || num(s[0]).None? then 0 else 1 + Run(num, s[1..])
  }

  /** Up to n groups `\.\d+` at the front. */
  function Groups(num: Numerals, s: string, n: nat): seq<string>
    decreases n
  {
    if n == 0 || s == "" || s[0] != '.' || Run(num, s[1..]) == 0 then [] else
      var k := Run(num, s[1..]);
      [s[1..][..k]] + Groups(num, s[1..][k..], n - 1)
  }

  /** `\d+(?:\.\d+){1,3}` at the front.  Giving back digits never helps: a digit would follow. */
  function MatchAt(num: Numerals, s: string): Option<seq<string>> {
    var k := Run(num, s);
    var groups := Groups(num, s[k..], 3);
    if k == 0 || groups == [] then None else Some([s[..k]] + groups)
  }

  /** `re.search`: the leftmost match. */
  function Search(num: Numerals, s: string): Option<seq<string>> {
    if s == "" then None
    else if MatchAt(num, s).Some? then MatchAt(num, s)
    else Search(num, s[1..])
  }

  /** Python's limit on the digits `int` reads; beyond it the conversion raises. */
  const MaxDigits: nat := 4300

  predicate Readable(parts: seq<string>) {
    forall i | 0 <= i < |parts| :: |parts[i]| <= MaxDigits
  }

  function Values(num: Numerals, parts: seq<string>): seq<nat> {
    if parts == [] then [] else [Value(num, parts[0])] + Values(num, parts[1..])
  }

  /** `_version` */
  function Version(num: Numerals, s: string): Option<seq<nat>> {
    var parts := Search(num, s);
    if parts.Some? && Readable(parts.value) then Some(Values(num, parts.value)) else None
  }

  // ---------- The grammar ----------

  /** A tag as the grammar reads it; the numbers keep their digits. */
  datatype Tag = Tag(prefix: string, major: string, minor: string, patch: string, suffix: string)

  predicate SuffixChar(c: char) {
    'A' <= c <= 'Z' || 'a' <= c <= 'z' || '0' <= c <= '9' || c == '.' || c == '-'
  }

  predicate SuffixOk(s: string) {
    s == "" || (|s| > 1 && s[0] in {'-', '+'} && forall i | 1 <= i < |s| :: SuffixChar(s[i]))
  }

  predicate WellFormed(num: Numerals, t: Tag) {
    && t.prefix in {"", "v", "yetka-"}
    && AllDigits(num, t.major) && AllDigits(num, t.minor) && AllDigits(num, t.patch)
    && SuffixOk(t.suffix)
  }

  function Print(t: Tag): string {
    t.prefix + Numbers(t)
  }

  function Numbers(t: Tag): string {
    t.major + (['.'] + (t.minor + (['.'] + (t.patch + t.suffix))))
  }

  function Triple(num: Numerals, t: Tag): seq<nat> {
    [Value(num, t.major), Value(num, t.minor), Value(num, t.patch)]
  }

  function PrefixOf(s: string): string {
    if "yetka-" <= s then "yetka-" else if "v" <= s then "v" else ""
  }

  /** A number and the dot after it, taken off the front. */
  function TakeNumber(num: Numerals, s: string): Option<(string, string)> {
    var i := Run(num, s);
    if i == 0 || i == |s| || s[i] != '.' then None else Some((s[..i], s[i + 1..]))
  }

  /** The last number and the suffix after it. */
  function TakeLast(num: Numerals, s: string): Option<(string, string)> {
    var i := Run(num, s);
    if i == 0 || !SuffixOk(s[i..]) then None else Some((s[..i], s[i..]))
  }

  function ParseNumbers(num: Numerals, prefix: string, s: string): Option<Tag> {
    var a := TakeNumber(num, s);
    if a.None? then None else
      var b := TakeNumber(num, a.value.1);
      if b.None? then None else
        var c := TakeLast(num, b.value.1);
        if c.None? then None else Some(Tag(prefix, a.value.0, b.value.0, c.value.0, c.value.1))
  }

  /** `RELEASE_TAG_PATTERN.fullmatch` */
  function Parse(num: Numerals, s: string): Option<Tag> {
    ParseNumbers(num, PrefixOf(s), s[|PrefixOf(s)|..])
  }

  predicate Accepted(num: Numerals, s: string) { Parse(num, s).Some? }

  // ---------- Print and parse ----------

  predicate Stops(num: Numerals, rest: string) { rest == "" || num(rest[0]).None? }

  lemma {:induction false} RunOf(num: Numerals, digits: string, rest: string)
    requires forall i | 0 <= i < |digits| :: num(digits[i]).Some?
    requires Stops(num, rest)
    ensures Run(num, digits + rest) == |digits|
    ensures (digits + rest)[..|digits|] == digits && (digits + rest)[|digits|..] == rest
  {
    if digits == "" {
      assert digits + rest == rest;
    } else {
      assert (digits + rest)[1..] == digits[1..] + rest;
      RunOf(num, digits[1..], rest);
    }
  }

  lemma {:induction false} RunIsDigits(num: Numerals, s: string)
    ensures forall i | 0 <= i < Run(num, s) :: num(s[i]).Some?
    ensures Stops(num, s[Run(num, s)..])
  {
    if s != "" && num(s[0]).Some? {
      RunIsDigits(num, s[1..]);
      assert s[Run(num, s)..] == s[1..][Run(num, s[1..])..];
      forall i | 0 <= i < Run(num, s) ensures num(s[i]).Some? {
        if i > 0 { assert s[i] == s[1..][i - 1]; }
      }
    }
  }

  lemma SuffixStops(num: Numerals, suffix: string)
    requires Sane(num) && SuffixOk(suffix)
    ensures Stops(num, suffix) && (suffix == "" || suffix[0] != '.')
  {
    if suffix != "" { assert suffix[0] in ".-+vyetka"; }
  }

  lemma DotStops(num: Numerals, rest: string)
    requires Sane(num)
    ensures Stops(num, ['.'] + rest) && ['.'] + rest != "" && (['.'] + rest)[0] == '.' && (['.'] + rest)[1..] == rest
  {
    assert '.' in ".-+vyetka";
  }

  lemma PrefixPrinted(num: Numerals, t: Tag)
    requires Sane(num) && WellFormed(num, t)
    ensures PrefixOf(Print(t)) == t.prefix && Print(t)[|t.prefix|..] == Numbers(t)
  {
    var s := Print(t);
    assert Numbers(t)[0] == t.major[0];
    assert 'y' in ".-+vyetka" && 'v' in ".-+vyetka";
    if t.prefix == "" { assert s[0] == t.major[0]; }
    if t.prefix == "v" { assert s[0] == 'v'; }
  }

  /** One number and what follows it, as the parser takes them apart. */
  lemma NumberThenDot(num: Numerals, digits: string, rest: string)
    requires Sane(num) && AllDigits(num, digits)
    ensures var s := digits + (['.'] + rest);
            && Run(num, s) == |digits| && s[..|digits|] == digits && s[|digits|..] == ['.'] + rest
            && TakeNumber(num, s) == Some((digits, rest))
  {
    var s := digits + (['.'] + rest);
    DotStops(num, rest);
    RunOf(num, digits, ['.'] + rest);
    assert s[|digits|] == '.';
    assert s[|digits| + 1..] == s[|digits|..][1..];
  }

  lemma TakenNumber(num: Numerals, s: string)
    requires TakeNumber(num, s).Some?
    ensures var (digits, rest) := TakeNumber(num, s).value;
            AllDigits(num, digits) && s == digits + (['.'] + rest)
  {
    RunIsDigits(num, s);
  }

  lemma TakenLast(num: Numerals, s: string)
    requires TakeLast(num, s).Some?
    ensures var (digits, rest) := TakeLast(num, s).value;
            AllDigits(num, digits) && SuffixOk(rest) && s == digits + rest
  {
    RunIsDigits(num, s);
  }

  /** Parsing what was printed gives the tag back. */
  lemma ParsePrint(num: Numerals, t: Tag)
    requires Sane(num) && WellFormed(num, t)
    ensures Parse(num, Print(t)) == Some(t)
  {
    PrefixPrinted(num, t);
    SuffixStops(num, t.suffix);
    var c := t.patch + t.suffix;
    var b := t.minor + (['.'] + c);
    RunOf(num, t.patch, t.suffix);
    NumberThenDot(num, t.minor, c);
    NumberThenDot(num, t.major, b);
    hide Print, Run, PrefixOf, Sane, TakeNumber;
  }

  lemma PrefixTaken(s: string)
    ensures |PrefixOf(s)| <= |s| && PrefixOf(s) in {"", "v", "yetka-"} && s == PrefixOf(s) + s[|PrefixOf(s)|..]
  {
  }

  /** Whatever is accepted is the print of a well-formed tag. */
  lemma PrintParse(num: Numerals, s: string)
    requires Accepted(num, s)
    ensures WellFormed(num, Parse(num, s).value) && Print(Parse(num, s).value) == s
  {
    hide PrefixOf, Run, TakeNumber, TakeLast, AllDigits, SuffixOk;
    PrefixTaken(s);
    var prefix := PrefixOf(s);
    var a := s[|prefix|..];
    TakenNumber(num, a);
    var b := TakeNumber(num, a).value.1;
    TakenNumber(num, b);
    TakenLast(num, TakeNumber(num, b).value.1);
  }

  // ---------- Extract after print ----------

  lemma {:induction false} SearchSkips(num: Numerals, before: string, s: string)
    requires NoDigits(num, before)
    ensures Search(num, before + s) == Search(num, s)
  {
    if before == "" {
      assert before + s == s;
    } else {
      assert (before + s)[1..] == before[1..] + s;
      SearchSkips(num, before[1..], s);
      assert Run(num, before + s) == 0;
    }
  }

  /** Three numbers joined by dots, then anything that neither extends the last nor starts a fourth. */
  lemma GroupsOf(num: Numerals, minor: string, patch: string, suffix: string)
    requires Sane(num) && AllDigits(num, minor) && AllDigits(num, patch)
    requires Stops(num, suffix) && (suffix == "" || suffix[0] != '.')
    ensures Groups(num, ['.'] + (minor + (['.'] + (patch + suffix))), 3) == [minor, patch]
  {
    var c := patch + suffix;
    var b := minor + (['.'] + c);
    RunOf(num, patch, suffix);
    NumberThenDot(num, minor, c);
    DotStops(num, c);
    DotStops(num, b);
    assert Groups(num, suffix, 1) == [];
    assert Groups(num, ['.'] + c, 2) == [patch] by {
      hide Run, Sane;
    }
    hide Run, Sane;
    assert b[|minor|..] == ['.'] + c;
  }

  lemma ExtractNumbers(num: Numerals, t: Tag)
    requires Sane(num) && WellFormed(num, t)
    ensures Search(num, Numbers(t)) == Some([t.major, t.minor, t.patch])
  {
    hide Run, Groups, Sane, AllDigits, SuffixOk, Stops, TakeNumber;
    SuffixStops(num, t.suffix);
    var b := t.minor + (['.'] + (t.patch + t.suffix));
    MajorIsSome(num, t);
    NumberThenDot(num, t.major, b);
    GroupsOf(num, t.minor, t.patch, t.suffix);
    assert [t.major] + [t.minor, t.patch] == [t.major, t.minor, t.patch];
  }

  lemma MajorIsSome(num: Numerals, t: Tag)
    requires WellFormed(num, t)
    ensures |t.major| > 0 && Numbers(t) != ""
  {
  }

  /** The extractor finds exactly the three numbers that the grammar denotes, whatever the prefix and
      the suffix hold. */
  lemma ExtractPrint(num: Numerals, t: Tag)
    requires Sane(num) && WellFormed(num, t)
    ensures Search(num, Print(t)) == Some([t.major, t.minor, t.patch])
  {
    forall i | 0 <= i < |t.prefix| ensures num(t.prefix[i]).None? {
      assert t.prefix[i] in ".-+vyetka";
    }
    hide Search, Numbers;
    SearchSkips(num, t.prefix, Numbers(t));
    ExtractNumbers(num, t);
  }

  lemma ThreeValues(num: Numerals, a: string, b: string, c: string)
    ensures Values(num, [a, b, c]) == [Value(num, a), Value(num, b), Value(num, c)]
  {
    hide Value;
    assert [a, b, c][1..] == [b, c] && [b, c][1..] == [c] && [c][1..] == [];
    assert Values(num, [c]) == [Value(num, c)];
    assert Values(num, [b, c]) == [Value(num, b), Value(num, c)];
  }

  lemma ReadableThree(parts: seq<string>)
    requires |parts| == 3
    ensures Readable(parts) <==> |parts[0]| <= 4300 && |parts[1]| <= 4300 && |parts[2]| <= 4300
  {
  }

  /** For every accepted tag the version is the grammar's triple if and only if no number has more digits
      than `int` reads; otherwise there is none. */
  lemma VersionOfTagIff(num: Numerals, s: string)
    requires Sane(num) && Accepted(num, s)
    ensures var t := Parse(num, s).value;
            && (Version(num, s) == Some(Triple(num, t)) <==> Readable([t.major, t.minor, t.patch]))
            && (Version(num, s) == None <==> !Readable([t.major, t.minor, t.patch]))
            && (Version(num, s) == None <==> |t.major| > 4300 || |t.minor| > 4300 || |t.patch| > 4300)
  {
    var parts := [Parse(num, s).value.major, Parse(num, s).value.minor, Parse(num, s).value.patch];
    ReadableThree(parts);
    hide Search, Parse, Value, Values, WellFormed, Print;
    PrintParse(num, s);
    var t := Parse(num, s).value;
    ExtractPrint(num, t);
    ThreeValues(num, t.major, t.minor, t.patch);
  }

  predicate DigitDotDigit(num: Numerals, s: string, i: nat) {
    i + 2 < |s| && num(s[i]).Some? && s[i + 1] == '.' && num(s[i + 2]).Some?
  }

  /** For any string at all: something is found exactly when a dot stands between two digits. */
  lemma {:induction false} SearchFindsIff(num: Numerals, s: string)
    requires Sane(num)
    ensures Search(num, s).Some? <==> exists i: nat :: DigitDotDigit(num, s, i)
  {
    if s != "" {
      SearchFindsIff(num, s[1..]);
      var k := Run(num, s);
      RunIsDigits(num, s);
      if MatchAt(num, s).Some? {
        assert s[k..][0] == s[k] && s[k..][1..] == s[k + 1..];
        assert DigitDotDigit(num, s, k - 1);
      } else {
        forall i: nat | DigitDotDigit(num, s, i) ensures i > 0 && DigitDotDigit(num, s[1..], i - 1) {
          if i == 0 { FirstMatches(num, s); }
        }
        forall i: nat | DigitDotDigit(num, s[1..], i) ensures DigitDotDigit(num, s, i + 1) {
        }
        assert (exists i: nat :: DigitDotDigit(num, s[1..], i)) <==> exists i: nat :: DigitDotDigit(num, s, i);
      }
    }
  }

  lemma FirstMatches(num: Numerals, s: string)
    requires Sane(num) && DigitDotDigit(num, s, 0)
    ensures MatchAt(num, s).Some?
  {
    assert '.' in ".-+vyetka";
    assert Run(num, s[1..]) == 0;
    assert s[1..][1..][0] == s[2];
    assert Groups(num, s[1..], 3) != [];
  }

  // ---------- Offering an update ----------

  /** Python's order on tuples. */
  predicate LexLe(a: seq<nat>, b: seq<nat>) {
    if a == [] then true
    else if b == [] then false
    else a[0] < b[0] || (a[0] == b[0] && LexLe(a[1..], b[1..]))
  }

  /** `available` */
  predicate Available(num: Numerals, current: string, latest: string) {
    var cv, lv := Version(num, current), Version(num, latest);
    lv.Some? && lv.value != [] && latest != current && (cv.None? || LexLe(cv.value, lv.value))
  }

  /** `_check_yetka_release`: raises when the release has no valid tag. */
  function Check(num: Numerals, current: string, latest: string): Option<bool> {
    if Accepted(num, latest) then Some(Available(num, current, latest)) else None
  }

  /** `_current_yetka_version`: the recorded line when it is a tag. */
  function CurrentVersion(num: Numerals, line: Option<string>, fallback: string): string {
    if line.Some? && Accepted(num, line.value) then line.value else fallback
  }

  lemma {:induction false} LexTrans(a: seq<nat>, b: seq<nat>, c: seq<nat>)
    requires LexLe(a, b) && LexLe(b, c)
    ensures LexLe(a, c)
    decreases |a|
  {
    if a != [] && a[0] == b[0] == c[0] { LexTrans(a[1..], b[1..], c[1..]); }
  }

  lemma {:induction false} LexAntisym(a: seq<nat>, b: seq<nat>)
    requires LexLe(a, b) && LexLe(b, a)
    ensures a == b
    decreases |a|
  {
    if a != [] {
      LexAntisym(a[1..], b[1..]);
      assert a == [a[0]] + a[1..] && b == [b[0]] + b[1..];
    }
  }

  lemma {:induction false} LexRefl(a: seq<nat>)
    ensures LexLe(a, a)
  {
    if a != [] { LexRefl(a[1..]); }
  }

  lemma {:induction false} SearchNonEmpty(num: Numerals, s: string)
    ensures Search(num, s).Some? ==> |Search(num, s).value| >= 2
  {
    if s != "" && MatchAt(num, s).None? { SearchNonEmpty(num, s[1..]); }
  }

  lemma {:induction false} AsManyValues(num: Numerals, parts: seq<string>)
    ensures |Values(num, parts)| == |parts|
  {
    if parts != [] { AsManyValues(num, parts[1..]); }
  }

  ghost predicate NotAbove(a: seq<nat>, b: seq<nat>)
    requires |a| == |b| == 3
  {
    a[0] < b[0] || (a[0] == b[0] && (a[1] < b[1] || (a[1] == b[1] && a[2] <= b[2])))
  }

  lemma LexOfTriples(a: seq<nat>, b: seq<nat>)
    requires |a| == |b| == 3
    ensures LexLe(a, b) <==> NotAbove(a, b)
  {
    var a1, b1 := a[1..], b[1..];
    var a2, b2 := a1[1..], b1[1..];
    assert LexLe(a2[1..], b2[1..]);
    assert LexLe(a2, b2) <==> a2[0] <= b2[0];
    assert LexLe(a1, b1) <==> a1[0] < b1[0] || (a1[0] == b1[0] && LexLe(a2, b2));
  }

  predicate ReadableTag(num: Numerals, s: string)
    requires Accepted(num, s)
  {
    var t := Parse(num, s).value;
    Readable([t.major, t.minor, t.patch])
  }

  /** Between accepted tags an update is offered exactly when the tags differ, the new one's numbers are
      readable and, if the current one's are too, not below them. */
  lemma OfferedIff(num: Numerals, current: string, latest: string)
    requires Sane(num) && Accepted(num, current) && Accepted(num, latest)
    ensures Check(num, current, latest) == Some(true) <==>
            && ReadableTag(num, latest) && latest != current
            && (ReadableTag(num, current) ==>
                  NotAbove(Triple(num, Parse(num, current).value), Triple(num, Parse(num, latest).value)))
  {
    VersionOfTagIff(num, current);
    VersionOfTagIff(num, latest);
    hide Version, Parse, Value;
    LexOfTriples(Triple(num, Parse(num, current).value), Triple(num, Parse(num, latest).value));
  }

  function NumberTag(a: nat, b: nat, c: nat): string {
    Print(Tag("v", Decimal(a), Decimal(b), Decimal(c), ""))
  }

  lemma NumberTagParses(num: Numerals, a: nat, b: nat, c: nat)
    requires Sane(num) && Ascii(num)
    ensures var s := NumberTag(a, b, c);
            && Accepted(num, s) && Triple(num, Parse(num, s).value) == [a, b, c]
            && ReadableTag(num, s) == Readable([Decimal(a), Decimal(b), Decimal(c)])
  {
    ValueOfDecimal(num, a);
    ValueOfDecimal(num, b);
    ValueOfDecimal(num, c);
    hide Parse, Print, Decimal, Value, Readable;
    ParsePrint(num, Tag("v", Decimal(a), Decimal(b), Decimal(c), ""));
  }

  /** From numbers to the offer: of two releases without suffix, vA.B.C and vD.E.F, the second is offered over
      the first exactly when its numbers are greater, compared as numbers and from the left. */
  lemma OfferedByNumbers(num: Numerals, a: nat, b: nat, c: nat, d: nat, e: nat, f: nat)
    requires Sane(num) && Ascii(num)
    requires Readable([Decimal(a), Decimal(b), Decimal(c)]) && Readable([Decimal(d), Decimal(e), Decimal(f)])
    ensures Check(num, NumberTag(a, b, c), NumberTag(d, e, f)) == Some(true)
            <==> a < d || (a == d && (b < e || (b == e && c < f)))
  {
    hide Check, Parse, NumberTag, Decimal, Triple, Readable, Sane, Ascii, ReadableTag;
    var old', new' := NumberTag(a, b, c), NumberTag(d, e, f);
    NumberTagParses(num, a, b, c);
    NumberTagParses(num, d, e, f);
    OfferedIff(num, old', new');
    var x, y := [a, b, c], [d, e, f];
    assert NotAbove(x, y) <==> a < d || (a == d && (b < e || (b == e && c <= f)));
    if a == d && b == e && c == f {
      assert old' == new';
    } else {
      assert x[0] != y[0] || x[1] != y[1] || x[2] != y[2];
      assert old' != new';
    }
  }

  /** What is installed after each release is checked in turn and taken when offered. */
  function Track(num: Numerals, line: Option<string>, fallback: string, releases: seq<string>): Option<string>
    decreases |releases|
  {
    if releases == [] then line else
      var current := CurrentVersion(num, line, fallback);
      var next := if Check(num, current, releases[0]) == Some(true) then Some(releases[0]) else line;
      Track(num, next, fallback, releases[1..])
  }

  /** A release without a valid tag is an error; over a version that cannot be told, every readable tag but the
      installed string itself is offered; and what is offered and installed is the current version then. */
  lemma OfferedOverUnknown(num: Numerals, line: Option<string>, fallback: string, latest: string)
    requires Sane(num)
    ensures var current := CurrentVersion(num, line, fallback);
            && (Check(num, current, latest) == None <==> forall t | WellFormed(num, t) :: Print(t) != latest)
            && (Accepted(num, latest) && Version(num, current).None? ==>
                  (Check(num, current, latest) == Some(true) <==> ReadableTag(num, latest) && latest != current))
            && CurrentVersion(num, Track(num, line, fallback, [latest]), fallback)
               == if Check(num, current, latest) == Some(true) then latest else current
  {
    hide Version, Parse, Print, WellFormed, Sane;
    var current := CurrentVersion(num, line, fallback);
    if Accepted(num, latest) {
      VersionOfTagIff(num, latest);
      PrintParse(num, latest);
    }
    forall t | WellFormed(num, t) && Print(t) == latest ensures Accepted(num, latest) { ParsePrint(num, t); }
    var next := if Check(num, current, latest) == Some(true) then Some(latest) else line;
    assert [latest][1..] == [];
    assert Track(num, next, fallback, []) == next;
  }

  /** Over any history of releases, offered updates never lower a known version and never lose it. */
  lemma {:induction false} TrackNeverDowngrades(num: Numerals, line: Option<string>, fallback: string,
                                                releases: seq<string>)
    requires Version(num, CurrentVersion(num, line, fallback)).Some?
    ensures var before := Version(num, CurrentVersion(num, line, fallback));
            var after := Version(num, CurrentVersion(num, Track(num, line, fallback, releases), fallback));
            after.Some? && LexLe(before.value, after.value)
    decreases |releases|
  {
    hide Version, Parse, LexLe;
    var current := CurrentVersion(num, line, fallback);
    if releases == [] {
      LexRefl(Version(num, current).value);
    } else {
      var next := if Check(num, current, releases[0]) == Some(true) then Some(releases[0]) else line;
      var v := Version(num, current).value;
      LexRefl(v);
      TrackNeverDowngrades(num, next, fallback, releases[1..]);
      var w := Version(num, CurrentVersion(num, next, fallback)).value;
      LexTrans(v, w, Version(num, CurrentVersion(num, Track(num, line, fallback, releases), fallback)).value);
    }
  }

  /** Two different strings are each offered as the other's update if and only if both have a version and
      the versions are equal, as for rebuilds that differ in the suffix. */
  lemma MutualOfferIff(num: Numerals, a: string, b: string)
    ensures Available(num, a, b) && Available(num, b, a) <==>
            a != b && Version(num, a).Some? && Version(num, a) == Version(num, b)
  {
    if Available(num, a, b) && Available(num, b, a) {
      LexAntisym(Version(num, a).value, Version(num, b).value);
    }
    if a != b && Version(num, a).Some? && Version(num, a) == Version(num, b) {
      SearchNonEmpty(num, a);
      AsManyValues(num, Search(num, a).value);
      LexRefl(Version(num, a).value);
    }
  }

  /** Each tag is offered while the one before it is installed. */
  predicate Chain(num: Numerals, tags: seq<string>) {
    forall i: nat | i + 1 < |tags| :: Available(num, tags[i], tags[i + 1])
  }

  lemma {:induction false} ChainClimbs(num: Numerals, tags: seq<string>, i: nat, j: nat)
    requires Chain(num, tags) && i <= j < |tags| && Version(num, tags[i]).Some?
    ensures Version(num, tags[j]).Some? && LexLe(Version(num, tags[i]).value, Version(num, tags[j]).value)
    decreases j
  {
    hide Version, LexLe;
    if i == j {
      LexRefl(Version(num, tags[i]).value);
    } else {
      ChainClimbs(num, tags, i, j - 1);
      assert Available(num, tags[j - 1], tags[j - 1 + 1]);
      LexTrans(Version(num, tags[i]).value, Version(num, tags[j - 1]).value, Version(num, tags[j]).value);
    }
  }

  /** A chain of offered updates that comes back to a version only went through builds of it. */
  lemma ChainReturnsOnlyOverRebuilds(num: Numerals, tags: seq<string>, i: nat, j: nat, k: nat)
    requires Chain(num, tags) && i <= k <= j < |tags|
    requires Version(num, tags[i]).Some? && Version(num, tags[j]) == Version(num, tags[i])
    ensures Version(num, tags[k]) == Version(num, tags[i])
  {
    hide Version, LexLe;
    ChainClimbs(num, tags, i, k);
    ChainClimbs(num, tags, k, j);
    LexAntisym(Version(num, tags[i]).value, Version(num, tags[k]).value);
  }
}
