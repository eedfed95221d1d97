/** Indexing into a chain of query sets as into their concatenation: QuerySetChain of
    apps/common/struct.py. */
module ChainedSlices {
  import opened Wrappers

  /** What may stand between the brackets; steps other than one are not modelled. */
  datatype Index = At(i: int) | Slice(start: Option<int>, stop: Option<int>)

  /** What comes out: an item, a list, or the query set's refusal of negative bounds. */
  datatype Got<T> = Item(item: T) | Items(items: seq<T>) | NegativeIndex

  // ---------- Reference: the concatenation ----------

  function Concat<T>(parts: seq<seq<T>>): seq<T> {
    if parts == [] then [] else Concat(parts[..|parts| - 1]) + parts[|parts| - 1]
  }

  function Min(a: int, b: int): int { if a < b then a else b }
  function Max(a: int, b: int): int { if a < b then b else a }

  /** Python's `s[a:b]` for bounds that are not negative. */
  function PySlice<T>(s: seq<T>, a: nat, b: nat): seq<T> {
    var lo := Min(a, |s|);
    s[lo..Max(lo, Min(b, |s|))]
  }

  /** A query set's own slicing: negative bounds are refused. */
  function SliceOne<T>(s: seq<T>, a: int, b: int): Got<T> {
    if a < 0 || b < 0 then NegativeIndex else Items(PySlice(s, a, b))
  }

  function Total<T>(parts: seq<seq<T>>): nat { |Concat(parts)| }

  /** Bounds as the code reads them: a missing or zero start is 0, a missing or zero stop the total. */
  function StartOf(start: Option<int>): int { if start.None? then 0 else start.value }

  function StopOf<T>(parts: seq<seq<T>>, stop: Option<int>): int {
    if stop.None? || stop.value == 0 then Total(parts) else stop.value
  }

  /** How many items precede the first part that the loop does not skip. */
  function Skipped<T>(parts: seq<seq<T>>, start: int, k: nat): (n: nat)
    requires k <= |parts|
    decreases |parts| - k
  {
    if k == |parts| || start < Total(parts[..k + 1]) then Total(parts[..k]) else Skipped(parts, start, k + 1)
  }

  predicate Reaches<T>(parts: seq<seq<T>>, start: int) {
    parts != [] && start < (if start < 0 then 0 else Total(parts))
  }

  // ---------- The class ----------

  class QuerySetChain<T(==)> {
    const querysets: seq<seq<T>>

    constructor (querysets: seq<seq<T>>)
      ensures this.querysets == querysets
    {
      this.querysets := querysets;
    }

    method TotalCount() returns (total: nat)
      ensures total == Total(querysets)
    {
      total := 0;
      var k := 0;
      assert querysets[..0] == [];
      while k < |querysets|
        invariant 0 <= k <= |querysets|
        invariant total == Total(querysets[..k])
      {
        ConcatNext(querysets, k);
        total := total + |querysets[k]|;
        k := k + 1;
      }
      assert querysets[..k] == querysets;
    }

    /** `__getitem__` */
    method GetItem(ndx: Index) returns (r: Got<T>)
      ensures ndx.At? ==>
        r == if 0 <= ndx.i < Total(querysets) then Item(Concat(querysets)[ndx.i]) else Items([])
      ensures ndx.Slice? ==>
        var start, stop := StartOf(ndx.start), StopOf(querysets, ndx.stop);
        if Refused(querysets, start, stop) then r == NegativeIndex
        else r == Items(PySlice(Concat(querysets), Max(start, 0), Max(stop, 0)))
    {
      hide PySlice, Concat, Progress, Max, Refused, Total;
      var total := TotalCount();
      var length, preLength := 0, 0;
      var items: seq<T> := [];
      var single := ndx.At?;
      var start := if single then ndx.i else if ndx.start.Some? then ndx.start.value else 0;
      var stop := if !single && ndx.stop.Some? && ndx.stop.value != 0 then ndx.stop.value else total;
      var k := 0;
      Begin(querysets, single, start, stop);
      while k < |querysets|
        invariant 0 <= k <= |querysets|
        invariant length == preLength == Total(querysets[..k])
        invariant Progress(querysets, single, k, start, stop, items)
      {
        var part, count := querysets[k], |querysets[k]|;
        OnePart(querysets, single, k, start, stop, items);
        length := length + count;
        var from: int;
        if length > start >= preLength {
          from := start - preLength;
          if single { return Item(part[from]); }
        } else if start >= length {
          preLength := preLength + count;
          k := k + 1;
          continue;
        } else {
          from := 0;
        }
        if single {
          preLength := preLength + count;
          k := k + 1;
          continue;
        }
        var to := if stop < length then stop - preLength else count;
        var piece := SliceOne(part, from, to);
        if piece == NegativeIndex { return NegativeIndex; }
        items := items + piece.items;
        preLength := preLength + count;
        k := k + 1;
        if stop < length { return Items(items); }
      }
      End(querysets, single, start, stop, items);
      r := Items(items);
    }
  }

  // ---------- The loop's progress ----------

  /** After k parts the list holds the slice of their concatenation. */
  predicate Collected<T(==)>(parts: seq<seq<T>>, k: nat, start: int, stop: int, items: seq<T>)
    requires k <= |parts|
  {
    items == PySlice(Concat(parts[..k]), Max(start, 0), Max(stop, 0))
  }

  /** Until a part is visited nothing has been decided; from then on no bound turned out negative. */
  predicate OnTrack<T>(parts: seq<seq<T>>, k: nat, start: int, stop: int)
    requires k <= |parts|
  {
    && (k == 0 || start >= Total(parts[..k]) ==> Skipped(parts, start, 0) == Skipped(parts, start, k))
    && (0 < k && start < Total(parts[..k]) ==>
          Reaches(parts, start) && Skipped(parts, start, 0) <= stop && Total(parts[..k]) <= stop)
  }

  /** Whether the query sets refuse the bounds. */
  predicate Refused<T>(parts: seq<seq<T>>, start: int, stop: int) {
    Reaches(parts, start) && stop < Skipped(parts, start, 0)
  }

  /** What holds after k parts: in single mode the index has not been passed, otherwise the list is the
      slice so far. */
  predicate Progress<T(==)>(parts: seq<seq<T>>, single: bool, k: nat, start: int, stop: int, items: seq<T>)
    requires k <= |parts|
  {
    if single then items == [] && !(0 <= start < Total(parts[..k]))
    else Collected(parts, k, start, stop, items) && OnTrack(parts, k, start, stop)
  }

  lemma Begin<T>(parts: seq<seq<T>>, single: bool, start: int, stop: int)
    ensures Total(parts[..0]) == 0 && Progress(parts, single, 0, start, stop, [])
  {
  }

  lemma End<T>(parts: seq<seq<T>>, single: bool, start: int, stop: int, items: seq<T>)
    requires Progress(parts, single, |parts|, start, stop, items)
    ensures if single then items == [] && !(0 <= start < Total(parts))
            else !Refused(parts, start, stop) && items == PySlice(Concat(parts), Max(start, 0), Max(stop, 0))
  {
    assert parts[..|parts|] == parts;
  }

  /** Everything that can happen at part k. */
  lemma OnePart<T>(parts: seq<seq<T>>, single: bool, k: nat, start: int, stop: int, items: seq<T>)
    requires k < |parts| && Progress(parts, single, k, start, stop, items)
    ensures var pre, count, next := Total(parts[..k]), |parts[k]|, Total(parts[..k + 1]);
            && pre + count == next
            && (start >= next || (single && start < pre) ==> Progress(parts, single, k + 1, start, stop, items))
            && (single && pre <= start < next ==> start < Total(parts) && Concat(parts)[start] == parts[k][start - pre])
            && (!single && start < next && stop < pre ==> Refused(parts, start, stop))
            && (!single && start < next && stop >= pre ==>
                  var items' := items + PySlice(parts[k], if start >= pre then start - pre else 0,
                                                if stop < next then stop - pre else count);
                  if stop < next then
                    && !Refused(parts, start, stop)
                    && (stop >= 0 ==> items' == PySlice(Concat(parts), Max(start, 0), Max(stop, 0)))
                  else Progress(parts, single, k + 1, start, stop, items'))
  {
    var pre, next := Total(parts[..k]), Total(parts[..k + 1]);
    SkipStep(parts, start, k);
    if single {
      if pre <= start < next { ItemAt(parts, k, start - pre); }
    } else if start >= next {
      CollectSkipped(parts, k, start, stop);
    } else if stop >= pre {
      CollectPart(parts, k, start, stop, items);
      if stop < next {
        var from := if start >= pre then start - pre else 0;
        CollectedAll(parts, k + 1, start, stop, items + PySlice(parts[k], from, stop - pre));
      }
    }
    hide Concat, PySlice, Collected;
  }

  lemma ItemAt<T>(parts: seq<seq<T>>, k: nat, from: nat)
    requires k < |parts| && from < |parts[k]|
    ensures Total(parts[..k]) + from < Total(parts)
    ensures Concat(parts)[Total(parts[..k]) + from] == parts[k][from]
  {
    ConcatNext(parts, k);
    ConcatPrefix(parts, k + 1);
  }

  lemma CollectSkipped<T>(parts: seq<seq<T>>, k: nat, start: int, stop: int)
    requires k < |parts| && start >= Total(parts[..k + 1])
    ensures forall items: seq<T> ::
      Collected(parts, k, start, stop, items) ==> Collected(parts, k + 1, start, stop, items)
  {
    ConcatNext(parts, k);
    PastIt(Concat(parts[..k]), parts[k], start, Max(stop, 0));
  }

  /** The piece that the loop takes from part k is the next piece of the slice. */
  lemma CollectPart<T>(parts: seq<seq<T>>, k: nat, start: int, stop: int, items: seq<T>)
    requires k < |parts| && Collected(parts, k, start, stop, items) && start < Total(parts[..k + 1])
    requires stop >= Total(parts[..k])
    ensures var pre, count := Total(parts[..k]), |parts[k]|;
            var from := if start >= pre then start - pre else 0;
            var to := if stop < pre + count then stop - pre else count;
            Collected(parts, k + 1, start, stop, items + PySlice(parts[k], from, to))
  {
    var pre, count := Total(parts[..k]), |parts[k]|;
    ConcatNext(parts, k);
    SliceNext(Concat(parts[..k]), parts[k], Max(start, 0), Max(stop, 0));
    if stop >= pre + count { SliceClamp(parts[k], if start >= pre then start - pre else 0, stop - pre); }
    hide PySlice, Concat;
  }

  lemma CollectedAll<T>(parts: seq<seq<T>>, k: nat, start: int, stop: int, items: seq<T>)
    requires k <= |parts| && Collected(parts, k, start, stop, items) && 0 <= stop <= Total(parts[..k])
    ensures items == PySlice(Concat(parts), Max(start, 0), Max(stop, 0))
  {
    SliceWithin(parts, k, Max(start, 0), stop);
  }

  lemma ConcatNext<T>(parts: seq<seq<T>>, k: nat)
    requires k < |parts|
    ensures Concat(parts[..k + 1]) == Concat(parts[..k]) + parts[k]
  {
    assert parts[..k + 1][..k] == parts[..k];
  }

  lemma {:induction false} ConcatPrefix<T>(parts: seq<seq<T>>, k: nat)
    requires k <= |parts|
    ensures Concat(parts[..k]) <= Concat(parts)
    decreases |parts| - k
  {
    if k < |parts| {
      ConcatPrefix(parts, k + 1);
      ConcatNext(parts, k);
    } else {
      assert parts[..k] == parts;
    }
  }

  lemma SliceNext<T>(s: seq<T>, p: seq<T>, a: nat, b: nat)
    ensures PySlice(s + p, a, b) == PySlice(s, a, b) + PySlice(p, Max(a - |s|, 0), Max(b - |s|, 0))
  {
    if b <= |s| {
      SliceBefore(s, p, a, b);
    } else if a <= |s| {
      SliceAcross(s, p, a, b);
    } else {
      SliceBeyond(s, p, a, b);
    }
  }

  lemma SliceBefore<T>(s: seq<T>, p: seq<T>, a: nat, b: nat)
    requires b <= |s|
    ensures PySlice(s + p, a, b) == PySlice(s, a, b) && PySlice(p, Max(a - |s|, 0), 0) == []
  {
  }

  lemma SliceAcross<T>(s: seq<T>, p: seq<T>, a: nat, b: nat)
    requires a <= |s| < b
    ensures PySlice(s + p, a, b) == s[a..] + PySlice(p, 0, b - |s|) && PySlice(s, a, b) == s[a..]
  {
    var m := Min(b - |s|, |p|);
    assert (s + p)[a..|s| + m] == s[a..] + p[..m];
  }

  lemma SliceBeyond<T>(s: seq<T>, p: seq<T>, a: nat, b: nat)
    requires |s| < a && |s| < b
    ensures PySlice(s + p, a, b) == PySlice(p, a - |s|, b - |s|) && PySlice(s, a, b) == []
  {
    var lo := Min(a - |s|, |p|);
    assert Min(a, |s + p|) == |s| + lo;
  }

  lemma SliceClamp<T>(p: seq<T>, a: nat, b: nat)
    requires b >= |p|
    ensures PySlice(p, a, b) == PySlice(p, a, |p|)
  {
  }

  lemma SkipStep<T>(parts: seq<seq<T>>, start: int, k: nat)
    requires k < |parts|
    ensures Skipped(parts, start, k) ==
            if start < Total(parts[..k + 1]) then Total(parts[..k]) else Skipped(parts, start, k + 1)
    ensures Total(parts[..k]) + |parts[k]| == Total(parts[..k + 1]) <= Total(parts)
  {
    ConcatNext(parts, k);
    ConcatPrefix(parts, k + 1);
  }

  lemma PastIt<T>(s: seq<T>, p: seq<T>, a: nat, b: nat)
    requires a >= |s| + |p|
    ensures PySlice(s + p, a, b) == PySlice(s, a, b) == []
  {
  }

  lemma SliceWithin<T>(parts: seq<seq<T>>, k: nat, a: nat, b: nat)
    requires k <= |parts| && b <= Total(parts[..k])
    ensures PySlice(Concat(parts), a, b) == PySlice(Concat(parts[..k]), a, b)
  {
    hide Concat, PySlice;
    ConcatPrefix(parts, k);
    SliceOfPrefix(Concat(parts[..k]), Concat(parts), a, b);
  }

  lemma SliceOfPrefix<T>(p: seq<T>, s: seq<T>, a: nat, b: nat)
    requires p <= s && b <= |p|
    ensures PySlice(s, a, b) == PySlice(p, a, b)
  {
  }

  // ---------- When the chain is the concatenation ----------

  lemma {:induction false} SkippedBounds<T>(parts: seq<seq<T>>, start: int, k: nat)
    requires k <= |parts|
    ensures Skipped(parts, start, k) <= Total(parts)
    ensures 0 <= start && Total(parts[..k]) <= start < Total(parts) ==> Skipped(parts, start, k) <= start
    decreases |parts| - k
  {
    ConcatPrefix(parts, k);
    if k < |parts| {
      SkippedBounds(parts, start, k + 1);
    } else {
      assert parts[..k] == parts;
    }
  }

  /** `chain[a:b]` is the slice of the concatenation if and only if b is not a zero that would be read
      as the total, and does not lie before the part that holds position a. */
  lemma SliceAgreesIff<T>(parts: seq<seq<T>>, a: nat, b: nat)
    ensures var stop := StopOf(parts, Some(b));
            !Refused(parts, a, stop) && PySlice(Concat(parts), a, stop) == PySlice(Concat(parts), a, b)
            <==> a >= Total(parts) || (b != 0 && Skipped(parts, a, 0) <= b)
  {
    SkippedBounds(parts, a, 0);
    if parts != [] { } else { assert Concat(parts) == []; }
    if b == 0 && a < Total(parts) {
      assert |PySlice(Concat(parts), a, Total(parts))| > 0 == |PySlice(Concat(parts), a, 0)|;
    }
  }

  /** A missing bound is the end on its side, and so is a zero stop: `chain[:]` is everything, `chain[a:]` and
      `chain[a:0]` what follows the first a items, and `chain[:b]` the first b for b from 1 to the total. */
  lemma OpenSlices<T>(parts: seq<seq<T>>, a: nat, b: nat)
    requires a <= Total(parts)
    ensures var s := Concat(parts);
            && PySlice(s, StartOf(None), StopOf(parts, None)) == s
            && PySlice(s, StartOf(Some(a)), StopOf(parts, None)) == s[a..]
            && PySlice(s, StartOf(Some(a)), StopOf(parts, Some(0))) == s[a..]
            && (1 <= b <= |s| ==> PySlice(s, StartOf(None), StopOf(parts, Some(b))) == s[..b])
            && (1 <= b <= |s| && a <= b ==> PySlice(s, StartOf(Some(a)), StopOf(parts, Some(b))) == s[a..b])
    ensures !Refused(parts, StartOf(None), StopOf(parts, None)) && !Refused(parts, a, StopOf(parts, None))
  {
    SkippedBounds(parts, 0, 0);
    SkippedBounds(parts, a, 0);
    assert parts[..0] == [];
  }

  /** In particular for every slice whose bounds are in order and do not end in zero. */
  lemma OrderedSliceAgrees<T>(parts: seq<seq<T>>, a: nat, b: nat)
    requires a <= b && 1 <= b
    ensures !Refused(parts, a, StopOf(parts, Some(b)))
    ensures PySlice(Concat(parts), a, StopOf(parts, Some(b))) == PySlice(Concat(parts), a, b)
  {
    SkippedBounds(parts, a, 0);
    assert parts[..0] == [];
  }
}
