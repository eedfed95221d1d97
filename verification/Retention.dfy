/** Retention sweeps of apps/audits/tasks.py: `batch_delete`, which pages by offset over a result set
    that shrinks as it deletes, and the day-by-day sweep of expired session commands. */
module Retention {
  import opened Arithmetic

  datatype Row = Row(id: nat, at: real)

  /** A lazily evaluated result set: `before <= at < until`, in table order. */
  datatype Query = Between(from_: real, until: real) | Before(until: real)

  predicate Matches(q: Query, r: Row) {
    match q
    case Between(a, b) => a <= r.at < b
    case Before(b) => r.at < b
  }

  function Select(rows: seq<Row>, q: Query): seq<Row> {
    if rows == [] then []
    else if Matches(q, rows[0]) then [rows[0]] + Select(rows[1..], q)
    else Select(rows[1..], q)
  }

  lemma SelectIn(rows: seq<Row>, q: Query)
    ensures forall r :: r in Select(rows, q) <==> r in rows && Matches(q, r)
  {
  }

  function Ids(rows: seq<Row>): set<nat> { set r | r in rows :: r.id }

  predicate Distinct(rows: seq<Row>) {
    forall i, j | 0 <= i < j < |rows| :: rows[i].id != rows[j].id
  }

  /** `model.objects.filter(id__in=ids).delete()` */
  function DeleteIds(rows: seq<Row>, ids: set<nat>): seq<Row> {
    if rows == [] then []
    else if rows[0].id in ids then DeleteIds(rows[1..], ids)
    else [rows[0]] + DeleteIds(rows[1..], ids)
  }

  lemma DeleteIn(rows: seq<Row>, ids: set<nat>)
    ensures forall r :: r in DeleteIds(rows, ids) <==> r in rows && r.id !in ids
  {
  }

  // ---------- What one batch deletion removes ----------

  function Min(a: nat, b: nat): nat { if a < b then a else b }

  /** Python's `s[a:a+b]`, which never overruns. */
  function Page(s: seq<Row>, a: nat, b: nat): seq<Row> { s[Min(a, |s|)..Min(a + b, |s|)] }

  /** The rows at the positions whose block number is odd. */
  function OddBlocks(s: seq<Row>, b: nat): seq<Row>
    requires b > 0
    decreases |s|
  {
    if |s| <= b then [] else Page(s, b, b) + OddBlocks(s[Min(2 * b, |s|)..], b)
  }

  /** The rows at the positions whose block number is even. */
  function EvenBlocks(s: seq<Row>, b: nat): seq<Row>
    requires b > 0
    decreases |s|
  {
    if |s| <= b then s else s[..b] + EvenBlocks(s[Min(2 * b, |s|)..], b)
  }

  /** The table after `batch_delete(q, b)`. */
  function AfterBatches(rows: seq<Row>, q: Query, b: nat): seq<Row>
    requires b > 0
  {
    DeleteIds(rows, Ids(EvenBlocks(Select(rows, q), b)))
  }

  // ---------- Lemmas on selecting and deleting ----------

  lemma {:induction false} SelectDelete(rows: seq<Row>, q: Query, ids: set<nat>)
    ensures Select(DeleteIds(rows, ids), q) == DeleteIds(Select(rows, q), ids)
  {
    if rows != [] { SelectDelete(rows[1..], q, ids); }
  }

  lemma {:induction false} DeleteUnion(rows: seq<Row>, a: set<nat>, b: set<nat>)
    ensures DeleteIds(DeleteIds(rows, a), b) == DeleteIds(rows, a + b)
  {
    if rows != [] { DeleteUnion(rows[1..], a, b); }
  }

  lemma {:induction false} DeleteConcat(s: seq<Row>, t: seq<Row>, ids: set<nat>)
    ensures DeleteIds(s + t, ids) == DeleteIds(s, ids) + DeleteIds(t, ids)
  {
    if s == [] {
      assert s + t == t;
    } else {
      assert (s + t)[1..] == s[1..] + t;
      DeleteConcat(s[1..], t, ids);
    }
  }

  lemma {:induction false} DeleteAll(s: seq<Row>, ids: set<nat>)
    requires Ids(s) <= ids
    ensures DeleteIds(s, ids) == []
  {
    if s != [] {
      assert s[0] in s && s[0].id in Ids(s);
      assert Ids(s[1..]) <= Ids(s);
      DeleteAll(s[1..], ids);
    }
  }

  lemma {:induction false} DeleteNone(s: seq<Row>, ids: set<nat>)
    requires Ids(s) !! ids
    ensures DeleteIds(s, ids) == s
  {
    if s != [] {
      assert s[0] in s && s[0].id in Ids(s);
      assert Ids(s[1..]) <= Ids(s);
      DeleteNone(s[1..], ids);
    }
  }

  lemma {:induction false} SelectDistinct(rows: seq<Row>, q: Query)
    requires Distinct(rows)
    ensures Distinct(Select(rows, q))
  {
    if rows != [] {
      SelectDistinct(rows[1..], q);
      SelectIn(rows[1..], q);
      forall r | r in Select(rows[1..], q) ensures r.id != rows[0].id {
        var k :| 0 <= k < |rows| - 1 && rows[1..][k] == r;
        assert rows[k + 1] == r;
      }
    }
  }

  lemma {:induction false} DeleteDistinct(rows: seq<Row>, ids: set<nat>)
    requires Distinct(rows)
    ensures Distinct(DeleteIds(rows, ids))
  {
    if rows != [] {
      DeleteDistinct(rows[1..], ids);
      DeleteIn(rows[1..], ids);
      forall r | r in DeleteIds(rows[1..], ids) ensures r.id != rows[0].id {
        var k :| 0 <= k < |rows| - 1 && rows[1..][k] == r;
        assert rows[k + 1] == r;
      }
    }
  }

  lemma IdsConcat(a: seq<Row>, b: seq<Row>)
    ensures Ids(a + b) == Ids(a) + Ids(b)
  {
    assert forall r :: r in a + b <==> r in a || r in b;
  }

  lemma DistinctConcat(a: seq<Row>, b: seq<Row>)
    requires Distinct(a + b)
    ensures Distinct(a) && Distinct(b) && Ids(a) !! Ids(b)
  {
    var s := a + b;
    forall i, j | 0 <= i < |a| && 0 <= j < |b| ensures a[i].id != b[j].id {
      assert s[i] == a[i] && s[|a| + j] == b[j];
    }
    forall i, j | 0 <= i < j < |b| ensures b[i].id != b[j].id {
      assert s[|a| + i] == b[i] && s[|a| + j] == b[j];
    }
    forall i, j | 0 <= i < j < |a| ensures a[i].id != a[j].id {
      assert s[i] == a[i] && s[j] == a[j];
    }
  }

  /** Cutting the first two blocks off. */
  lemma Peel(s: seq<Row>, b: nat) returns (first: seq<Row>, second: seq<Row>, rest: seq<Row>)
    requires 0 < b < |s|
    ensures s == first + (second + rest) && |first| == b && |rest| < |s|
    ensures |second| <= b && (|second| == b || rest == [])
    ensures EvenBlocks(s, b) == first + EvenBlocks(rest, b)
    ensures OddBlocks(s, b) == second + OddBlocks(rest, b)
  {
    first, second, rest := s[..b], Page(s, b, b), s[Min(2 * b, |s|)..];
  }

  lemma Assoc(x: seq<Row>, y: seq<Row>, z: seq<Row>)
    ensures (x + y) + z == x + (y + z)
  {
  }

  /** Putting two blocks in front. */
  lemma Glue(first: seq<Row>, second: seq<Row>, rest: seq<Row>, b: nat)
    requires |first| == b > 0 && |second| == b
    ensures EvenBlocks(first + (second + rest), b) == first + EvenBlocks(rest, b)
    ensures OddBlocks(first + (second + rest), b) == second + OddBlocks(rest, b)
  {
    var s := first + (second + rest);
    assert s[..b] == first && Page(s, b, b) == second && s[Min(2 * b, |s|)..] == rest;
  }

  /** Even and odd blocks share the rows out between them. */
  lemma {:induction false} BlocksPartition(s: seq<Row>, b: nat)
    requires b > 0
    ensures |EvenBlocks(s, b)| + |OddBlocks(s, b)| == |s|
    ensures forall r :: r in s <==> r in EvenBlocks(s, b) || r in OddBlocks(s, b)
    decreases |s|
  {
    if |s| > b {
      var first, second, rest := Peel(s, b);
      BlocksPartition(rest, b);
    }
  }

  /** Deleting the rows of the even blocks leaves the odd blocks. */
  lemma {:induction false} DeleteEven(s: seq<Row>, b: nat)
    requires b > 0 && Distinct(s)
    ensures DeleteIds(s, Ids(EvenBlocks(s, b))) == OddBlocks(s, b)
    decreases |s|
  {
    if |s| <= b {
      DeleteAll(s, Ids(s));
    } else {
      var first, second, rest := Peel(s, b);
      var even := EvenBlocks(rest, b);
      DistinctConcat(first, second + rest);
      DistinctConcat(second, rest);
      IdsConcat(first, even);
      IdsConcat(second, rest);
      BlocksPartition(rest, b);
      assert Ids(even) <= Ids(rest);
      var ids := Ids(first) + Ids(even);
      DeleteConcat(first, second + rest, ids);
      DeleteConcat(second, rest, ids);
      DeleteAll(first, ids);
      DeleteNone(second, ids);
      DeleteUnion(rest, Ids(first), Ids(even));
      DeleteNone(rest, Ids(first));
      DeleteEven(rest, b);
    }
  }

  // ---------- Positions ----------

  /** Whether position j lies in an even block, counted by stepping back one block at a time. */
  predicate InEven(j: nat, b: nat)
    requires b > 0
  {
    j < b || !InEven(j - b, b)
  }

  lemma {:induction false} InEvenIsParity(j: nat, b: nat)
    requires b > 0
    ensures InEven(j, b) <==> (j / b) % 2 == 0
  {
    if j < b {
      QuotientIs(j, b, 0, j);
    } else {
      InEvenIsParity(j - b, b);
      QuotientStep(j, b);
    }
  }

  lemma {:induction false} InEvenAt(s: seq<Row>, b: nat, j: nat)
    requires b > 0 && j < |s|
    ensures if InEven(j, b) then s[j] in EvenBlocks(s, b) else s[j] in OddBlocks(s, b)
    decreases |s|
  {
    if |s| > b {
      var first, second, rest := Peel(s, b);
      InEvenStep(j, b);
      IndexThree(first, second, rest, j);
      hide EvenBlocks, OddBlocks, InEven, Page, Min;
      if j >= b + |second| {
        InEvenAt(rest, b, j - b - b);
      }
    }
  }

  lemma InEvenStep(j: nat, b: nat)
    requires b > 0
    ensures if j < b then InEven(j, b) else if j < b + b then !InEven(j, b) else InEven(j, b) == InEven(j - b - b, b)
  {
  }

  lemma IndexThree(x: seq<Row>, y: seq<Row>, z: seq<Row>, j: nat)
    requires j < |x + (y + z)|
    ensures var e := (x + (y + z))[j];
            if j < |x| then e in x else if j < |x| + |y| then e in y else e == z[j - |x| - |y|]
  {
  }

  /** Position by position: the block number j / b decides. */
  lemma BlockAt(s: seq<Row>, b: nat, j: nat)
    requires b > 0 && j < |s|
    ensures if (j / b) % 2 == 0 then s[j] in EvenBlocks(s, b) else s[j] in OddBlocks(s, b)
  {
    InEvenIsParity(j, b);
    InEvenAt(s, b, j);
  }

  // ---------- The paging loop ----------

  /** i is a multiple of b. */
  predicate Multiple(i: nat, b: nat)
    decreases i
  {
    i == 0 || (0 < b <= i && Multiple(i - b, b))
  }

  /** Blocks of a prefix that is cut after a whole number of block pairs. */
  lemma {:induction false} BlocksConcat(s: seq<Row>, t: seq<Row>, b: nat, i: nat)
    requires b > 0 && Multiple(i, b) && |s| == 2 * i
    ensures EvenBlocks(s + t, b) == EvenBlocks(s, b) + EvenBlocks(t, b)
    ensures OddBlocks(s + t, b) == OddBlocks(s, b) + OddBlocks(t, b)
    ensures |OddBlocks(s, b)| == i
    decreases i
  {
    if i == 0 {
      assert s + t == t;
    } else {
      var first, second, rest := Peel(s, b);
      hide EvenBlocks, OddBlocks;
      assert |second| == b;
      Assoc(first, second + rest, t);
      Assoc(second, rest, t);
      BlocksConcat(rest, t, b, i - b);
      Glue(first, second, rest + t, b);
      Assoc(first, EvenBlocks(rest, b), EvenBlocks(t, b));
      Assoc(second, OddBlocks(rest, b), OddBlocks(t, b));
    }
  }

  /** The loop's state after i offsets: of the rows listed at the start, the even blocks of the first
      2i are gone. */
  function Done(list: seq<Row>, b: nat, i: nat): seq<Row>
    requires b > 0
  {
    EvenBlocks(list[..Min(2 * i, |list|)], b)
  }

  /** The live result set after i offsets: odd blocks of the first 2i rows, then all the others. */
  lemma LiveRows(list: seq<Row>, b: nat, i: nat)
    requires b > 0 && Distinct(list)
    ensures var cut := Min(2 * i, |list|);
            DeleteIds(list, Ids(Done(list, b, i))) == OddBlocks(list[..cut], b) + list[cut..]
  {
    var cut := Min(2 * i, |list|);
    var p, r := list[..cut], list[cut..];
    assert list == p + r;
    DistinctConcat(p, r);
    BlocksPartition(p, b);
    var ids := Ids(EvenBlocks(p, b));
    assert ids <= Ids(p);
    hide EvenBlocks, OddBlocks, Distinct;
    DeleteConcat(p, r, ids);
    DeleteEven(p, b);
    DeleteNone(r, ids);
  }

  /** What the live result set shows at offset i is the next even block. */
  lemma LivePage(list: seq<Row>, b: nat, i: nat)
    requires b > 0 && Multiple(i, b) && Distinct(list)
    ensures var live := DeleteIds(list, Ids(Done(list, b, i)));
            Done(list, b, i + b) == Done(list, b, i) + Page(live, i, b)
  {
    LiveRows(list, b, i);
    if 2 * i <= |list| {
      DoneMore(list, b, i);
    } else {
      DonePast(list, b, i);
    }
    hide EvenBlocks, OddBlocks, Page, Multiple, DeleteIds;
  }

  lemma DoneMore(list: seq<Row>, b: nat, i: nat)
    requires b > 0 && Multiple(i, b) && 2 * i <= |list|
    ensures Done(list, b, i + b) == Done(list, b, i) + Page(OddBlocks(list[..2 * i], b) + list[2 * i..], i, b)
  {
    var r := list[2 * i..];
    var n := Min(2 * b, |r|);
    PrefixPlus(list, 2 * i, n);
    NextPair(list[..2 * i], r, r[..n], b, i);
    hide EvenBlocks, OddBlocks, Page, Multiple;
    assert Min(2 * (i + b), |list|) == 2 * i + n;
  }

  lemma DonePast(list: seq<Row>, b: nat, i: nat)
    requires b > 0 && Multiple(i, b) && |list| < 2 * i
    ensures Done(list, b, i + b) == Done(list, b, i)
    ensures Page(OddBlocks(list, b) + [], i, b) == [] && list[..|list|] == list
  {
    OddAtMost(list, b, i);
    hide EvenBlocks, OddBlocks, Multiple;
  }

  lemma NextPair(p: seq<Row>, r: seq<Row>, next: seq<Row>, b: nat, i: nat)
    requires b > 0 && Multiple(i, b) && |p| == 2 * i && next == r[..Min(2 * b, |r|)]
    ensures EvenBlocks(p + next, b) == EvenBlocks(p, b) + Page(OddBlocks(p, b) + r, i, b)
  {
    PagePrefix(r, |next|, b);
    BlocksConcat(p, next, b, i);
    PageSkip(OddBlocks(p, b), r, i, b);
    FirstPair(next, b);
    hide EvenBlocks, OddBlocks, Page, Min, Multiple;
  }

  lemma PrefixPlus(s: seq<Row>, i: nat, n: nat)
    requires i + n <= |s|
    ensures s[..i + n] == s[..i] + s[i..][..n]
  {
  }

  lemma PagePrefix(r: seq<Row>, n: nat, b: nat)
    requires n == Min(2 * b, |r|)
    ensures Page(r[..n], 0, b) == Page(r, 0, b)
  {
  }

  lemma PageSkip(o: seq<Row>, r: seq<Row>, i: nat, b: nat)
    requires |o| == i
    ensures Page(o + r, i, b) == Page(r, 0, b)
  {
  }

  lemma FirstPair(s: seq<Row>, b: nat)
    requires 0 < b && |s| <= 2 * b
    ensures EvenBlocks(s, b) == Page(s, 0, b)
  {
  }

  lemma {:induction false} OddAtMost(s: seq<Row>, b: nat, i: nat)
    requires b > 0 && Multiple(i, b) && |s| <= 2 * i
    ensures |OddBlocks(s, b)| <= i
    decreases i
  {
    if |s| > b { OddAtMost(s[Min(2 * b, |s|)..], b, i - b); }
  }

  lemma NothingDone(rows: seq<Row>, list: seq<Row>, b: nat)
    requires b > 0
    ensures Multiple(0, b) && rows == DeleteIds(rows, Ids(Done(list, b, 0)))
  {
    assert Done(list, b, 0) == [] && Ids([]) == {};
    DeleteNone(rows, {});
  }

  /** One round of the paging loop. */
  lemma OneMoreBatch(was: seq<Row>, rows: seq<Row>, q: Query, b: nat, i: nat, page: seq<Row>)
    requires b > 0 && Multiple(i, b) && Distinct(Select(was, q))
    requires rows == DeleteIds(was, Ids(Done(Select(was, q), b, i)))
    requires page == Page(Select(rows, q), i, b)
    ensures DeleteIds(rows, Ids(page)) == DeleteIds(was, Ids(Done(Select(was, q), b, i + b)))
    ensures Multiple(i + b, b)
  {
    var list := Select(was, q);
    SelectDelete(was, q, Ids(Done(list, b, i)));
    LivePage(list, b, i);
    IdsConcat(Done(list, b, i), page);
    DeleteUnion(was, Ids(Done(list, b, i)), Ids(page));
  }

  lemma AllDone(list: seq<Row>, b: nat, i: nat)
    requires b > 0 && |list| <= i
    ensures Done(list, b, i) == EvenBlocks(list, b)
  {
    assert list[..Min(2 * i, |list|)] == list;
  }

  /** The table of one model, deleted from in place. */
  class Table {
    var rows: seq<Row>

    constructor (rows: seq<Row>)
      ensures this.rows == rows
    {
      this.rows := rows;
    }

    method Delete(ids: set<nat>)
      modifies this
      ensures rows == DeleteIds(old(rows), ids)
    {
      rows := DeleteIds(rows, ids);
    }

    /** `batch_delete`.  The slice is taken from the result set as it is now. */
    method BatchDelete(q: Query, batchSize: nat)
      requires batchSize > 0 && Distinct(rows)
      modifies this
      ensures rows == AfterBatches(old(rows), q, batchSize)
    {
      ghost var list := Select(rows, q);
      SelectDistinct(rows, q);
      var count := |Select(rows, q)|;
      var i := 0;
      NothingDone(rows, list, batchSize);
      hide Done, Select, DeleteIds, Page, Distinct, Ids, Multiple;
      while i < count
        invariant 0 <= i && Multiple(i, batchSize)
        invariant rows == DeleteIds(old(rows), Ids(Done(list, batchSize, i)))
        decreases count - i
      {
        var page := Page(Select(rows, q), i, batchSize);
        var pks := Ids(page);
        OneMoreBatch(old(rows), rows, q, batchSize, i, page);
        Delete(pks);
        i := i + batchSize;
      }
      AllDone(list, batchSize, i);
    }

    /** One turn of the day loop. */
    method SweepOneDay(c: Calendar, day: int, expire: real, limit: nat, batchSize: nat)
      requires batchSize > 0 && Distinct(rows)
      modifies this
      ensures rows == SweepDay(old(rows), c, day, expire, limit, batchSize)
    {
      hide Select, Distinct, DeleteIds, AfterBatches, Ids;
      var dayStart, dayEnd := c.midnight(day), MinReal(c.midnight(day + 1), expire);
      if dayStart >= dayEnd { return; }
      var dayQuery := Between(dayStart, dayEnd);
      var dayCount := |Select(rows, dayQuery)|;
      if dayCount == 0 { return; }
      if dayCount <= limit {
        Delete(Ids(Select(rows, dayQuery)));
      } else {
        BatchDelete(dayQuery, batchSize);
      }
    }

    /** `delete_expired_commands_by_day`.  With nothing expired the minimum is None, and formatting it
        for the log raises before the test for None is reached. */
    method DeleteExpiredByDay(c: Calendar, expire: real, limit: nat, batchSize: nat) returns (raised: bool)
      requires batchSize > 0 && Distinct(rows)
      modifies this
      ensures raised <==> Select(old(rows), Before(expire)) == []
      ensures rows == if raised then old(rows) else
                SweepFrom(old(rows), c, c.dayOf(MinAt(Select(old(rows), Before(expire)))), expire, limit, batchSize)
    {
      var expired := Select(rows, Before(expire));
      if expired == [] { return true; }
      var day := c.dayOf(MinAt(expired));
      var expireDay := c.dayOf(expire);
      ghost var goal := SweepFrom(rows, c, day, expire, limit, batchSize);
      hide Select, Distinct, SweepDay, MinAt, SweepFrom;
      while day <= expireDay
        invariant Distinct(rows)
        invariant SweepFrom(rows, c, day, expire, limit, batchSize) == goal
      {
        SweepUnfold(rows, c, day, expire, limit, batchSize);
        SweepOneDay(c, day, expire, limit, batchSize);
        day := day + 1;
      }
      SweepUnfold(rows, c, day, expire, limit, batchSize);
      raised := false;
    }
  }

  // ---------- Batch deletion: what it does, and when that is what it is for ----------

  /** Same id, same row. */
  lemma SameRow(rows: seq<Row>, r: Row, t: Row)
    requires Distinct(rows) && r in rows && t in rows && r.id == t.id
    ensures r == t
  {
    var i :| 0 <= i < |rows| && rows[i] == r;
    var j :| 0 <= j < |rows| && rows[j] == t;
  }

  ghost predicate Disjoint(p: Query, q: Query) { forall r :: !(Matches(p, r) && Matches(q, r)) }

  /** Deleting rows of one query does not touch a disjoint one. */
  lemma DeleteOther(rows: seq<Row>, gone: seq<Row>, p: Query, q: Query)
    requires Distinct(rows) && Disjoint(p, q)
    requires forall r | r in gone :: r in Select(rows, p)
    ensures Select(DeleteIds(rows, Ids(gone)), q) == Select(rows, q)
  {
    SelectDelete(rows, q, Ids(gone));
    SelectIn(rows, p);
    SelectIn(rows, q);
    forall r, t | r in Select(rows, q) && t in gone ensures r.id != t.id {
      if r.id == t.id { SameRow(rows, r, t); }
    }
    DeleteNone(Select(rows, q), Ids(gone));
  }

  /** `batch_delete` leaves exactly the odd blocks of its result set, and everything outside it. */
  lemma BatchDeleteExact(rows: seq<Row>, q: Query, b: nat)
    requires b > 0 && Distinct(rows)
    ensures Select(AfterBatches(rows, q, b), q) == OddBlocks(Select(rows, q), b)
    ensures forall p | Disjoint(q, p) :: Select(AfterBatches(rows, q, b), p) == Select(rows, p)
    ensures forall r | !Matches(q, r) :: r in AfterBatches(rows, q, b) <==> r in rows
  {
    var list := Select(rows, q);
    SelectDistinct(rows, q);
    SelectDelete(rows, q, Ids(EvenBlocks(list, b)));
    DeleteEven(list, b);
    BlocksPartition(list, b);
    forall p | Disjoint(q, p) ensures Select(AfterBatches(rows, q, b), p) == Select(rows, p) {
      DeleteOther(rows, EvenBlocks(list, b), q, p);
    }
    SelectIn(rows, q);
    DeleteIn(rows, Ids(EvenBlocks(list, b)));
    forall r | !Matches(q, r) && r in rows ensures r.id !in Ids(EvenBlocks(list, b)) {
      forall t | t in EvenBlocks(list, b) ensures t.id != r.id {
        if t.id == r.id { SameRow(rows, r, t); }
      }
    }
  }

  /** In positions: the row listed at j survives exactly when j / b is odd. */
  lemma SurvivorsByPosition(rows: seq<Row>, q: Query, b: nat, j: nat)
    requires b > 0 && Distinct(rows) && j < |Select(rows, q)|
    ensures Select(rows, q)[j] in AfterBatches(rows, q, b) <==> (j / b) % 2 == 1
  {
    var list := Select(rows, q);
    BatchDeleteExact(rows, q, b);
    BlockAt(list, b, j);
    DeleteIn(rows, Ids(EvenBlocks(list, b)));
    SelectIn(AfterBatches(rows, q, b), q);
    if (j / b) % 2 == 0 {
      assert list[j].id in Ids(EvenBlocks(list, b));
    } else {
      assert list[j] in Select(AfterBatches(rows, q, b), q);
    }
  }

  lemma {:induction false} OddSmaller(s: seq<Row>, b: nat)
    requires b > 0
    ensures OddBlocks(s, b) == [] <==> |s| <= b
    ensures s != [] ==> |OddBlocks(s, b)| < |s|
    decreases |s|
  {
    if |s| > b {
      var first, second, rest := Peel(s, b);
      OddSmaller(rest, b);
    }
  }

  /** `batch_delete` removes everything it was asked to remove if and only if one batch suffices. */
  lemma BatchDeleteClearsIff(rows: seq<Row>, q: Query, b: nat)
    requires b > 0 && Distinct(rows)
    ensures Select(AfterBatches(rows, q, b), q) == [] <==> |Select(rows, q)| <= b
  {
    BatchDeleteExact(rows, q, b);
    OddSmaller(Select(rows, q), b);
  }

  function Repeated(rows: seq<Row>, q: Query, b: nat, times: nat): seq<Row>
    requires b > 0
    decreases times
  {
    if times == 0 then rows else Repeated(AfterBatches(rows, q, b), q, b, times - 1)
  }

  /** Run again and again on the same query, it does finish. */
  lemma {:induction false} RepeatedClears(rows: seq<Row>, q: Query, b: nat, times: nat)
    requires b > 0 && Distinct(rows) && |Select(rows, q)| <= times
    ensures Select(Repeated(rows, q, b, times), q) == []
    decreases times
  {
    if times > 0 {
      BatchDeleteExact(rows, q, b);
      OddSmaller(Select(rows, q), b);
      DeleteDistinct(rows, Ids(EvenBlocks(Select(rows, q), b)));
      RepeatedClears(AfterBatches(rows, q, b), q, b, times - 1);
    }
  }

  /** The intended loop: as many rounds, each taking the first b rows still listed. */
  function FromTheFront(rows: seq<Row>, q: Query, b: nat, i: nat, count: nat): seq<Row>
    requires b > 0
    decreases count - i
  {
    if i >= count then rows
    else FromTheFront(DeleteIds(rows, Ids(Page(Select(rows, q), 0, b))), q, b, i + b, count)
  }

  lemma {:induction false} FromTheFrontClears(rows: seq<Row>, q: Query, b: nat, i: nat, count: nat)
    requires b > 0 && Distinct(rows) && |Select(rows, q)| + i <= count
    ensures Select(FromTheFront(rows, q, b, i, count), q) == []
    decreases count - i
  {
    if i < count {
      FrontStep(rows, q, b, i, count);
      var rows' := DeleteIds(rows, Ids(Page(Select(rows, q), 0, b)));
      hide Select, DeleteIds, Page, Distinct, Ids, FromTheFront;
      if i + b > count {
        FrontAtEnd(rows', q, b, i + b, count);
      } else {
        FromTheFrontClears(rows', q, b, i + b, count);
      }
    }
  }

  lemma FrontStep(rows: seq<Row>, q: Query, b: nat, i: nat, count: nat)
    requires b > 0 && Distinct(rows) && i < count
    ensures var rows' := DeleteIds(rows, Ids(Page(Select(rows, q), 0, b)));
            && Distinct(rows')
            && |Select(rows', q)| == |Select(rows, q)| - Min(b, |Select(rows, q)|)
            && FromTheFront(rows, q, b, i, count) == FromTheFront(rows', q, b, i + b, count)
  {
    DeleteDistinct(rows, Ids(Page(Select(rows, q), 0, b)));
    FrontPage(rows, q, b);
    hide Select, DeleteIds, Page, Distinct, Ids;
  }

  lemma FrontPage(rows: seq<Row>, q: Query, b: nat)
    requires Distinct(rows)
    ensures var n := |Select(rows, q)|;
            |Select(DeleteIds(rows, Ids(Page(Select(rows, q), 0, b))), q)| == n - Min(b, n)
  {
    var list := Select(rows, q);
    var page := Page(list, 0, b);
    var rest := list[|page|..];
    SelectDistinct(rows, q);
    SelectDelete(rows, q, Ids(page));
    assert list == page + rest && |page| == Min(b, |list|);
    DropFront(page, rest);
    hide Select, DeleteIds, Page, Distinct, Ids;
  }

  lemma DropFront(page: seq<Row>, rest: seq<Row>)
    requires Distinct(page + rest)
    ensures DeleteIds(page + rest, Ids(page)) == rest
  {
    DistinctConcat(page, rest);
    DeleteConcat(page, rest, Ids(page));
    DeleteAll(page, Ids(page));
    DeleteNone(rest, Ids(page));
  }

  lemma FrontAtEnd(rows: seq<Row>, q: Query, b: nat, i: nat, count: nat)
    requires b > 0 && i >= count
    ensures FromTheFront(rows, q, b, i, count) == rows
  {
  }

  // ---------- The day sweep ----------

  /** Local midnights as timestamps, and the local date of a timestamp. */
  datatype Calendar = Calendar(midnight: int -> real, dayOf: real -> int)

  /** Midnights are strictly increasing and a timestamp lies within its date; nothing is assumed about
      the length of a day. */
  ghost predicate ValidCalendar(c: Calendar) {
    && (forall d, e | d < e :: c.midnight(d) < c.midnight(e))
    && (forall t :: c.midnight(c.dayOf(t)) <= t < c.midnight(c.dayOf(t) + 1))
  }

  function MinReal(a: real, b: real): real { if b < a then b else a }

  function MinAt(list: seq<Row>): (m: real)
    requires list != []
    ensures exists r :: r in list && r.at == m
    ensures forall r | r in list :: m <= r.at
  {
    if |list| == 1 then assert list[0] in list; list[0].at
    else
      var m := MinAt(list[1..]);
      assert list == [list[0]] + list[1..] && list[0] in list;
      MinReal(list[0].at, m)
  }

  function Window(c: Calendar, day: int, expire: real): Query {
    Between(c.midnight(day), MinReal(c.midnight(day + 1), expire))
  }

  function SweepDay(rows: seq<Row>, c: Calendar, day: int, expire: real, limit: nat, b: nat): seq<Row>
    requires b > 0
  {
    var q := Window(c, day, expire);
    var n := |Select(rows, q)|;
    if q.from_ >= q.until || n == 0 then rows
    else if n <= limit then DeleteIds(rows, Ids(Select(rows, q)))
    else AfterBatches(rows, q, b)
  }

  function SweepFrom(rows: seq<Row>, c: Calendar, day: int, expire: real, limit: nat, b: nat): seq<Row>
    requires b > 0
    decreases c.dayOf(expire) - day
  {
    if day > c.dayOf(expire) then rows
    else SweepFrom(SweepDay(rows, c, day, expire, limit, b), c, day + 1, expire, limit, b)
  }

  /** What is left of the rows of one day. */
  function Left(list: seq<Row>, limit: nat, b: nat): seq<Row>
    requires b > 0
  {
    if |list| <= limit then [] else OddBlocks(list, b)
  }

  /** The windows tile the expired time: an instant is in the window of a day exactly when it has
      expired and that is its date. */
  lemma WindowsTile(c: Calendar, day: int, expire: real, r: Row)
    requires ValidCalendar(c)
    ensures Matches(Window(c, day, expire), r) <==> r.at < expire && c.dayOf(r.at) == day
  {
    var d := c.dayOf(r.at);
    assert c.midnight(d) <= r.at < c.midnight(d + 1);
    if d < day { MidnightOrder(c, d + 1, day); }
    if day < d { MidnightOrder(c, day + 1, d); }
  }

  lemma SweepDayDistinct(rows: seq<Row>, c: Calendar, day: int, expire: real, limit: nat, b: nat)
    requires b > 0 && Distinct(rows)
    ensures Distinct(SweepDay(rows, c, day, expire, limit, b))
  {
    var list := Select(rows, Window(c, day, expire));
    DeleteDistinct(rows, Ids(list));
    DeleteDistinct(rows, Ids(EvenBlocks(list, b)));
  }

  lemma {:induction false} SelectNothing(rows: seq<Row>, q: Query)
    requires forall r :: !Matches(q, r)
    ensures Select(rows, q) == []
  {
    if rows != [] { SelectNothing(rows[1..], q); }
  }

  lemma SweepUnfold(rows: seq<Row>, c: Calendar, day: int, expire: real, limit: nat, b: nat)
    requires b > 0 && Distinct(rows)
    ensures var next := SweepDay(rows, c, day, expire, limit, b);
            && Distinct(next)
            && SweepFrom(rows, c, day, expire, limit, b)
               == if day > c.dayOf(expire) then rows else SweepFrom(next, c, day + 1, expire, limit, b)
  {
    SweepDayDistinct(rows, c, day, expire, limit, b);
  }

  lemma SweepDayOwn(rows: seq<Row>, c: Calendar, day: int, expire: real, limit: nat, b: nat)
    requires b > 0 && Distinct(rows)
    ensures var q := Window(c, day, expire);
            Select(SweepDay(rows, c, day, expire, limit, b), q) == Left(Select(rows, q), limit, b)
  {
    var q := Window(c, day, expire);
    var list := Select(rows, q);
    BatchDeleteExact(rows, q, b);
    SelectDelete(rows, q, Ids(list));
    DeleteAll(list, Ids(list));
    if q.from_ >= q.until { SelectNothing(rows, q); }
    hide EvenBlocks, Disjoint, Distinct, Ids, AfterBatches;
  }

  lemma SweepDayOther(rows: seq<Row>, c: Calendar, day: int, expire: real, limit: nat, b: nat, p: Query)
    requires b > 0 && Distinct(rows) && Disjoint(Window(c, day, expire), p)
    ensures Select(SweepDay(rows, c, day, expire, limit, b), p) == Select(rows, p)
  {
    var q := Window(c, day, expire);
    BatchDeleteExact(rows, q, b);
    DeleteOther(rows, Select(rows, q), q, p);
    hide EvenBlocks, OddBlocks, Disjoint, Distinct, Ids, AfterBatches, Window, Select;
  }

  /** The sweep from a day on changes nothing outside the windows it visits. */
  lemma {:induction false} SweepOthers(rows: seq<Row>, c: Calendar, day: int, expire: real, limit: nat, b: nat,
                                       p: Query)
    requires b > 0 && Distinct(rows)
    requires forall d | day <= d <= c.dayOf(expire) :: Disjoint(Window(c, d, expire), p)
    ensures Select(SweepFrom(rows, c, day, expire, limit, b), p) == Select(rows, p)
    decreases c.dayOf(expire) - day
  {
    hide SweepDay, SweepFrom, Select, Window, Disjoint, Distinct;
    SweepUnfold(rows, c, day, expire, limit, b);
    if day <= c.dayOf(expire) {
      SweepDayOther(rows, c, day, expire, limit, b, p);
      SweepOthers(SweepDay(rows, c, day, expire, limit, b), c, day + 1, expire, limit, b, p);
    }
  }

  /** Every day that it visits is swept as the table was at the start. */
  lemma {:induction false} SweepExact(rows: seq<Row>, c: Calendar, day: int, expire: real, limit: nat, b: nat, e: int)
    requires b > 0 && Distinct(rows) && ValidCalendar(c) && day <= e <= c.dayOf(expire)
    ensures Select(SweepFrom(rows, c, day, expire, limit, b), Window(c, e, expire))
            == Left(Select(rows, Window(c, e, expire)), limit, b)
    decreases c.dayOf(expire) - day
  {
    hide SweepDay, SweepFrom, Select, Window, Disjoint, Distinct, Left, ValidCalendar;
    SweepUnfold(rows, c, day, expire, limit, b);
    var next := SweepDay(rows, c, day, expire, limit, b);
    if e == day {
      SweepDayOwn(rows, c, day, expire, limit, b);
      forall d | day + 1 <= d <= c.dayOf(expire) ensures Disjoint(Window(c, d, expire), Window(c, e, expire)) {
        WindowsDisjoint(c, d, e, expire);
      }
      SweepOthers(next, c, day + 1, expire, limit, b, Window(c, e, expire));
    } else {
      WindowsDisjoint(c, day, e, expire);
      SweepDayOther(rows, c, day, expire, limit, b, Window(c, e, expire));
      SweepExact(next, c, day + 1, expire, limit, b, e);
    }
  }

  lemma WindowsDisjoint(c: Calendar, d: int, e: int, expire: real)
    requires ValidCalendar(c) && d != e
    ensures Disjoint(Window(c, d, expire), Window(c, e, expire))
  {
    forall r ensures !(Matches(Window(c, d, expire), r) && Matches(Window(c, e, expire), r)) {
      WindowsTile(c, d, expire, r);
      WindowsTile(c, e, expire, r);
    }
  }

  /** The days that the sweep visits cover every expired row. */
  lemma ExpiredRowsAreVisited(rows: seq<Row>, c: Calendar, expire: real, r: Row)
    requires ValidCalendar(c) && r in Select(rows, Before(expire))
    ensures c.dayOf(MinAt(Select(rows, Before(expire)))) <= c.dayOf(r.at) <= c.dayOf(expire)
  {
    SelectIn(rows, Before(expire));
    DayOfMonotone(c, MinAt(Select(rows, Before(expire))), r.at);
    DayOfMonotone(c, r.at, expire);
  }

  lemma DayOfMonotone(c: Calendar, s: real, t: real)
    requires ValidCalendar(c) && s <= t
    ensures c.dayOf(s) <= c.dayOf(t)
  {
    if c.dayOf(t) < c.dayOf(s) {
      MidnightOrder(c, c.dayOf(t) + 1, c.dayOf(s));
      assert false;
    }
  }

  lemma MidnightOrder(c: Calendar, d: int, e: int)
    requires ValidCalendar(c) && d <= e
    ensures c.midnight(d) <= c.midnight(e)
  {
    if d < e { }
  }

  /** The table after the whole sweep. */
  function Swept(rows: seq<Row>, c: Calendar, expire: real, limit: nat, b: nat): seq<Row>
    requires b > 0 && Select(rows, Before(expire)) != []
  {
    SweepFrom(rows, c, c.dayOf(MinAt(Select(rows, Before(expire)))), expire, limit, b)
  }

  /** Which rows survive a sweep: all that have not expired, and of a day with more rows than the
      direct limit, those in its odd blocks. */
  lemma SweepSurvivors(rows: seq<Row>, c: Calendar, expire: real, limit: nat, b: nat, r: Row)
    requires b > 0 && Distinct(rows) && ValidCalendar(c) && Select(rows, Before(expire)) != [] && r in rows
    ensures r in Swept(rows, c, expire, limit, b) <==>
            r.at >= expire || r in Left(Select(rows, Window(c, c.dayOf(r.at), expire)), limit, b)
  {
    var first := c.dayOf(MinAt(Select(rows, Before(expire))));
    var rows' := Swept(rows, c, expire, limit, b);
    if r.at < expire {
      var q := Window(c, c.dayOf(r.at), expire);
      SelectIn(rows, Before(expire));
      SelectIn(rows', q);
      ExpiredRowsAreVisited(rows, c, expire, r);
      WindowsTile(c, c.dayOf(r.at), expire, r);
      SweepExact(rows, c, first, expire, limit, b, c.dayOf(r.at));
      assert r in rows' <==> r in Select(rows', q);
    } else {
      var q := Between(r.at, r.at + 1.0);
      forall d ensures Disjoint(Window(c, d, expire), q) {
        forall t ensures !(Matches(Window(c, d, expire), t) && Matches(q, t)) { WindowsTile(c, d, expire, t); }
      }
      SweepOthers(rows, c, first, expire, limit, b, q);
      SelectIn(rows, q);
      SelectIn(rows', q);
      assert r in Select(rows, q);
      assert r in Select(rows', q);
    }
  }

  lemma {:induction false} SweepShrinks(rows: seq<Row>, c: Calendar, day: int, expire: real, limit: nat, b: nat, r: Row)
    requires b > 0 && r in SweepFrom(rows, c, day, expire, limit, b)
    ensures r in rows
    decreases c.dayOf(expire) - day
  {
    if day <= c.dayOf(expire) {
      SweepShrinks(SweepDay(rows, c, day, expire, limit, b), c, day + 1, expire, limit, b, r);
      var list := Select(rows, Window(c, day, expire));
      DeleteIn(rows, Ids(list));
      DeleteIn(rows, Ids(EvenBlocks(list, b)));
    }
  }

  /** One overfull day leaves an expired row behind. */
  lemma OverfullDayRemains(rows: seq<Row>, c: Calendar, expire: real, limit: nat, b: nat, d: int) returns (r: Row)
    requires b > 0 && Distinct(rows) && ValidCalendar(c) && Select(rows, Before(expire)) != []
    requires |Select(rows, Window(c, d, expire))| > limit && |Select(rows, Window(c, d, expire))| > b
    ensures r in Select(Swept(rows, c, expire, limit, b), Before(expire))
  {
    var list := Select(rows, Window(c, d, expire));
    OddSmaller(list, b);
    BlocksPartition(list, b);
    SelectIn(rows, Window(c, d, expire));
    SelectIn(Swept(rows, c, expire, limit, b), Before(expire));
    r := OddBlocks(list, b)[0];
    assert r in OddBlocks(list, b) && r in list;
    WindowsTile(c, d, expire, r);
    hide SweepFrom, Window, Distinct, ValidCalendar;
    SweepSurvivors(rows, c, expire, limit, b, r);
  }

  predicate Overfull(rows: seq<Row>, c: Calendar, d: int, expire: real, limit: nat, b: nat) {
    var n := |Select(rows, Window(c, d, expire))|;
    n > limit && n > b
  }

  /** The sweep does what it is for, deleting every expired command, if and only if no day holds more
      rows than the direct limit and more than one batch. */
  lemma SweepClearsIff(rows: seq<Row>, c: Calendar, expire: real, limit: nat, b: nat)
    requires b > 0 && Distinct(rows) && ValidCalendar(c) && Select(rows, Before(expire)) != []
    ensures Select(Swept(rows, c, expire, limit, b), Before(expire)) == []
            <==> forall d :: !Overfull(rows, c, d, expire, limit, b)
  {
    var rows' := Swept(rows, c, expire, limit, b);
    hide SweepFrom, ValidCalendar, Distinct, MinAt, Window;
    if exists d :: Overfull(rows, c, d, expire, limit, b) {
      var d :| Overfull(rows, c, d, expire, limit, b);
      var r := OverfullDayRemains(rows, c, expire, limit, b, d);
    } else if Select(rows', Before(expire)) != [] {
      var r := Select(rows', Before(expire))[0];
      SelectIn(rows', Before(expire));
      assert r in Select(rows', Before(expire));
      SweepShrinks(rows, c, c.dayOf(MinAt(Select(rows, Before(expire)))), expire, limit, b, r);
      SweepSurvivors(rows, c, expire, limit, b, r);
      assert !Overfull(rows, c, c.dayOf(r.at), expire, limit, b);
      OddSmaller(Select(rows, Window(c, c.dayOf(r.at), expire)), b);
      assert false;
    }
  }
}
