/** The paged search over labeled resources (apps/labels/api.py): each page is a query of its own, and
    the rows are ordered by resource type only, so every query may order equal types differently. */
module LabelSearch {
  import opened Arithmetic

  datatype Row = Row(id: string, resType: int)

  predicate Distinct(s: seq<Row>) { forall i, j | 0 <= i < j < |s| :: s[i] != s[j] }

  predicate Sorted(s: seq<Row>) { forall i, j | 0 <= i < j < |s| :: s[i].resType <= s[j].resType }

  function Elems(s: seq<Row>): set<Row> { set r | r in s }

  /** One way the database may list the rows. */
  predicate Answer(rows: set<Row>, s: seq<Row>) { Distinct(s) && Sorted(s) && Elems(s) == rows }

  /** The listing that the k-th query works on. */
  type Answers = nat -> seq<Row>

  ghost predicate AllAnswers(rows: set<Row>, answers: Answers) {
    forall k: nat :: Answer(rows, answers(k))
  }

  /** Row r is on page k of a listing. */
  predicate OnPage(s: seq<Row>, limit: nat, k: nat, r: Row)
    requires limit > 0
  {
    exists i: nat :: i < |s| && i / limit == k && s[i] == r
  }

  ghost predicate Seen(answers: Answers, limit: nat, r: Row)
    requires limit > 0
  {
    exists k: nat :: OnPage(answers(k), limit, k, r)
  }

  ghost predicate SeenBefore(answers: Answers, limit: nat, n: nat, r: Row)
    requires limit > 0
  {
    exists k: nat :: k < n && OnPage(answers(k), limit, k, r)
  }

  function Slice(s: seq<Row>, offset: nat, limit: nat): seq<Row> {
    if offset >= |s| then [] else if offset + limit <= |s| then s[offset..offset + limit] else s[offset..]
  }

  lemma PageOf(i: nat, limit: nat, k: nat)
    requires limit > 0
    ensures i / limit == k <==> k * limit <= i < k * limit + limit
  {
    if k * limit <= i < k * limit + limit { QuotientIs(i, limit, k, i - k * limit); }
  }

  lemma NextPage(j: nat, k: nat, limit: nat)
    requires j < k
    ensures j * limit + limit <= k * limit
  {
    assert (k - j) * limit >= limit by { MulAtLeast(limit, k - j); }
  }

  lemma SliceIsPage(s: seq<Row>, limit: nat, k: nat, r: Row)
    requires limit > 0
    ensures r in Slice(s, k * limit, limit) <==> OnPage(s, limit, k, r)
  {
    var offset := k * limit;
    var page := Slice(s, offset, limit);
    if r in page {
      var m: nat :| m < |page| && page[m] == r;
      PageOf(offset + m, limit, k);
      assert s[offset + m] == r;
    }
    if OnPage(s, limit, k, r) {
      var i: nat :| i < |s| && i / limit == k && s[i] == r;
      PageOf(i, limit, k);
      assert page[i - offset] == r;
    }
  }

  lemma {:induction false} AsManyAsRows(s: seq<Row>)
    requires Distinct(s)
    ensures |Elems(s)| == |s|
  {
    if s != [] {
      var last, before := s[|s| - 1], s[..|s| - 1];
      AsManyAsRows(before);
      assert Elems(s) == Elems(before) + {last};
    }
  }

  lemma NothingPast(rows: set<Row>, answers: Answers, limit: nat, n: nat, r: Row)
    requires limit > 0 && AllAnswers(rows, answers) && n * limit >= |rows|
    ensures Seen(answers, limit, r) <==> SeenBefore(answers, limit, n, r)
  {
    if Seen(answers, limit, r) {
      var k: nat :| OnPage(answers(k), limit, k, r);
      var i: nat :| i < |answers(k)| && i / limit == k && answers(k)[i] == r;
      assert Answer(rows, answers(k));
      AsManyAsRows(answers(k));
      PageOf(i, limit, k);
      if k > n { NextPage(n, k, limit); }
    }
  }

  function Hits(page: seq<Row>, hit: string -> bool): set<Row> { set r | r in page && hit(r.id) }

  /** What has been matched after the first n pages. */
  ghost predicate Matched(matched: set<Row>, answers: Answers, limit: nat, hit: string -> bool, n: nat)
    requires limit > 0
  {
    forall r :: r in matched <==> hit(r.id) && SeenBefore(answers, limit, n, r)
  }

  lemma OneMorePage(matched: set<Row>, answers: Answers, limit: nat, hit: string -> bool, n: nat)
    requires limit > 0 && Matched(matched, answers, limit, hit, n)
    ensures Matched(matched + Hits(Slice(answers(n), n * limit, limit), hit), answers, limit, hit, n + 1)
  {
    var page := Slice(answers(n), n * limit, limit);
    hide Slice, OnPage;
    forall r ensures SeenBefore(answers, limit, n + 1, r) <==> SeenBefore(answers, limit, n, r) || r in page {
      SliceIsPage(answers(n), limit, n, r);
    }
  }

  lemma AllPages(matched: set<Row>, rows: set<Row>, answers: Answers, limit: nat, hit: string -> bool, n: nat)
    requires limit > 0 && AllAnswers(rows, answers) && n * limit >= |rows|
    requires Matched(matched, answers, limit, hit, n)
    ensures forall r :: r in matched <==> hit(r.id) && Seen(answers, limit, r)
  {
    forall r ensures Seen(answers, limit, r) <==> SeenBefore(answers, limit, n, r) {
      NothingPast(rows, answers, limit, n, r);
    }
  }

  lemma AnswerSize(rows: set<Row>, answers: Answers, k: nat)
    requires AllAnswers(rows, answers)
    ensures |answers(k)| == |rows|
  {
    assert Answer(rows, answers(k));
    AsManyAsRows(answers(k));
  }

  /** `filter_search`: pages until one is empty, and keeps the rows that hold the keyword. */
  method FilterSearch(rows: set<Row>, answers: Answers, limit: nat, hit: string -> bool) returns (matched: set<Row>)
    requires limit > 0 && AllAnswers(rows, answers)
    ensures forall r :: r in matched <==> hit(r.id) && Seen(answers, limit, r)
  {
    hide AllAnswers, Seen, SeenBefore, OnPage;
    matched := {};
    var offset, k := 0, 0;
    assert Matched(matched, answers, limit, hit, 0) by { NothingYet(answers, limit); }
    hide Matched;
    while true
      invariant offset == k * limit
      invariant Matched(matched, answers, limit, hit, k)
      decreases |rows| - offset
    {
      AnswerSize(rows, answers, k);
      var page := Slice(answers(k), offset, limit);
      if page == [] { break; }
      OneMorePage(matched, answers, limit, hit, k);
      offset := offset + limit;
      var m := 0;
      ghost var earlier := matched;
      while m < |page|
        invariant 0 <= m <= |page|
        invariant matched == earlier + Hits(page[..m], hit)
      {
        assert page[..m + 1] == page[..m] + [page[m]];
        if hit(page[m].id) { matched := matched + {page[m]}; }
        m := m + 1;
      }
      assert page[..m] == page;
      k := k + 1;
    }
    AllPages(matched, rows, answers, limit, hit, k);
  }

  lemma NothingYet(answers: Answers, limit: nat)
    requires limit > 0
    ensures forall r :: !SeenBefore(answers, limit, 0, r)
  {
  }

  // ---------- When the search finds everything ----------

  function Below(rows: set<Row>, t: int): set<Row> { set r | r in rows && r.resType < t }

  /** All rows of one type lie on one page. */
  predicate OnOnePage(rows: set<Row>, limit: nat, t: int)
    requires limit > 0
  {
    |Below(rows, t)| / limit == (|Below(rows, t + 1)| - 1) / limit
  }

  predicate CutAt(s: seq<Row>, t: int, j: nat) {
    j <= |s| && forall i | 0 <= i < |s| :: s[i].resType < t <==> i < j
  }

  lemma Cut(s: seq<Row>, t: int) returns (j: nat)
    requires Sorted(s)
    ensures CutAt(s, t, j)
  {
    j := 0;
    while j < |s| && s[j].resType < t
      invariant j <= |s| && forall i | 0 <= i < j :: s[i].resType < t
    {
      j := j + 1;
    }
  }

  /** In every listing the rows below a type are those before one position, the same in all. */
  lemma BelowIs(s: seq<Row>, t: int)
    requires Distinct(s) && Sorted(s)
    ensures CutAt(s, t, |Below(Elems(s), t)|)
  {
    var j := Cut(s, t);
    assert Below(Elems(s), t) == Elems(s[..j]);
    AsManyAsRows(s[..j]);
  }

  /** A row whose type lies on one page is seen, whatever the orders. */
  lemma OnePageSeen(rows: set<Row>, answers: Answers, limit: nat, r: Row)
    requires limit > 0 && AllAnswers(rows, answers) && r in rows && OnOnePage(rows, limit, r.resType)
    ensures Seen(answers, limit, r)
  {
    var g, m := |Below(rows, r.resType)|, |Below(rows, r.resType + 1)|;
    var k := g / limit;
    var s := answers(k);
    assert Answer(rows, s);
    BelowIs(s, r.resType);
    BelowIs(s, r.resType + 1);
    assert r in Elems(s);
    var i: nat :| i < |s| && s[i] == r;
    PageOf(g, limit, k);
    PageOf(m - 1, limit, k);
    PageOf(i, limit, k);
    assert OnPage(answers(k), limit, k, r);
  }

  lemma {:induction false} Largest(rows: set<Row>) returns (top: Row)
    requires rows != {}
    ensures top in rows && forall r | r in rows :: r.resType <= top.resType
    decreases |rows|
  {
    top :| top in rows;
    if rows != {top} {
      var other := Largest(rows - {top});
      if other.resType > top.resType { top := other; }
      assert forall r | r in rows :: r == top || r in rows - {top} || r == other || r.resType <= top.resType;
    }
  }

  /** Every set of rows can be listed. */
  lemma {:induction false} SomeAnswer(rows: set<Row>) returns (s: seq<Row>)
    ensures Answer(rows, s)
    decreases |rows|
  {
    s := [];
    if rows != {} {
      var top := Largest(rows);
      var before := SomeAnswer(rows - {top});
      s := before + [top];
      forall i | 0 <= i < |before| ensures before[i] in rows && before[i] != top {
        assert before[i] in Elems(before);
      }
      assert Elems(s) == Elems(before) + {top};
    }
  }

  /** Exchanging two neighbours of one type is another listing. */
  lemma Exchanged(rows: set<Row>, s: seq<Row>, p: nat)
    requires Answer(rows, s) && 0 < p < |s| && s[p - 1].resType == s[p].resType
    ensures Answer(rows, s[p - 1 := s[p]][p := s[p - 1]])
  {
    var u := s[p - 1 := s[p]][p := s[p - 1]];
    forall r ensures r in Elems(u) <==> r in Elems(s) {
      if r in Elems(s) {
        var i: nat :| i < |s| && s[i] == r;
        assert u[if i == p then p - 1 else if i == p - 1 then p else i] == r;
      }
    }
    assert Sorted(u) && Distinct(u);
  }

  /** The last page boundary inside a range of positions that spans more than one page. */
  lemma Boundary(g: nat, last: nat, limit: nat) returns (k: nat)
    requires limit > 0 && g <= last && g / limit != last / limit
    ensures g < k * limit <= last
  {
    k := last / limit;
    PageOf(last, limit, k);
    PageOf(g, limit, g / limit);
    if g / limit > k { NextPage(k, g / limit, limit); } else { NextPage(g / limit, k, limit); }
  }

  /** A type that straddles a page boundary hides a row: the later pages are asked in another order. */
  lemma StraddleHides(rows: set<Row>, limit: nat, r: Row) returns (answers: Answers, hidden: Row)
    requires limit > 0 && r in rows && !OnOnePage(rows, limit, r.resType)
    ensures AllAnswers(rows, answers) && hidden in rows && !Seen(answers, limit, hidden)
  {
    var s := SomeAnswer(rows);
    BelowIs(s, r.resType);
    BelowIs(s, r.resType + 1);
    var g, m := |Below(rows, r.resType)|, |Below(rows, r.resType + 1)|;
    assert r in Elems(s);
    var k := Boundary(g, m - 1, limit);
    hide OnOnePage, Seen, Below;
    var p := k * limit;
    var u := s[p - 1 := s[p]][p := s[p - 1]];
    assert s[p - 1].resType == r.resType == s[p].resType;
    Exchanged(rows, s, p);
    hide Answer, CutAt;
    answers := j => if j < k then s else u;
    hidden := s[p];
    assert hidden in Elems(s);
    HiddenThroughout(s, u, limit, k, p, answers);
  }

  lemma HiddenThroughout(s: seq<Row>, u: seq<Row>, limit: nat, k: nat, p: nat, answers: Answers)
    requires limit > 0 && 0 < p < |s| && p == k * limit && Distinct(s)
    requires u == s[p - 1 := s[p]][p := s[p - 1]]
    requires forall j: nat :: answers(j) == if j < k then s else u
    ensures !Seen(answers, limit, s[p])
  {
    forall j: nat ensures !OnPage(answers(j), limit, j, s[p]) {
      if OnPage(answers(j), limit, j, s[p]) {
        var i: nat :| i < |s| && i / limit == j && answers(j)[i] == s[p];
        PageOf(i, limit, j);
        if j < k {
          assert i == p;
          NextPage(j, k, limit);
        } else {
          assert i == p - 1;
          if k < j { NextPage(k, j, limit); }
        }
        assert false;
      }
    }
  }

  /** The search sees every row, however the database orders equal types in each query, if and only if no
      resource type's rows straddle a page boundary. */
  lemma SearchCompleteIff(rows: set<Row>, limit: nat)
    requires limit > 0
    ensures (forall answers: Answers, r | AllAnswers(rows, answers) && r in rows :: Seen(answers, limit, r))
            <==> forall r | r in rows :: OnOnePage(rows, limit, r.resType)
  {
    if forall r | r in rows :: OnOnePage(rows, limit, r.resType) {
      forall answers: Answers, r | AllAnswers(rows, answers) && r in rows ensures Seen(answers, limit, r) {
        OnePageSeen(rows, answers, limit, r);
      }
    } else {
      var r :| r in rows && !OnOnePage(rows, limit, r.resType);
      var answers, hidden := StraddleHides(rows, limit, r);
    }
  }

  /** Up to one page of rows is always searched completely. */
  lemma OnePageIsComplete(rows: set<Row>, limit: nat, r: Row)
    requires limit > 0 && |rows| <= limit && r in rows
    ensures OnOnePage(rows, limit, r.resType)
  {
    var a, b := Below(rows, r.resType), Below(rows, r.resType + 1);
    assert r in b && r !in a && a <= b && b <= rows;
    assert b == a + (b - a) && rows == b + (rows - b);
    assert |b| == |a| + |b - a| && |rows| == |b| + |rows - b|;
    assert r in b - a;
    PageOf(|a|, limit, 0);
    PageOf(|b| - 1, limit, 0);
  }
}
