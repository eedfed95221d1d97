/** Labels bound to resources: selecting the resources that carry all given labels by counting rows
    (apps/labels/mixins.py), and replacing a label's resources (apps/labels/api.py). */
module Labels {
  import opened Wrappers

  type Label = string
  type Resource = string
  type Org = string

  const Root: Org := "00000000-0000-0000-0000-000000000000"

  /** A labeled resource, `tag` being its label; all four columns are the unique key, so a table is a set. */
  datatype Row = Row(tag: Label, resType: string, resource: Resource, org: Org)

  /** The rows that queries see in an organization; the root organization sees all. */
  function Visible(rows: set<Row>, org: Org): set<Row> {
    if org == Root then rows else set r | r in rows && r.org == org
  }

  function OfType(rows: set<Row>, resType: string): set<Row> { set r | r in rows && r.resType == resType }

  // ---------- Selecting ----------

  /** `_get_filter_res_by_labels_m2m_in` */
  function LabelIn(rows: set<Row>, labels: seq<Label>): set<Row> { set r | r in rows && r.tag in labels }

  function Resources(rows: set<Row>): set<Resource> { set r | r in rows :: r.resource }

  function RowsOf(rows: set<Row>, resource: Resource): set<Row> { set r | r in rows && r.resource == resource }

  /** `_get_filter_res_by_labels_m2m_all`: group by resource and compare the row count. */
  function ByCounting(rows: set<Row>, labels: seq<Label>): set<Resource> {
    var candidates := LabelIn(rows, labels);
    set resource | resource in Resources(candidates) && |RowsOf(candidates, resource)| == |labels|
  }

  function AllLabels(rows: set<Row>, labels: seq<Label>): set<Resource> {
    if |labels| == 1 then Resources(LabelIn(rows, labels)) else ByCounting(rows, labels)
  }

  /** `get_labels_filter_attr_q`: no filter when no labels are given. */
  function Filter(table: set<Row>, org: Org, resType: string, labels: seq<Label>, matchAll: bool)
    : Option<set<Resource>>
  {
    var rows := OfType(Visible(table, org), resType);
    if labels == [] then None
    else if !matchAll then Some(Resources(LabelIn(rows, labels)))
    else Some(AllLabels(rows, labels))
  }

  // ---------- Counting is inclusion ----------

  predicate Carries(rows: set<Row>, resource: Resource, tag: Label) {
    exists r :: r in rows && r.resource == resource && r.tag == tag
  }

  predicate CarriesAll(rows: set<Row>, resource: Resource, labels: seq<Label>) {
    forall tag | tag in labels :: Carries(rows, resource, tag)
  }

  /** At most one row per label and resource. */
  predicate OneRowEach(rows: set<Row>) {
    forall r, s | r in rows && s in rows && r.tag == s.tag && r.resource == s.resource :: r == s
  }

  predicate NoDuplicates(labels: seq<Label>) {
    forall i, j | 0 <= i < j < |labels| :: labels[i] != labels[j]
  }

  function LabelsOf(rows: set<Row>): set<Label> { set r | r in rows :: r.tag }

  /** Rows of one resource are as many as their labels. */
  lemma {:induction false} AsManyLabels(rows: set<Row>)
    requires forall r, s | r in rows && s in rows && r.tag == s.tag :: r == s
    ensures |LabelsOf(rows)| == |rows|
    decreases |rows|
  {
    if rows != {} {
      var r :| r in rows;
      var rest := rows - {r};
      AsManyLabels(rest);
      assert rows == rest + {r};
      assert LabelsOf(rows) == LabelsOf(rest) + {r.tag};
      assert r.tag !in LabelsOf(rest);
    }
  }

  function ToSet(labels: seq<Label>): set<Label> { set l | l in labels }

  lemma {:induction false} SetSize(labels: seq<Label>)
    ensures |ToSet(labels)| <= |labels|
    ensures |ToSet(labels)| == |labels| <==> NoDuplicates(labels)
  {
    if labels != [] {
      var first, rest := labels[0], labels[1..];
      SetSize(rest);
      assert ToSet(labels) == {first} + ToSet(rest);
      if first in rest {
        var k :| 0 <= k < |rest| && rest[k] == first;
        assert labels[k + 1] == labels[0];
      } else {
        forall i, j | 0 <= i < j < |labels| && NoDuplicates(rest) ensures labels[i] != labels[j] {
          assert labels[j] == rest[j - 1];
          if i > 0 { assert labels[i] == rest[i - 1]; }
        }
        if NoDuplicates(labels) {
          forall i, j | 0 <= i < j < |rest| ensures rest[i] != rest[j] {
            assert rest[i] == labels[i + 1] && rest[j] == labels[j + 1];
          }
        }
      }
    }
  }

  lemma SubsetFull(a: set<Label>, b: set<Label>)
    requires a <= b
    ensures |a| <= |b|
    ensures |a| == |b| <==> a == b
  {
    assert b == a + (b - a);
    assert |b| == |a| + |b - a|;
    if a != b {
      var x :| x in b - a;
    }
  }

  /** The labels that the candidate rows of a resource carry. */
  lemma CarriedLabels(rows: set<Row>, labels: seq<Label>, resource: Resource)
    requires OneRowEach(rows)
    ensures var carried := LabelsOf(RowsOf(LabelIn(rows, labels), resource));
            && |RowsOf(LabelIn(rows, labels), resource)| == |carried|
            && carried <= ToSet(labels)
            && (carried == ToSet(labels) <==> CarriesAll(rows, resource, labels))
  {
    var mine := RowsOf(LabelIn(rows, labels), resource);
    AsManyLabels(mine);
    forall tag | tag in labels ensures tag in LabelsOf(mine) <==> Carries(rows, resource, tag) {
      if Carries(rows, resource, tag) {
        var r :| r in rows && r.resource == resource && r.tag == tag;
        assert r in mine;
      }
    }
    if CarriesAll(rows, resource, labels) {
      assert forall tag | tag in ToSet(labels) :: tag in LabelsOf(mine);
    }
    if LabelsOf(mine) == ToSet(labels) {
      forall tag | tag in labels ensures Carries(rows, resource, tag) {
        assert tag in ToSet(labels);
      }
    }
  }

  /** With one row per label and resource and distinct labels, counting selects exactly the resources
      that carry every label. */
  lemma CountingIsInclusion(rows: set<Row>, labels: seq<Label>, resource: Resource)
    requires OneRowEach(rows) && NoDuplicates(labels) && labels != []
    ensures resource in ByCounting(rows, labels) <==> CarriesAll(rows, resource, labels)
  {
    CarriedLabels(rows, labels, resource);
    SetSize(labels);
    var mine := RowsOf(LabelIn(rows, labels), resource);
    SubsetFull(LabelsOf(mine), ToSet(labels));
    if |mine| == |labels| {
      assert mine != {};
      var r :| r in mine;
      assert r in LabelIn(rows, labels);
    }
  }

  /** For one label the short path gives what counting gives. */
  lemma ShortcutAgrees(rows: set<Row>, tag: Label, resource: Resource)
    requires OneRowEach(rows)
    ensures resource in AllLabels(rows, [tag]) <==> resource in ByCounting(rows, [tag])
    ensures resource in AllLabels(rows, [tag]) <==> Carries(rows, resource, tag)
  {
    CountingIsInclusion(rows, [tag], resource);
    assert tag in [tag];
    if Carries(rows, resource, tag) {
      var r :| r in rows && r.resource == resource && r.tag == tag;
      assert r in LabelIn(rows, [tag]);
    }
  }

  /** `m2m_all` means "carries all labels" for every table with one row per label and resource if and
      only if the requested labels are distinct. */
  lemma AllLabelsMeansAllIff(labels: seq<Label>)
    requires labels != []
    ensures (forall rows: set<Row>, resource: Resource | OneRowEach(rows) ::
               resource in AllLabels(rows, labels) <==> CarriesAll(rows, resource, labels))
            <==> NoDuplicates(labels)
  {
    if NoDuplicates(labels) {
      forall rows: set<Row>, resource: Resource | OneRowEach(rows)
        ensures resource in AllLabels(rows, labels) <==> CarriesAll(rows, resource, labels)
      {
        CountingIsInclusion(rows, labels, resource);
        if |labels| == 1 {
          assert labels == [labels[0]];
          ShortcutAgrees(rows, labels[0], resource);
        }
      }
    } else {
      var rows := set l | l in labels :: Row(l, "t", "x", "o");
      forall l | l in labels ensures Carries(rows, "x", l) { assert Row(l, "t", "x", "o") in rows; }
      CarriedLabels(rows, labels, "x");
      SetSize(labels);
      assert OneRowEach(rows) && CarriesAll(rows, "x", labels);
      assert |RowsOf(LabelIn(rows, labels), "x")| == |ToSet(labels)| < |labels|;
      assert |labels| > 1;
      assert "x" !in AllLabels(rows, labels);
    }
  }

  // ---------- Replacing a label's resources ----------

  datatype Response = NotFound | BadRequest | Total(n: nat)

  /** The rows after a replacement: visible rows for other resources go, requested ones are there. */
  function Replaced(rows: set<Row>, org: Org, tag: Label, resType: string, ids: seq<Resource>): set<Row> {
    var gone := set r | r in Visible(rows, org) && r.resType == resType && r.tag == tag && r.resource !in ids;
    (rows - gone) + (set id | id in ids :: Row(tag, resType, id, org))
  }

  class LabeledResources {
    var rows: set<Row>

    constructor ()
      ensures rows == {}
    {
      rows := {};
    }

    /** `validate_res_ids`: the ids that do not have the form of the type's keys. */
    method ValidateResIds(ids: seq<Resource>, valid: Resource -> bool) returns (invalid: seq<Resource>)
      ensures forall id :: id in invalid <==> id in ids && !valid(id)
    {
      invalid := [];
      var k := 0;
      while k < |ids|
        invariant 0 <= k <= |ids|
        invariant forall id :: id in invalid <==> id in ids[..k] && !valid(id)
      {
        assert ids[..k + 1] == ids[..k] + [ids[k]];
        if !valid(ids[k]) { invalid := invalid + [ids[k]]; }
        k := k + 1;
      }
      assert ids[..k] == ids;
    }

    /** `put`.  `found` says whether label and type exist in this organization, `valid` whether an id
        has the form of the type's keys. */
    method Put(org: Org, tag: Label, resType: string, ids: seq<Resource>, found: bool, valid: Resource -> bool)
      returns (response: Response)
      modifies this
      ensures !found ==> response == NotFound && rows == old(rows)
      ensures found && (exists id :: id in ids && !valid(id)) ==> response == BadRequest && rows == old(rows)
      ensures found && (forall id | id in ids :: valid(id)) ==>
        response == Total(|ids|) && rows == Replaced(old(rows), org, tag, resType, ids)
    {
      hide Visible;
      if !found { return NotFound; }
      var invalid := ValidateResIds(ids, valid);
      if invalid != [] {
        assert invalid[0] in invalid;
        return BadRequest;
      }
      rows := rows - set r | r in Visible(rows, org) && r.resType == resType && r.tag == tag && r.resource !in ids;
      var k := 0;
      ghost var kept := rows;
      while k < |ids|
        invariant 0 <= k <= |ids|
        invariant rows == kept + set id | id in ids[..k] :: Row(tag, resType, id, org)
      {
        assert ids[..k + 1] == ids[..k] + [ids[k]];
        rows := rows + {Row(tag, resType, ids[k], org)};
        k := k + 1;
      }
      assert ids[..k] == ids;
      response := Total(|ids|);
    }
  }

  /** A replacement leaves exactly the requested resources bound, among the rows that are visible, and
      touches no other row. */
  lemma ReplacedExactly(rows: set<Row>, org: Org, tag: Label, resType: string, ids: seq<Resource>)
    ensures var rows' := Replaced(rows, org, tag, resType, ids);
            && (forall resource :: Carries(OfType(Visible(rows', org), resType), resource, tag) <==> resource in ids)
            && (forall r: Row | r.tag != tag || r.resType != resType || r !in Visible({r}, org) ::
                  r in rows' <==> r in rows)
  {
    var rows' := Replaced(rows, org, tag, resType, ids);
    var seen := OfType(Visible(rows', org), resType);
    forall resource ensures Carries(seen, resource, tag) <==> resource in ids {
      if resource in ids {
        assert Row(tag, resType, resource, org) in seen;
      }
    }
  }

  predicate CarriesAny(rows: set<Row>, resource: Resource, labels: seq<Label>) {
    exists l :: l in labels && Carries(rows, resource, l)
  }

  /** Selecting by any label needs no uniqueness; matching all implies matching any. */
  lemma AnyLabelFilter(table: set<Row>, org: Org, resType: string, labels: seq<Label>, resource: Resource)
    requires labels != []
    ensures var any := Filter(table, org, resType, labels, false);
            var all := Filter(table, org, resType, labels, true);
            && any.Some? && all.Some? && all.value <= any.value
            && (resource in any.value <==> CarriesAny(OfType(Visible(table, org), resType), resource, labels))
  {
    var rows := OfType(Visible(table, org), resType);
    if resource in Resources(LabelIn(rows, labels)) {
      var r :| r in LabelIn(rows, labels) && r.resource == resource;
      assert Carries(rows, resource, r.tag);
    }
    if CarriesAny(rows, resource, labels) {
      var l :| l in labels && Carries(rows, resource, l);
      var r :| r in rows && r.resource == resource && r.tag == l;
      assert r in LabelIn(rows, labels);
    }
  }

  // ---------- Row uniqueness, over runs ----------

  /** At most one row per label, type and resource in the whole table. */
  predicate Unique(rows: set<Row>) {
    forall r, s | r in rows && s in rows && r.tag == s.tag && r.resType == s.resType && r.resource == s.resource ::
      r == s
  }

  /** In an ordinary organization the all-labels filter is right whatever the table holds, because the key
      of the table makes its rows unique there; in the root organization it is right if they are unique. */
  lemma FilterIsRight(table: set<Row>, org: Org, resType: string, labels: seq<Label>)
    requires (org != Root || Unique(table)) && NoDuplicates(labels) && labels != []
    ensures var rows := OfType(Visible(table, org), resType);
            && OneRowEach(rows)
            && Filter(table, org, resType, labels, true).Some?
            && forall resource ::
                 resource in Filter(table, org, resType, labels, true).value <==> CarriesAll(rows, resource, labels)
  {
    assert OneRowEach(OfType(Visible(table, org), resType));
    AllLabelsMeansAllIff(labels);
  }

  /** The filter, row by row: there is none when no labels are given; otherwise it selects, for distinct labels,
      the resources that some row of the type binds to each label, or to one of them when any will do.  Only rows
      of the current organization count, and in the root organization the rows of all of them. */
  lemma FilterByRows(table: set<Row>, org: Org, resType: string, labels: seq<Label>, x: Resource, matchAll: bool)
    requires (org != Root || Unique(table)) && NoDuplicates(labels)
    ensures Filter(table, org, resType, labels, matchAll) == None <==> labels == []
    ensures var bound := set r | r in table && r.resource == x && r.resType == resType
                                 && (org == "00000000-0000-0000-0000-000000000000" || r.org == org) :: r.tag;
            labels != [] ==>
              (x in Filter(table, org, resType, labels, matchAll).value <==>
                 if matchAll then forall l | l in labels :: l in bound else exists l :: l in labels && l in bound)
  {
    if labels != [] {
      FilterIsRight(table, org, resType, labels);
      AnyLabelFilter(table, org, resType, labels, x);
      hide Filter, Unique, NoDuplicates;
      forall l ensures Carries(OfType(Visible(table, org), resType), x, l) <==>
                       exists r :: r in table && r.resource == x && r.resType == resType
                                   && (org == Root || r.org == org) && r.tag == l
      {
        CarriesByRow(table, org, resType, x, l);
      }
    }
  }

  lemma CarriesByRow(table: set<Row>, org: Org, resType: string, x: Resource, l: Label)
    ensures Carries(OfType(Visible(table, org), resType), x, l) <==>
            exists r :: r in table && r.resource == x && r.resType == resType && (org == Root || r.org == org)
                        && r.tag == l
  {
    if r :| r in table && r.resource == x && r.resType == resType && (org == Root || r.org == org) && r.tag == l {
      assert r in OfType(Visible(table, org), resType);
    }
  }

  /** One replacement; an ordinary organization only finds labels of its own. */
  datatype Call = Call(org: Org, tag: Label, resType: string, ids: seq<Resource>)

  predicate Effective(owner: map<Label, Org>, c: Call) {
    c.tag in owner && (c.org == Root || owner[c.tag] == c.org)
  }

  function Apply(rows: set<Row>, owner: map<Label, Org>, c: Call): set<Row> {
    if Effective(owner, c) then Replaced(rows, c.org, c.tag, c.resType, c.ids) else rows
  }

  /** The table after the first n calls. */
  function Run(rows: set<Row>, owner: map<Label, Org>, calls: seq<Call>, n: nat): set<Row>
    requires n <= |calls|
  {
    if n == 0 then rows else Apply(Run(rows, owner, calls, n - 1), owner, calls[n - 1])
  }

  /** No requested resource is bound to the label by a row of another organization. */
  predicate Free(rows: set<Row>, c: Call) {
    forall r | r in rows && r.tag == c.tag && r.resType == c.resType && r.resource in c.ids :: r.org == c.org
  }

  /** A replacement, made in any organization, keeps rows unique if and only if none of the requested
      resources is already bound by a row of another organization. */
  lemma CallKeepsRowsIff(rows: set<Row>, c: Call)
    requires Unique(rows)
    ensures Unique(Replaced(rows, c.org, c.tag, c.resType, c.ids)) <==> Free(rows, c)
  {
    var rows' := Replaced(rows, c.org, c.tag, c.resType, c.ids);
    if Unique(rows') {
      forall r | r in rows && r.tag == c.tag && r.resType == c.resType && r.resource in c.ids ensures r.org == c.org {
        assert r in rows' && Row(c.tag, c.resType, r.resource, c.org) in rows';
      }
    }
    if Free(rows, c) {
      forall r, s | r in rows' && s in rows' && r.tag == s.tag && r.resType == s.resType && r.resource == s.resource
        ensures r == s
      {
        assert r in rows || (r == Row(c.tag, c.resType, r.resource, c.org) && r.resource in c.ids);
        assert s in rows || (s == Row(c.tag, c.resType, s.resource, c.org) && s.resource in c.ids);
      }
    }
  }

  predicate UniqueAfter(rows: set<Row>, owner: map<Label, Org>, calls: seq<Call>, n: nat)
    requires n <= |calls|
  {
    Unique(Run(rows, owner, calls, n))
  }

  predicate FreeAt(rows: set<Row>, owner: map<Label, Org>, calls: seq<Call>, n: nat)
    requires n < |calls|
  {
    Effective(owner, calls[n]) ==> Free(Run(rows, owner, calls, n), calls[n])
  }

  /** Over any sequence of replacements, in whatever organizations, rows are unique after every call if and
      only if each call that finds its label meets that condition in the table before it. */
  lemma {:induction false} RunsKeepRowsIff(rows: set<Row>, owner: map<Label, Org>, calls: seq<Call>, n: nat)
    requires Unique(rows) && n <= |calls|
    ensures (forall m: nat | m <= n :: UniqueAfter(rows, owner, calls, m))
            <==> forall m: nat | m < n :: FreeAt(rows, owner, calls, m)
  {
    hide Unique, Free, Replaced;
    if n > 0 {
      RunsKeepRowsIff(rows, owner, calls, n - 1);
      if forall m: nat | m <= n - 1 :: UniqueAfter(rows, owner, calls, m) {
        assert UniqueAfter(rows, owner, calls, n - 1);
        CallKeepsRowsIff(Run(rows, owner, calls, n - 1), calls[n - 1]);
        assert UniqueAfter(rows, owner, calls, n) <==> FreeAt(rows, owner, calls, n - 1);
      }
    }
  }

  /** After such a sequence the filter selects exactly the resources that carry every requested label
      (distinct ones), in every organization, the root included. */
  lemma FreeRunsFilterRight(rows: set<Row>, owner: map<Label, Org>, calls: seq<Call>, org: Org, resType: string,
                            labels: seq<Label>)
    requires Unique(rows) && forall m: nat | m < |calls| :: FreeAt(rows, owner, calls, m)
    requires NoDuplicates(labels) && labels != []
    ensures var table := Run(rows, owner, calls, |calls|);
            && Filter(table, org, resType, labels, true).Some?
            && forall resource ::
                 resource in Filter(table, org, resType, labels, true).value
                 <==> CarriesAll(OfType(Visible(table, org), resType), resource, labels)
  {
    RunsKeepRowsIff(rows, owner, calls, |calls|);
    assert UniqueAfter(rows, owner, calls, |calls|);
    FilterIsRight(Run(rows, owner, calls, |calls|), org, resType, labels);
  }

  /** Every row belongs to its label's organization. */
  predicate InLabelsOrg(rows: set<Row>, owner: map<Label, Org>) {
    forall r | r in rows :: r.tag in owner && r.org == owner[r.tag]
  }

  lemma {:induction false} OrdinaryCallsKeepOrg(rows: set<Row>, owner: map<Label, Org>, calls: seq<Call>, n: nat)
    requires InLabelsOrg(rows, owner) && n <= |calls| && forall c | c in calls :: c.org != Root
    ensures InLabelsOrg(Run(rows, owner, calls, n), owner)
  {
    if n > 0 {
      assert calls[n - 1] in calls;
      OrdinaryCallsKeepOrg(rows, owner, calls, n - 1);
    }
  }

  /** Every sequence made in ordinary organizations only, from the empty table, is of that kind. */
  lemma OrdinaryCallsKeepRows(owner: map<Label, Org>, calls: seq<Call>, n: nat)
    requires n <= |calls| && forall c | c in calls :: c.org != Root
    ensures UniqueAfter({}, owner, calls, n)
    ensures n < |calls| ==> FreeAt({}, owner, calls, n)
  {
    OrdinaryCallsKeepOrg({}, owner, calls, n);
    if n < |calls| { assert calls[n] in calls; }
  }

  /** The failing inputs: the root organization and the label's own both bind one resource, in either order.
      The first call is free and the second is not; afterwards the root's filter selects the resource for
      a label that it does not carry. */
  lemma EitherOrderDuplicates(a: Label, b: Label, x: Resource, org: Org, rootFirst: bool)
    requires a != b && org != Root
    ensures var owner := map[a := org];
            var calls := if rootFirst then [Call(Root, a, "t", [x]), Call(org, a, "t", [x])]
                         else [Call(org, a, "t", [x]), Call(Root, a, "t", [x])];
            var table := Run({}, owner, calls, 2);
            && FreeAt({}, owner, calls, 0) && UniqueAfter({}, owner, calls, 1)
            && !FreeAt({}, owner, calls, 1) && !UniqueAfter({}, owner, calls, 2)
            && Filter(table, Root, "t", [a, b], true).Some?
            && x in Filter(table, Root, "t", [a, b], true).value && !Carries(table, x, b)
  {
    var owner := map[a := org];
    var one, two := if rootFirst then Root else org, if rootFirst then org else Root;
    var calls := [Call(one, a, "t", [x]), Call(two, a, "t", [x])];
    BoundTwice(a, x, one, two);
    var first, second := Row(a, "t", x, one), Row(a, "t", x, two);
    assert Run({}, owner, calls, 0) == {};
    assert Run({}, owner, calls, 1) == {first};
    assert Run({}, owner, calls, 2) == {first, second};
    hide Replaced, Run, Apply;
    assert x in [x] && first in {first} && first != second;
    TwoRowsSelect(a, b, x, one, two);
  }

  lemma BoundTwice(a: Label, x: Resource, one: Org, two: Org)
    requires one != two && (one == Root || two == Root)
    ensures Replaced({}, one, a, "t", [x]) == {Row(a, "t", x, one)}
    ensures Replaced({Row(a, "t", x, one)}, two, a, "t", [x]) == {Row(a, "t", x, one), Row(a, "t", x, two)}
  {
    assert x in [x];
  }

  lemma TwoRowsSelect(a: Label, b: Label, x: Resource, one: Org, two: Org)
    requires a != b && one != two
    ensures var table := {Row(a, "t", x, one), Row(a, "t", x, two)};
            && Filter(table, Root, "t", [a, b], true).Some?
            && x in Filter(table, Root, "t", [a, b], true).value && !Carries(table, x, b)
  {
    var first, second := Row(a, "t", x, one), Row(a, "t", x, two);
    var table := {first, second};
    var rows := OfType(table, "t");
    assert rows == table && LabelIn(rows, [a, b]) == table && RowsOf(table, x) == table && |table| == 2;
    assert first in table && x in Resources(table);
  }
}
