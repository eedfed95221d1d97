/** The permission tree of apps/rbac/tree.py: insertion in several passes with a fallback to the root,
    memoised leaf counts, and pruning of empty branches. */
module PermissionTree {
  import opened Wrappers

  datatype ZNode = ZNode(id: string, pId: string, isParent: bool, checked: bool)

  const RootId := "$ROOT$"

  /** Nodes in insertion order; up[k] is the position of node k's tree parent, -1 for the root. */
  datatype Tree = Tree(nodes: seq<ZNode>, up: seq<int>)

  predicate DistinctIds(s: seq<ZNode>) {
    forall i, j | 0 <= i < j < |s| :: s[i].id != s[j].id
  }

  /** Rooted and acyclic: every node but the first hangs from one inserted before it. */
  predicate Rooted(t: Tree) {
    && |t.up| == |t.nodes| > 0 && t.up[0] == -1
    && forall k | 0 < k < |t.up| :: 0 <= t.up[k] < k
  }

  /** Position of an id, or the number of nodes. */
  function IndexOf(s: seq<ZNode>, id: string): (i: nat)
    ensures i <= |s| && (i < |s| ==> s[i].id == id)
  {
    if s == [] || s[0].id == id then 0 else 1 + IndexOf(s[1..], id)
  }

  lemma {:induction false} IndexOfFirst(s: seq<ZNode>, id: string, k: nat)
    requires k < |s| && s[k].id == id
    ensures IndexOf(s, id) <= k
  {
    if s[0].id != id { IndexOfFirst(s[1..], id, k - 1); }
  }

  // ---------- Insertion ----------

  /** `create_node`: None stands for NodeIDAbsentError. */
  function Create(t: Tree, z: ZNode, pid: string): Option<Tree> {
    var i := IndexOf(t.nodes, pid);
    if i < |t.nodes| then Some(Tree(t.nodes + [z], t.up + [i])) else None
  }

  function ParentFor(z: ZNode, retry: nat): string { if retry == 2 then RootId else z.pId }

  /** One pass over the list: the tree, and the nodes whose parent was absent. */
  function Pass(t: Tree, zs: seq<ZNode>, retry: nat): (Tree, seq<ZNode>)
    decreases |zs|
  {
    if zs == [] then (t, [])
    else match Create(t, zs[0], ParentFor(zs[0], retry))
      case Some(t1) => Pass(t1, zs[1..], retry)
      case None => var (t1, failed) := Pass(t, zs[1..], retry); (t1, [zs[0]] + failed)
  }

  lemma PassUnfold(t: Tree, zs: seq<ZNode>, retry: nat)
    ensures if zs == [] then Pass(t, zs, retry) == (t, [])
            else var made := Create(t, zs[0], ParentFor(zs[0], retry));
              if made.Some? then Pass(t, zs, retry) == Pass(made.value, zs[1..], retry)
              else var rest := Pass(t, zs[1..], retry); Pass(t, zs, retry) == (rest.0, [zs[0]] + rest.1)
  {
  }

  /** `add_nodes_to_tree` */
  function AddAll(t: Tree, zs: seq<ZNode>, retry: nat): Tree
    decreases if retry > 2 then 0 else 3 - retry
  {
    var (t1, failed) := Pass(t, zs, retry);
    if retry > 2 || failed == [] then t1 else AddAll(t1, failed, retry + 1)
  }

  lemma AddAllUnfold(t: Tree, zs: seq<ZNode>, retry: nat)
    ensures var (t1, failed) := Pass(t, zs, retry);
            AddAll(t, zs, retry) == if retry > 2 || failed == [] then t1 else AddAll(t1, failed, retry + 1)
  {
  }

  // ---------- Counting ----------

  predicate Counted(z: ZNode, onlyChecked: bool) { !z.isParent && (onlyChecked ==> z.checked) }

  function Count(t: Tree, i: nat, onlyChecked: bool): nat
    requires Rooted(t) && i < |t.nodes|
    decreases |t.nodes| - i, |t.nodes| + 1
  {
    if t.nodes[i].isParent then CountChildren(t, i, |t.nodes|, onlyChecked)
    else if Counted(t.nodes[i], onlyChecked) then 1 else 0
  }

  /** The sum over the children of i among the first m nodes. */
  function CountChildren(t: Tree, i: nat, m: nat, onlyChecked: bool): nat
    requires Rooted(t) && i < |t.nodes| && m <= |t.nodes|
    decreases |t.nodes| - i, m
  {
    if m <= i + 1 then 0
    else CountChildren(t, i, m - 1, onlyChecked) + (if t.up[m - 1] == i then Count(t, m - 1, onlyChecked) else 0)
  }

  // ---------- The tree with its memo fields ----------

  datatype Shown = Shown(node: ZNode, counts: Option<(nat, nat)>, checked: bool)

  class CounterTree {
    var nodes: seq<ZNode>
    var up: seq<int>
    var totalCount: map<nat, nat>
    var checkedCount: map<nat, nat>

    function T(): Tree reads this { Tree(nodes, up) }

    constructor (root: ZNode)
      ensures T() == Tree([root], [-1]) && totalCount == map[] && checkedCount == map[]
    {
      nodes, up, totalCount, checkedCount := [root], [-1], map[], map[];
    }

    method CreateNode(z: ZNode, pid: string) returns (absent: bool)
      modifies this`nodes, this`up
      ensures absent <==> Create(old(T()), z, pid).None?
      ensures T() == if absent then old(T()) else Create(old(T()), z, pid).value
    {
      var i := IndexOf(nodes, pid);
      if i == |nodes| { return true; }
      nodes, up := nodes + [z], up + [i];
      absent := false;
    }

    method AddNodesToTree(zs: seq<ZNode>, retry: nat)
      modifies this`nodes, this`up
      ensures T() == AddAll(old(T()), zs, retry)
      decreases if retry > 2 then 0 else 3 - retry
    {
      hide Pass, Create, AddAll;
      var failed: seq<ZNode> := [];
      var k := 0;
      AddAllUnfold(T(), zs, retry);
      assert zs[0..] == zs;
      while k < |zs|
        invariant 0 <= k <= |zs|
        invariant Pass(old(T()), zs, retry).0 == Pass(T(), zs[k..], retry).0
        invariant Pass(old(T()), zs, retry).1 == failed + Pass(T(), zs[k..], retry).1
      {
        ghost var t0 := T();
        PassUnfold(t0, zs[k..], retry);
        var pid := zs[k].pId;
        if retry == 2 { pid := RootId; }
        var absent := CreateNode(zs[k], pid);
        if absent { failed := failed + [zs[k]]; }
        assert zs[k..][1..] == zs[k + 1..];
        k := k + 1;
      }
      PassUnfold(T(), zs[k..], retry);
      assert failed + [] == failed;
      if retry > 2 { return; }
      if failed != [] { AddNodesToTree(failed, retry + 1); }
    }

    /** Every memo entry is the count it stands for. */
    ghost predicate MemosRight()
      reads this
      requires Rooted(T())
    {
      && (forall k | k in totalCount :: k < |nodes| && totalCount[k] == Count(T(), k, false))
      && (forall k | k in checkedCount :: k < |nodes| && checkedCount[k] == Count(T(), k, true))
    }

    method GetTotalCount(i: nat) returns (count: nat)
      requires Rooted(T()) && MemosRight() && i < |nodes|
      modifies this`totalCount
      ensures MemosRight()
      ensures count == Count(T(), i, false)
      decreases |nodes| - i
    {
      if i in totalCount { return totalCount[i]; }
      if !nodes[i].isParent { return 1; }
      count := 0;
      var child := i + 1;
      while child < |nodes|
        invariant i + 1 <= child <= |nodes|
        invariant MemosRight()
        invariant count == CountChildren(T(), i, child, false)
      {
        if up[child] == i {
          if nodes[child].isParent {
            var below := GetTotalCount(child);
            count := count + below;
          } else {
            count := count + 1;
          }
        }
        child := child + 1;
      }
      totalCount := totalCount[i := count];
    }

    method GetCheckedCount(i: nat) returns (count: nat)
      requires Rooted(T()) && MemosRight() && i < |nodes|
      modifies this`checkedCount
      ensures MemosRight()
      ensures count == Count(T(), i, true)
      decreases |nodes| - i
    {
      if i in checkedCount { return checkedCount[i]; }
      if !nodes[i].isParent { return if nodes[i].checked then 1 else 0; }
      count := 0;
      var child := i + 1;
      while child < |nodes|
        invariant i + 1 <= child <= |nodes|
        invariant MemosRight()
        invariant count == CountChildren(T(), i, child, true)
      {
        if up[child] == i {
          if nodes[child].isParent {
            var below := GetCheckedCount(child);
            count := count + below;
          } else if nodes[child].checked {
            count := count + 1;
          }
        }
        child := child + 1;
      }
      checkedCount := checkedCount[i := count];
    }
  }

  // ---------- Insertion keeps the tree, and inserts everything once ----------

  predicate HasRoot(t: Tree) { Rooted(t) && t.nodes[0].id == RootId }

  lemma {:induction false} PassKeeps(t: Tree, zs: seq<ZNode>, retry: nat)
    requires HasRoot(t)
    ensures var (t1, failed) := Pass(t, zs, retry);
            && HasRoot(t1) && t.nodes <= t1.nodes && t.up <= t1.up
            && (retry == 2 ==> failed == [])
    decreases |zs|
  {
    if zs != [] {
      match Create(t, zs[0], ParentFor(zs[0], retry))
      case Some(t1) => PassKeeps(t1, zs[1..], retry);
      case None =>
        if retry == 2 { IndexOfFirst(t.nodes, RootId, 0); }
        PassKeeps(t, zs[1..], retry);
    }
  }

  lemma {:induction false} PassConserves(t: Tree, zs: seq<ZNode>, retry: nat)
    ensures var (t1, failed) := Pass(t, zs, retry);
            multiset(t1.nodes) + multiset(failed) == multiset(t.nodes) + multiset(zs)
    decreases |zs|
  {
    PassUnfold(t, zs, retry);
    if zs != [] {
      assert zs == [zs[0]] + zs[1..];
      var made := Create(t, zs[0], ParentFor(zs[0], retry));
      hide Pass;
      if made.Some? {
        PassConserves(made.value, zs[1..], retry);
      } else {
        PassConserves(t, zs[1..], retry);
        var (t1, rest) := Pass(t, zs[1..], retry);
        calc {
          multiset(t1.nodes) + multiset([zs[0]] + rest);
          multiset{zs[0]} + (multiset(t1.nodes) + multiset(rest));
          multiset{zs[0]} + (multiset(t.nodes) + multiset(zs[1..]));
          multiset(t.nodes) + multiset([zs[0]] + zs[1..]);
        }
      }
    }
  }

  /** Node k hangs where one pass puts it. */
  predicate HangsRight(t: Tree, k: nat, retry: nat)
    requires Rooted(t) && 0 < k < |t.nodes|
  {
    t.nodes[t.up[k]].id == ParentFor(t.nodes[k], retry)
  }

  lemma {:induction false} PassHangs(t: Tree, zs: seq<ZNode>, retry: nat)
    requires HasRoot(t)
    ensures var t1 := Pass(t, zs, retry).0;
            HasRoot(t1) && forall k | |t.nodes| <= k < |t1.nodes| :: HangsRight(t1, k, retry)
    decreases |zs|
  {
    PassKeeps(t, zs, retry);
    if zs != [] {
      match Create(t, zs[0], ParentFor(zs[0], retry))
      case Some(t1) =>
        PassKeeps(t1, zs[1..], retry);
        PassHangs(t1, zs[1..], retry);
        var t2 := Pass(t1, zs[1..], retry).0;
        assert t2.nodes[|t.nodes|] == zs[0] && t2.up[|t.nodes|] == t1.up[|t.nodes|] < |t.nodes|;
      case None => PassHangs(t, zs[1..], retry);
    }
  }

  /** The tree and the rejected nodes after two passes. */
  function AfterTwo(t: Tree, zs: seq<ZNode>): (Tree, seq<ZNode>) {
    var (t1, failed1) := Pass(t, zs, 0);
    Pass(t1, failed1, 1)
  }

  lemma TwoPasses(t: Tree, zs: seq<ZNode>)
    requires HasRoot(t)
    ensures var (t2, failed2) := AfterTwo(t, zs);
            && HasRoot(t2) && t.nodes <= t2.nodes
            && AddAll(t, zs, 0) == Pass(t2, failed2, 2).0
            && multiset(t2.nodes) + multiset(failed2) == multiset(t.nodes) + multiset(zs)
            && forall k | |t.nodes| <= k < |t2.nodes| :: t2.nodes[t2.up[k]].id == t2.nodes[k].pId
  {
    var (t1, failed1) := Pass(t, zs, 0);
    PassKeeps(t, zs, 0);
    PassHangs(t, zs, 0);
    var (t2, failed2) := Pass(t1, failed1, 1);
    PassKeeps(t1, failed1, 1);
    PassHangs(t1, failed1, 1);
    PassKeeps(t2, failed2, 2);
    PassConserves(t, zs, 0);
    PassConserves(t1, failed1, 1);
    assert t1 == Pass(t1, [], 1).0 && t2 == Pass(t2, [], 2).0;
    hide Pass;
    forall k | |t.nodes| <= k < |t2.nodes| ensures t2.nodes[t2.up[k]].id == t2.nodes[k].pId {
      if k < |t1.nodes| { assert HangsRight(t1, k, 0); } else { assert HangsRight(t2, k, 1); }
    }
  }

  /** Whatever the list, every node is inserted exactly once, in at most three passes, and the tree
      stays rooted and acyclic. */
  lemma EveryNodeInsertedOnce(t: Tree, zs: seq<ZNode>)
    requires HasRoot(t)
    ensures var t' := AddAll(t, zs, 0);
            && HasRoot(t') && t.nodes <= t'.nodes
            && multiset(t'.nodes) == multiset(t.nodes) + multiset(zs)
  {
    TwoPasses(t, zs);
    var (t2, failed2) := AfterTwo(t, zs);
    PassKeeps(t2, failed2, 2);
    PassConserves(t2, failed2, 2);
    hide Pass, AfterTwo, AddAll;
  }

  /** Nodes inserted by the first two passes hang from their declared parent; the ones rejected twice,
      and only those, hang from the root. */
  lemma DeclaredParentUnlessTwoPassesFailed(t: Tree, zs: seq<ZNode>)
    requires HasRoot(t)
    ensures var (t2, failed2) := AfterTwo(t, zs);
            var t' := AddAll(t, zs, 0);
            && HasRoot(t2) && HasRoot(t') && t2.nodes <= t'.nodes
            && (forall k | |t.nodes| <= k < |t2.nodes| :: t'.nodes[t'.up[k]].id == t'.nodes[k].pId)
            && (forall k | |t2.nodes| <= k < |t'.nodes| :: t'.nodes[t'.up[k]].id == RootId)
            && multiset(t'.nodes[|t2.nodes|..]) == multiset(failed2)
  {
    TwoPasses(t, zs);
    var (t2, failed2) := AfterTwo(t, zs);
    PassKeeps(t2, failed2, 2);
    PassConserves(t2, failed2, 2);
    PassHangs(t2, failed2, 2);
    hide Pass, AfterTwo, AddAll;
    var t' := AddAll(t, zs, 0);
    var added := t'.nodes[|t2.nodes|..];
    assert t'.nodes == t2.nodes + added;
    assert multiset(t'.nodes) == multiset(t2.nodes) + multiset(added);
    Cancel(multiset(t2.nodes), multiset(added), multiset(failed2));
    forall k | |t2.nodes| <= k < |t'.nodes| ensures t'.nodes[t'.up[k]].id == RootId {
      assert HangsRight(t', k, 2);
    }
  }

  lemma Cancel(a: multiset<ZNode>, b: multiset<ZNode>, c: multiset<ZNode>)
    requires a + b == a + c
    ensures b == c
  {
    forall x ensures b[x] == c[x] {
      assert (a + b)[x] == a[x] + b[x] && (a + c)[x] == a[x] + c[x];
    }
  }

  /** A list in which every declared parent is the root or comes earlier needs one pass only. */
  predicate ParentsFirst(s: seq<ZNode>, zs: seq<ZNode>) {
    forall k | 0 <= k < |zs| :: IndexOf(s, zs[k].pId) < |s| || exists j :: 0 <= j < k && zs[j].id == zs[k].pId
  }

  lemma {:induction false} ParentsFirstOnePass(t: Tree, zs: seq<ZNode>)
    requires ParentsFirst(t.nodes, zs)
    ensures Pass(t, zs, 0).1 == []
    decreases |zs|
  {
    if zs != [] {
      var made := Create(t, zs[0], zs[0].pId);
      assert made.Some?;
      var s', rest := t.nodes + [zs[0]], zs[1..];
      forall k | 0 <= k < |rest|
        ensures IndexOf(s', rest[k].pId) < |s'| || exists j :: 0 <= j < k && rest[j].id == rest[k].pId
      {
        var pid := rest[k].pId;
        assert rest[k] == zs[k + 1];
        if IndexOf(t.nodes, pid) < |t.nodes| {
          var i := IndexOf(t.nodes, pid);
          assert s'[i].id == pid;
          IndexOfFirst(s', pid, i);
        } else {
          var j :| 0 <= j < k + 1 && zs[j].id == pid;
          if j == 0 {
            assert s'[|t.nodes|].id == pid;
            IndexOfFirst(s', pid, |t.nodes|);
          } else {
            assert rest[j - 1].id == pid;
          }
        }
      }
      ParentsFirstOnePass(made.value, rest);
    }
  }

  // ---------- Counts are numbers of leaves ----------

  /** The child of i through which j hangs below i with only parent nodes in between, or -1. */
  function Via(t: Tree, j: nat, i: nat): int
    requires Rooted(t) && j < |t.nodes| && i < |t.nodes|
  {
    if j <= i then -1
    else if t.up[j] == i then j
    else if !t.nodes[t.up[j]].isParent then -1
    else Via(t, t.up[j], i)
  }

  /** The leaves that node i stands for: itself when it is a leaf, otherwise the leaves below it. */
  ghost function Leaves(t: Tree, i: nat, onlyChecked: bool): set<nat>
    requires Rooted(t) && i < |t.nodes|
  {
    if t.nodes[i].isParent then LeavesVia(t, i, |t.nodes|, onlyChecked)
    else if Counted(t.nodes[i], onlyChecked) then {i} else {}
  }

  ghost function LeavesVia(t: Tree, i: nat, m: nat, onlyChecked: bool): set<nat>
    requires Rooted(t) && i < |t.nodes|
  {
    set j: nat | j < |t.nodes| && Counted(t.nodes[j], onlyChecked) && i < Via(t, j, i) < m
  }

  lemma {:induction false} ViaInRange(t: Tree, j: nat, i: nat)
    requires Rooted(t) && j < |t.nodes| && i < |t.nodes|
    ensures Via(t, j, i) == -1 || (i < Via(t, j, i) <= j && t.up[Via(t, j, i)] == i)
  {
    if j > i && t.up[j] != i && t.nodes[t.up[j]].isParent { ViaInRange(t, t.up[j], i); }
  }

  /** What hangs through child c is c itself and, when c is a parent, all that is below c. */
  lemma {:induction false} ViaChild(t: Tree, j: nat, i: nat, c: nat)
    requires Rooted(t) && j < |t.nodes| && c < |t.nodes| && 0 < c && t.up[c] == i
    ensures Via(t, j, i) == c <==> j == c || (t.nodes[c].isParent && Via(t, j, c) != -1)
    decreases j
  {
    if j > i {
      var p := t.up[j];
      if p != i && t.nodes[p].isParent {
        ViaChild(t, p, i, c);
        ViaInRange(t, p, i);
      }
    }
  }

  /** One more child c: its leaves come on top, and are new. */
  lemma OneMoreChild(t: Tree, i: nat, c: nat, onlyChecked: bool)
    requires Rooted(t) && i < c < |t.nodes|
    ensures var before, all := LeavesVia(t, i, c, onlyChecked), LeavesVia(t, i, c + 1, onlyChecked);
            if t.up[c] == i then all == before + Leaves(t, c, onlyChecked) && before !! Leaves(t, c, onlyChecked)
            else all == before
  {
    forall j: nat | j < |t.nodes|
      ensures Via(t, j, i) == c ==> t.up[c] == i
      ensures t.up[c] == i && Counted(t.nodes[j], onlyChecked)
              ==> (Via(t, j, i) == c <==> j in Leaves(t, c, onlyChecked))
    {
      ViaInRange(t, j, i);
      ViaInRange(t, j, c);
      if t.up[c] == i { ViaChild(t, j, i, c); }
      hide Via;
    }
    hide Via;
  }

  lemma {:induction false} CountChildrenIs(t: Tree, i: nat, m: nat, onlyChecked: bool)
    requires Rooted(t) && i < |t.nodes| && m <= |t.nodes|
    ensures CountChildren(t, i, m, onlyChecked) == |LeavesVia(t, i, m, onlyChecked)|
    decreases |t.nodes| - i, m
  {
    hide LeavesVia, Leaves, Count;
    if m <= i + 1 {
      NoChildren(t, i, m, onlyChecked);
    } else {
      CountChildrenIs(t, i, m - 1, onlyChecked);
      OneMoreChild(t, i, m - 1, onlyChecked);
      if t.up[m - 1] == i { CountIsLeaves(t, m - 1, onlyChecked); }
    }
  }

  lemma NoChildren(t: Tree, i: nat, m: nat, onlyChecked: bool)
    requires Rooted(t) && i < |t.nodes| && m <= i + 1
    ensures LeavesVia(t, i, m, onlyChecked) == {}
  {
  }

  /** A count is the number of (checked) leaves it stands for. */
  lemma {:induction false} CountIsLeaves(t: Tree, i: nat, onlyChecked: bool)
    requires Rooted(t) && i < |t.nodes|
    ensures Count(t, i, onlyChecked) == |Leaves(t, i, onlyChecked)|
    decreases |t.nodes| - i, |t.nodes| + 1
  {
    if t.nodes[i].isParent { CountChildrenIs(t, i, |t.nodes|, onlyChecked); }
  }

  lemma SubsetCard(a: set<nat>, b: set<nat>)
    requires a <= b
    ensures |a| <= |b|
    ensures |a| == |b| ==> a == b
  {
    assert b == a + (b - a);
    assert |b| == |a| + |b - a|;
    if a != b {
      var x :| x in b - a;
    }
  }

  lemma CheckedAtMostTotal(t: Tree, i: nat)
    requires Rooted(t) && i < |t.nodes|
    ensures Count(t, i, true) <= Count(t, i, false)
  {
    CountIsLeaves(t, i, true);
    CountIsLeaves(t, i, false);
    SubsetCard(Leaves(t, i, true), Leaves(t, i, false));
  }

  /** Every proper ancestor of node j is a parent node. */
  predicate ParentsAbove(t: Tree, j: nat)
    requires Rooted(t) && j < |t.nodes|
  {
    j == 0 || (t.nodes[t.up[j]].isParent && ParentsAbove(t, t.up[j]))
  }

  lemma {:induction false} UnderRootIff(t: Tree, j: nat)
    requires Rooted(t) && 0 < j < |t.nodes| && t.nodes[0].isParent
    ensures Via(t, j, 0) != -1 <==> ParentsAbove(t, j)
  {
    if t.up[j] != 0 && t.nodes[t.up[j]].isParent { UnderRootIff(t, t.up[j]); }
  }

  ghost function AllLeaves(t: Tree): set<nat> {
    set j: nat | j < |t.nodes| && !t.nodes[j].isParent
  }

  /** The root's total is the number of all leaves if and only if no leaf hangs below another. */
  lemma RootTotalIff(t: Tree)
    requires Rooted(t) && t.nodes[0].isParent
    ensures Count(t, 0, false) == |AllLeaves(t)|
            <==> forall j: nat | j < |t.nodes| && !t.nodes[j].isParent :: ParentsAbove(t, j)
  {
    hide Count, Via, ParentsAbove;
    CountIsLeaves(t, 0, false);
    var below := Leaves(t, 0, false);
    forall j: nat | j < |t.nodes| && !t.nodes[j].isParent ensures j in below <==> ParentsAbove(t, j) {
      LeafOfRootIff(t, j);
    }
    assert below <= AllLeaves(t);
    SubsetCard(below, AllLeaves(t));
    if forall j: nat | j < |t.nodes| && !t.nodes[j].isParent :: ParentsAbove(t, j) {
      assert below == AllLeaves(t);
    }
    if below == AllLeaves(t) {
      forall j: nat | j < |t.nodes| && !t.nodes[j].isParent ensures ParentsAbove(t, j) {
        assert j in AllLeaves(t);
      }
    }
  }

  lemma LeafOfRootIff(t: Tree, j: nat)
    requires Rooted(t) && t.nodes[0].isParent && j < |t.nodes| && !t.nodes[j].isParent
    ensures j in Leaves(t, 0, false) <==> ParentsAbove(t, j)
  {
    hide Count;
    UnderRootIff(t, j);
    ViaInRange(t, j, 0);
  }

  // ---------- Counting a whole list, and pruning ----------

  function Reverse(s: seq<ZNode>): (r: seq<ZNode>)
    ensures multiset(r) == multiset(s) && |r| == |s|
    ensures forall k | 0 <= k < |r| :: r[k] == s[|s| - 1 - k]
  {
    if s == [] then [] else
      assert s == [s[0]] + s[1..];
      Reverse(s[1..]) + [s[0]]
  }

  /** The tree that `compute_nodes_count` builds; the list ends with the root. */
  function TreeOf(zs: seq<ZNode>): Tree
    requires zs != []
  {
    var reversed := Reverse(zs);
    AddAll(Tree([reversed[0]], [-1]), reversed[1..], 0)
  }

  predicate FullList(zs: seq<ZNode>) {
    zs != [] && DistinctIds(zs) && zs[|zs| - 1].id == RootId
  }

  lemma TreeOfFull(zs: seq<ZNode>)
    requires FullList(zs)
    ensures HasRoot(TreeOf(zs)) && multiset(TreeOf(zs).nodes) == multiset(zs)
    ensures TreeOf(zs).nodes[0] == zs[|zs| - 1]
  {
    var reversed := Reverse(zs);
    assert reversed == [reversed[0]] + reversed[1..];
    EveryNodeInsertedOnce(Tree([reversed[0]], [-1]), reversed[1..]);
    hide AddAll;
  }

  lemma InTree(zs: seq<ZNode>, z: ZNode)
    requires FullList(zs) && z in zs
    ensures var k := IndexOf(TreeOf(zs).nodes, z.id);
            k < |TreeOf(zs).nodes| && TreeOf(zs).nodes[k] == z
  {
    TreeOfFull(zs);
    var nodes := TreeOf(zs).nodes;
    assert z in multiset(nodes);
    var k :| 0 <= k < |nodes| && nodes[k] == z;
    IndexOfFirst(nodes, z.id, k);
    var i := IndexOf(nodes, z.id);
    assert nodes[i] in multiset(nodes);
    var a :| 0 <= a < |zs| && zs[a] == nodes[i];
    var b :| 0 <= b < |zs| && zs[b] == z;
  }

  function CountOf(t: Tree, id: string, onlyChecked: bool): nat
    requires Rooted(t)
  {
    var i := IndexOf(t.nodes, id);
    if i < |t.nodes| then Count(t, i, onlyChecked) else 0
  }

  /** A node as it is shown: parents with their counts, ticked when a leaf below is. */
  function Show(t: Tree, z: ZNode): Shown
    requires Rooted(t)
  {
    var checked, total := CountOf(t, z.id, true), CountOf(t, z.id, false);
    Shown(z, if z.isParent then Some((checked, total)) else None, z.checked || checked != 0)
  }

  /** What is shown of the first n nodes, in their order. */
  function Pruned(t: Tree, zs: seq<ZNode>, n: nat): seq<Shown>
    requires Rooted(t) && n <= |zs|
  {
    if n == 0 then []
    else Pruned(t, zs, n - 1) + (if CountOf(t, zs[n - 1].id, false) == 0 then [] else [Show(t, zs[n - 1])])
  }

  lemma {:induction false} OnceOnly(zs: seq<ZNode>, z: ZNode)
    requires DistinctIds(zs)
    ensures multiset(zs)[z] <= 1
  {
    if zs != [] {
      assert zs == [zs[0]] + zs[1..];
      OnceOnly(zs[1..], z);
      forall k | 0 <= k < |zs| - 1 ensures zs[1..][k] != zs[0] { assert zs[1..][k] == zs[k + 1]; }
    }
  }

  /** Ids stay distinct under permutation. */
  lemma DistinctPermuted(a: seq<ZNode>, b: seq<ZNode>)
    requires DistinctIds(a) && multiset(a) == multiset(b)
    ensures DistinctIds(b)
  {
    forall i, j | 0 <= i < j < |b| ensures b[i].id != b[j].id {
      assert b[i] in multiset(b) && b[j] in multiset(b);
      var k :| 0 <= k < |a| && a[k] == b[i];
      var m :| 0 <= m < |a| && a[m] == b[j];
      OnceOnly(a, b[i]);
      assert b == b[..j] + b[j..];
      assert b[i] in b[..j] && b[j] in b[j..];
    }
  }

  /** The counts of the first k nodes, by id. */
  predicate CountsUpTo(t: Tree, counts: map<string, (nat, nat)>, k: nat)
    requires Rooted(t) && k <= |t.nodes|
  {
    forall m | 0 <= m < k ::
      t.nodes[m].id in counts && counts[t.nodes[m].id] == (Count(t, m, true), Count(t, m, false))
  }

  lemma OneMoreCounted(t: Tree, counts: map<string, (nat, nat)>, k: nat)
    requires Rooted(t) && DistinctIds(t.nodes) && k < |t.nodes| && CountsUpTo(t, counts, k)
    ensures CountsUpTo(t, counts[t.nodes[k].id := (Count(t, k, true), Count(t, k, false))], k + 1)
  {
  }

  lemma LookUp(t: Tree, zs: seq<ZNode>, counts: map<string, (nat, nat)>, z: ZNode)
    requires FullList(zs) && z in zs && t == TreeOf(zs) && Rooted(t) && CountsUpTo(t, counts, |t.nodes|)
    ensures z.id in counts && counts[z.id] == (CountOf(t, z.id, true), CountOf(t, z.id, false))
  {
    InTree(zs, z);
  }

  lemma TreeIsSound(zs: seq<ZNode>)
    requires FullList(zs)
    ensures HasRoot(TreeOf(zs)) && DistinctIds(TreeOf(zs).nodes)
  {
    TreeOfFull(zs);
    DistinctPermuted(zs, TreeOf(zs).nodes);
  }

  /** `compute_nodes_count` builds the tree from the reversed list. */
  method BuildTree(zs: seq<ZNode>) returns (tree: CounterTree)
    requires FullList(zs)
    ensures fresh(tree) && tree.T() == TreeOf(zs) && HasRoot(tree.T()) && tree.MemosRight()
  {
    TreeOfFull(zs);
    var reversed := Reverse(zs);
    tree := new CounterTree(reversed[0]);
    tree.AddNodesToTree(reversed[1..], 0);
  }

  /** Then it counts every node. */
  method CountNodes(zs: seq<ZNode>) returns (counts: map<string, (nat, nat)>)
    requires FullList(zs)
    ensures HasRoot(TreeOf(zs)) && CountsUpTo(TreeOf(zs), counts, |TreeOf(zs).nodes|)
  {
    ghost var t := TreeOf(zs);
    TreeIsSound(zs);
    NoCounts(t);
    var tree := BuildTree(zs);
    hide TreeOf, Count, DistinctIds, CountsUpTo;
    counts := map[];
    var k := 0;
    while k < |tree.nodes|
      invariant 0 <= k <= |tree.nodes| && tree.T() == t && tree.MemosRight()
      invariant CountsUpTo(t, counts, k)
    {
      var total := tree.GetTotalCount(k);
      var checked := tree.GetCheckedCount(k);
      OneMoreCounted(t, counts, k);
      counts := counts[tree.nodes[k].id := (checked, total)];
      k := k + 1;
    }
  }

  /** `compute_nodes_count` */
  method ComputeNodesCount(zs: seq<ZNode>) returns (shown: seq<Shown>)
    requires FullList(zs)
    ensures HasRoot(TreeOf(zs))
    ensures shown == Pruned(TreeOf(zs), zs, |zs|)
  {
    var counts := CountNodes(zs);
    ghost var t := TreeOf(zs);
    hide TreeOf, CountsUpTo, CountOf;
    shown := [];
    var i := 0;
    while i < |zs|
      invariant 0 <= i <= |zs|
      invariant shown == Pruned(t, zs, i)
    {
      var z := zs[i];
      LookUp(t, zs, counts, z);
      var (checked, total) := counts[z.id];
      if total != 0 {
        shown := shown + [Shown(z, if z.isParent then Some((checked, total)) else None, z.checked || checked != 0)];
      }
      i := i + 1;
    }
  }

  lemma NoCounts(t: Tree)
    requires Rooted(t)
    ensures CountsUpTo(t, map[], 0)
  {
  }

  // ---------- What is pruned ----------

  /** A node is kept exactly when some leaf stands at or below it. */
  lemma KeptIff(t: Tree, k: nat)
    requires Rooted(t) && k < |t.nodes|
    ensures Count(t, k, false) != 0 <==>
            !t.nodes[k].isParent || exists j: nat :: j < |t.nodes| && !t.nodes[j].isParent && Via(t, j, k) != -1
  {
    CountIsLeaves(t, k, false);
    if t.nodes[k].isParent {
      var below := Leaves(t, k, false);
      forall j: nat | j < |t.nodes| ensures j in below <==> !t.nodes[j].isParent && Via(t, j, k) != -1 {
        ViaInRange(t, j, k);
      }
      if |below| != 0 { var j :| j in below; }
    }
  }

  /** The tree parent of a kept node is kept. */
  lemma KeptClosedUnderParents(t: Tree, k: nat)
    requires Rooted(t) && 0 < k < |t.nodes| && Count(t, k, false) != 0
    ensures Count(t, t.up[k], false) != 0
  {
    var p := t.up[k];
    if t.nodes[p].isParent {
      CountIsLeaves(t, k, false);
      CountIsLeaves(t, p, false);
      var j :| j in Leaves(t, k, false);
      ViaInRange(t, j, k);
      ViaChild(t, j, p, k);
      assert j in Leaves(t, p, false);
    }
  }

  // ---------- The list that is returned ----------

  function NodesOf(shown: seq<Shown>): seq<ZNode> {
    seq(|shown|, i requires 0 <= i < |shown| => shown[i].node)
  }

  /** A leaf, or a node of the tree with a leaf below it. */
  ghost predicate StandsForLeaf(t: Tree, z: ZNode)
    requires Rooted(t)
  {
    var k := IndexOf(t.nodes, z.id);
    k < |t.nodes| && (!z.isParent || exists j: nat :: j < |t.nodes| && !t.nodes[j].isParent && Via(t, j, k) != -1)
  }

  /** Those of the first n nodes that stand for a leaf, in their order. */
  ghost function WithLeaves(t: Tree, zs: seq<ZNode>, n: nat): seq<ZNode>
    requires Rooted(t) && n <= |zs|
  {
    if n == 0 then [] else WithLeaves(t, zs, n - 1) + (if StandsForLeaf(t, zs[n - 1]) then [zs[n - 1]] else [])
  }

  lemma CountOfIff(zs: seq<ZNode>, z: ZNode)
    requires FullList(zs) && z in zs
    ensures HasRoot(TreeOf(zs))
    ensures CountOf(TreeOf(zs), z.id, false) != 0 <==> StandsForLeaf(TreeOf(zs), z)
  {
    TreeIsSound(zs);
    InTree(zs, z);
    hide TreeOf, Count, Via;
    KeptIff(TreeOf(zs), IndexOf(TreeOf(zs).nodes, z.id));
  }

  /** The list returned is the given one without the nodes that stand for no leaf, in its order. */
  lemma {:induction false} PrunedIsFilter(zs: seq<ZNode>, n: nat)
    requires FullList(zs) && n <= |zs|
    ensures HasRoot(TreeOf(zs))
    ensures NodesOf(Pruned(TreeOf(zs), zs, n)) == WithLeaves(TreeOf(zs), zs, n)
  {
    hide TreeOf, CountOf, StandsForLeaf;
    TreeIsSound(zs);
    if n > 0 {
      PrunedIsFilter(zs, n - 1);
      CountOfIff(zs, zs[n - 1]);
    }
  }

  /** The entry shown for a node of the tree: a parent shows how many of the leaves below it are checked, of how
      many; and it is ticked when it was checked itself or one of these leaves is.  A leaf shows no counts. */
  ghost predicate ShownRight(t: Tree, e: Shown)
    requires Rooted(t)
  {
    var k := IndexOf(t.nodes, e.node.id);
    && k < |t.nodes| && t.nodes[k] == e.node
    && (var below := set j: nat | j < |t.nodes| && !t.nodes[j].isParent && Via(t, j, k) != -1;
        var ticked := set j | j in below && t.nodes[j].checked;
        if e.node.isParent then
          e.counts == Some((|ticked|, |below|)) && (e.checked <==> e.node.checked || ticked != {})
        else e.counts == None && e.checked == e.node.checked)
  }

  lemma LeavesSpelled(t: Tree, k: nat, onlyChecked: bool)
    requires Rooted(t) && k < |t.nodes| && t.nodes[k].isParent
    ensures Leaves(t, k, onlyChecked)
            == set j: nat | j < |t.nodes| && !t.nodes[j].isParent && Via(t, j, k) != -1
                            && (onlyChecked ==> t.nodes[j].checked)
  {
    forall j: nat | j < |t.nodes| ensures Via(t, j, k) == -1 || k < Via(t, j, k) < |t.nodes| { ViaInRange(t, j, k); }
    hide Via;
  }

  lemma ShowIsRight(zs: seq<ZNode>, z: ZNode)
    requires FullList(zs) && z in zs
    ensures HasRoot(TreeOf(zs))
    ensures ShownRight(TreeOf(zs), Show(TreeOf(zs), z))
  {
    TreeIsSound(zs);
    InTree(zs, z);
    var t := TreeOf(zs);
    var k := IndexOf(t.nodes, z.id);
    CountIsLeaves(t, k, true);
    CountIsLeaves(t, k, false);
    hide TreeOf, FullList, Via, Count;
    if z.isParent {
      LeavesSpelled(t, k, true);
      LeavesSpelled(t, k, false);
      hide Leaves;
      var below := set j: nat | j < |t.nodes| && !t.nodes[j].isParent && Via(t, j, k) != -1;
      assert (set j | j in below && t.nodes[j].checked) == Leaves(t, k, true);
      assert below == Leaves(t, k, false);
    }
  }

  /** Every entry of the list returned shows the numbers of leaves below its node. */
  lemma {:induction false} PrunedShowsLeaves(zs: seq<ZNode>, n: nat, m: nat)
    requires FullList(zs) && n <= |zs|
    ensures HasRoot(TreeOf(zs))
    ensures m < |Pruned(TreeOf(zs), zs, n)| ==> ShownRight(TreeOf(zs), Pruned(TreeOf(zs), zs, n)[m])
  {
    hide TreeOf, CountOf, ShownRight, Show;
    TreeIsSound(zs);
    if n > 0 {
      PrunedShowsLeaves(zs, n - 1, m);
      ShowIsRight(zs, zs[n - 1]);
    }
  }

  lemma {:induction false} InWithLeaves(t: Tree, zs: seq<ZNode>, n: nat, z: ZNode)
    requires Rooted(t) && n <= |zs|
    ensures z in WithLeaves(t, zs, n) <==> z in zs[..n] && StandsForLeaf(t, z)
  {
    hide StandsForLeaf, Rooted;
    if n > 0 {
      InWithLeaves(t, zs, n - 1, z);
      assert zs[..n] == zs[..n - 1] + [zs[n - 1]];
    }
  }

  /** And it is closed: with a node it shows the node that this hangs from in the tree. */
  lemma PrunedClosed(zs: seq<ZNode>, z: ZNode)
    requires FullList(zs)
    ensures HasRoot(TreeOf(zs))
    ensures var t := TreeOf(zs);
            var k := IndexOf(t.nodes, z.id);
            z in NodesOf(Pruned(t, zs, |zs|)) && 0 < k ==>
              k < |t.nodes| && t.nodes[t.up[k]] in NodesOf(Pruned(t, zs, |zs|))
  {
    TreeIsSound(zs);
    PrunedIsFilter(zs, |zs|);
    var t := TreeOf(zs);
    var k := IndexOf(t.nodes, z.id);
    InWithLeaves(t, zs, |zs|, z);
    assert zs[..|zs|] == zs;
    if z in NodesOf(Pruned(t, zs, |zs|)) && 0 < k { ParentShown(zs, z); }
  }

  lemma ParentShown(zs: seq<ZNode>, z: ZNode)
    requires FullList(zs) && z in zs && HasRoot(TreeOf(zs)) && StandsForLeaf(TreeOf(zs), z)
    requires IndexOf(TreeOf(zs).nodes, z.id) > 0
    ensures var t := TreeOf(zs);
            var k := IndexOf(t.nodes, z.id);
            k < |t.nodes| && t.nodes[t.up[k]] in NodesOf(Pruned(t, zs, |zs|))
  {
    var t := TreeOf(zs);
    var k := IndexOf(t.nodes, z.id);
    CountOfIff(zs, z);
    TreeOfFull(zs);
    KeptClosedUnderParents(t, k);
    var p := t.up[k];
    var y := t.nodes[p];
    assert y in multiset(t.nodes) && y in multiset(zs);
    TreeIsSound(zs);
    hide TreeOf, Count, Via;
    IndexIs(t.nodes, p);
    CountOfIff(zs, y);
    PrunedIsFilter(zs, |zs|);
    InWithLeaves(t, zs, |zs|, y);
    assert zs[..|zs|] == zs;
  }

  lemma IndexIs(s: seq<ZNode>, p: nat)
    requires DistinctIds(s) && p < |s|
    ensures IndexOf(s, s[p].id) == p
  {
    IndexOfFirst(s, s[p].id, p);
  }
}
