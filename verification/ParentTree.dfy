/** The parent-pointer tree of apps/common/tree.py: `add_node` may move nodes that already have
    descendants, and `get_parents` recurses upwards. */
module ParentTree {
  import opened Wrappers

  const RootId := "#"

  /** Each node's pId, by id. */
  type Parents = map<string, string>

  // ---------- Chains of parents ----------

  /** `get_node(pid)` is the root: it has the root's id, or is not in the tree. */
  predicate Stops(up: Parents, pid: string) { pid == RootId || pid !in up }

  /** `get_parents` of a node with this pId returns the nodes with these ids. */
  predicate IsChain(up: Parents, pid: string, ids: seq<string>)
    decreases |ids|
  {
    if Stops(up, pid) then ids == []
    else ids != [] && ids[0] == pid && IsChain(up, up[pid], ids[1..])
  }

  /** `get_parents` comes to an end. */
  ghost predicate Ends(up: Parents, pid: string) { exists ids :: IsChain(up, pid, ids) }

  ghost function ChainOf(up: Parents, pid: string): (ids: seq<string>)
    requires Ends(up, pid)
    ensures IsChain(up, pid, ids)
  {
    var ids :| IsChain(up, pid, ids); ids
  }

  ghost predicate Acyclic(up: Parents) { forall k | k in up :: Ends(up, up[k]) }

  /** Every pId is the root or a node of the tree. */
  predicate Closed(up: Parents) { forall k | k in up :: up[k] == RootId || up[k] in up }

  lemma {:induction false} ChainUnique(up: Parents, pid: string, a: seq<string>, b: seq<string>)
    requires IsChain(up, pid, a) && IsChain(up, pid, b)
    ensures a == b
    decreases |a|
  {
    if a != [] { ChainUnique(up, up[pid], a[1..], b[1..]); }
  }

  lemma EndsStep(up: Parents, pid: string)
    requires Ends(up, pid) && !Stops(up, pid)
    ensures Ends(up, up[pid]) && ChainOf(up, pid) == [pid] + ChainOf(up, up[pid])
  {
    var ids := ChainOf(up, pid);
    assert IsChain(up, up[pid], ids[1..]);
    ChainUnique(up, up[pid], ids[1..], ChainOf(up, up[pid]));
  }

  // ---------- Adding and moving nodes ----------

  datatype Error = ParentNotInTree | ParentBelowNode

  /** `add_node` on ids, where chain is what the parent's `get_parents` returned. */
  function Add(up: Parents, node: string, parent: string, chain: seq<string>): (Parents, Option<Error>) {
    if parent !in up && parent != RootId then (up, Some(ParentNotInTree))
    else if node in chain then (up, Some(ParentBelowNode))
    else (up[node := parent], None)
  }

  /** Chains after a node has been given a parent whose own chain ends. */
  lemma {:induction false} Redirected(up: Parents, node: string, parent: string, pid: string, ids: seq<string>)
    requires IsChain(up, pid, ids) && Ends(up[node := parent], parent)
    ensures Ends(up[node := parent], pid)
    decreases |ids|
  {
    var up' := up[node := parent];
    if pid == RootId {
      assert IsChain(up', pid, []);
    } else if pid == node {
      assert IsChain(up', pid, [pid] + ChainOf(up', parent));
    } else if pid !in up {
      assert IsChain(up', pid, []);
    } else {
      Redirected(up, node, parent, up[pid], ids[1..]);
      assert IsChain(up', pid, [pid] + ChainOf(up', up[pid]));
    }
  }

  /** A chain that does not meet the moved node is not changed by the move. */
  lemma {:induction false} Untouched(up: Parents, node: string, parent: string, pid: string, ids: seq<string>)
    requires Closed(up) && IsChain(up, pid, ids) && node !in ids && pid != node && (pid == RootId || pid in up)
    ensures IsChain(up[node := parent], pid, ids)
    decreases |ids|
  {
    if ids != [] {
      assert ids[0] in ids;
      if up[pid] != RootId {
        assert ids[1..] != [] && ids[1..][0] == up[pid] && ids[1] in ids;
      }
      if up[pid] == RootId { assert ids[1..] == []; } else { assert up[pid] != node; }
      if node != up[pid] {
        Untouched(up, node, parent, up[pid], ids[1..]);
      } else {
        assert IsChain(up[node := parent], RootId, []);
      }
    }
  }

  /** A node that is its own parent is on an endless chain. */
  lemma {:induction false} SelfLoop(up: Parents, node: string, ids: seq<string>)
    requires node != RootId && node in up && up[node] == node
    ensures !IsChain(up, node, ids)
    decreases |ids|
  {
    if ids != [] { SelfLoop(up, node, ids[1..]); }
  }

  /** Following parents from a node that has the moved node above it comes back to the new parent. */
  lemma {:induction false} ComesBack(up: Parents, node: string, parent: string, pid: string, above: seq<string>,
                                     ids: seq<string>) returns (rest: seq<string>)
    requires IsChain(up, pid, above) && node in above && IsChain(up[node := parent], pid, ids)
    ensures IsChain(up[node := parent], parent, rest) && |rest| < |ids|
    decreases |above|
  {
    if pid == node {
      rest := ids[1..];
    } else {
      assert node in above[1..];
      rest := ComesBack(up, node, parent, up[pid], above[1..], ids[1..]);
    }
  }

  /** A node put below one that it is above is on an endless chain. */
  lemma {:induction false} Endless(up: Parents, node: string, parent: string, above: seq<string>, ids: seq<string>)
    requires IsChain(up, parent, above) && node in above
    ensures !IsChain(up[node := parent], parent, ids)
    decreases |ids|
  {
    if IsChain(up[node := parent], parent, ids) {
      var rest := ComesBack(up, node, parent, parent, above, ids);
      Endless(up, node, parent, above, rest);
    }
  }

  /** The node is the new parent itself or one of its ancestors. */
  ghost predicate Encloses(up: Parents, node: string, parent: string)
    requires Acyclic(up)
  {
    node != RootId && parent != RootId
    && (node == parent || (parent in up && Ends(up, up[parent]) && node in ChainOf(up, up[parent])))
  }

  /** Giving a node to a parent keeps every chain of parents finite if and only if the node is neither that
      parent nor above it. */
  lemma MoveKeepsAcyclicIff(up: Parents, node: string, parent: string)
    requires Closed(up) && Acyclic(up) && (parent == RootId || parent in up)
    ensures Closed(up[node := parent])
    ensures Acyclic(up[node := parent]) <==> !Encloses(up, node, parent)
  {
    var up' := up[node := parent];
    if node == parent != RootId {
      assert !Ends(up', up'[node]) by {
        forall ids ensures !IsChain(up', node, ids) { SelfLoop(up', node, ids); }
      }
    } else if Encloses(up, node, parent) {
      var above := [parent] + ChainOf(up, up[parent]);
      assert IsChain(up, parent, above) && node in above;
      assert !Ends(up', up'[node]) by {
        forall ids ensures !IsChain(up', parent, ids) { Endless(up, node, parent, above, ids); }
      }
    } else {
      MoveKeeps(up, node, parent);
    }
  }

  lemma MoveKeeps(up: Parents, node: string, parent: string)
    requires Closed(up) && Acyclic(up) && (parent == RootId || parent in up)
    requires !Encloses(up, node, parent)
    ensures Acyclic(up[node := parent])
  {
    var up' := up[node := parent];
    if parent == RootId || node == RootId {
      if parent == RootId { assert IsChain(up', parent, []); } else { RootMoved(up, parent, ParentChain(up, parent)); }
    } else {
      var above := ParentChain(up, parent);
      Untouched(up, node, parent, parent, above);
    }
    forall k | k in up' ensures Ends(up', up'[k]) {
      if k != node { Redirected(up, node, parent, up[k], ChainOf(up, up[k])); }
    }
  }

  ghost function ParentChain(up: Parents, parent: string): (ids: seq<string>)
    requires Acyclic(up) && parent in up && parent != RootId
    ensures IsChain(up, parent, ids)
    ensures ids == [parent] + ChainOf(up, up[parent])
  {
    [parent] + ChainOf(up, up[parent])
  }

  /** Where the root's own entry points makes no difference to any chain. */
  lemma {:induction false} RootMoved(up: Parents, p: string, ids: seq<string>)
    requires ids != [] && IsChain(up, ids[0], ids)
    ensures IsChain(up[RootId := p], ids[0], ids)
    decreases |ids|
  {
    if ids[1..] != [] { RootMoved(up, p, ids[1..]); }
  }

  /** So, the parent being the object that is stored under its id, an accepted `add_node` keeps every chain
      of parents finite if and only if the node is not given to itself. */
  lemma AddKeepsAcyclicIff(up: Parents, node: string, parent: string, chain: seq<string>)
    requires Closed(up) && Acyclic(up)
    requires parent in up && parent != RootId ==> IsChain(up, up[parent], chain)
    requires Add(up, node, parent, chain).1 == None
    ensures Closed(Add(up, node, parent, chain).0)
    ensures Acyclic(Add(up, node, parent, chain).0) <==> node != parent || node == RootId
  {
    MoveKeepsAcyclicIff(up, node, parent);
    if parent != RootId { ChainUnique(up, up[parent], chain, ChainOf(up, up[parent])); }
  }

  /** And giving a node of the tree to itself is accepted. */
  lemma SelfParentAccepted(up: Parents, node: string, chain: seq<string>)
    requires Acyclic(up) && node in up && node != RootId && IsChain(up, up[node], chain)
    ensures Add(up, node, node, chain).1 == None
  {
    NotOwnAncestor(up, node, up[node], chain, chain);
  }

  lemma {:induction false} NotOwnAncestor(up: Parents, node: string, pid: string, rest: seq<string>, chain: seq<string>)
    requires node in up && node != RootId && IsChain(up, up[node], chain)
    requires IsChain(up, pid, rest) && |rest| <= |chain|
    ensures node !in rest
    decreases |rest|
  {
    if rest != [] {
      if rest[0] == node {
        ChainUnique(up, up[node], rest[1..], chain);
        assert false;
      }
      NotOwnAncestor(up, node, up[pid], rest[1..], chain);
      assert rest == [rest[0]] + rest[1..];
    }
  }

  // ---------- What the chain consists of ----------

  /** Following pId n times from a node. */
  function Iterate(up: Parents, id: string, n: nat): string {
    if n == 0 then id
    else
      var below := Iterate(up, id, n - 1);
      if below in up then up[below] else RootId
  }

  /** `get_parents` returns exactly the proper ancestors below the root, nearest first, each once. */
  lemma {:induction false} ChainIsAncestors(up: Parents, id: string, ids: seq<string>)
    requires Acyclic(up) && id in up && id != RootId && IsChain(up, up[id], ids)
    ensures forall i | 0 <= i < |ids| :: ids[i] == Iterate(up, id, i + 1) && !Stops(up, ids[i])
    ensures Stops(up, Iterate(up, id, |ids| + 1))
    ensures forall i, j | 0 <= i < j < |ids| :: ids[i] != ids[j]
    decreases |ids|
  {
    if ids != [] {
      var p := up[id];
      assert p == Iterate(up, id, 1);
      ChainIsAncestors(up, p, ids[1..]);
      forall i | 0 < i < |ids| ensures ids[i] == Iterate(up, id, i + 1) && !Stops(up, ids[i]) {
        assert ids[i] == ids[1..][i - 1];
        IterateShift(up, id, i);
      }
      IterateShift(up, id, |ids|);
      NotOwnAncestor(up, p, up[p], ids[1..], ids[1..]);
      forall i, j | 0 <= i < j < |ids| ensures ids[i] != ids[j] {
        assert ids[j] == ids[1..][j - 1];
        if i > 0 { assert ids[i] == ids[1..][i - 1]; } else { assert ids[j] in ids[1..]; }
      }
    }
  }

  lemma {:induction false} IterateShift(up: Parents, id: string, n: nat)
    requires id in up
    ensures Iterate(up, id, n + 1) == Iterate(up, up[id], n)
  {
    if n > 0 { IterateShift(up, id, n - 1); }
  }

  // ---------- Sequences of calls ----------

  ghost predicate Sound(up: Parents) { Closed(up) && Acyclic(up) }

  /** In a sound tree every `get_parents` comes to an end. */
  lemma SoundEnds(up: Parents, pid: string)
    requires Acyclic(up)
    ensures Ends(up, pid)
  {
    if Stops(up, pid) {
      assert IsChain(up, pid, []);
    } else {
      assert IsChain(up, pid, [pid] + ChainOf(up, up[pid]));
    }
  }

  datatype Call = Call(node: string, parent: string)

  /** One call; the check's recursion is taken to return nothing where it would not end. */
  ghost function Apply(up: Parents, c: Call): Parents {
    Add(up, c.node, c.parent, if c.parent in up && Ends(up, up[c.parent]) then ChainOf(up, up[c.parent]) else []).0
  }

  ghost function Run(up: Parents, calls: seq<Call>): Parents
    decreases |calls|
  {
    if calls == [] then up else Run(Apply(up, calls[0]), calls[1..])
  }

  /** Every sequence of `add_node` calls, moves of whole subtrees included, keeps all chains of parents
      finite, provided no call gives a node to itself. */
  lemma {:induction false} RunsStaySound(up: Parents, calls: seq<Call>)
    requires Sound(up) && forall c | c in calls :: c.node != c.parent
    ensures Sound(Run(up, calls))
    decreases |calls|
  {
    if calls != [] {
      var c := calls[0];
      assert c in calls;
      var chain := if c.parent in up then ChainOf(up, up[c.parent]) else [];
      if Add(up, c.node, c.parent, chain).1 == None { AddKeepsAcyclicIff(up, c.node, c.parent, chain); }
      RunsStaySound(Apply(up, c), calls[1..]);
    }
  }

  // ---------- The objects ----------

  class TreeNode {
    const id: string
    var pId: string
    var isParent: bool

    constructor (id: string, pId: string)
      ensures this.id == id && this.pId == pId && !isParent
    {
      this.id, this.pId, this.isParent := id, pId, false;
    }
  }

  function Ids(nodes: seq<TreeNode>): seq<string> {
    seq(|nodes|, i requires 0 <= i < |nodes| => nodes[i].id)
  }

  class Tree {
    var nodes: map<string, TreeNode>
    const root: TreeNode

    /** Nodes are stored under their id. */
    ghost predicate Valid()
      reads this
    {
      root.id == RootId && forall k | k in nodes :: nodes[k].id == k
    }

    ghost function Up(): Parents
      reads this, nodes.Values
    {
      map k | k in nodes :: nodes[k].pId
    }

    constructor ()
      ensures Valid() && nodes == map[] && fresh(root) && root.pId == "" && Sound(Up())
    {
      nodes := map[];
      root := new TreeNode(RootId, "");
    }

    function OrRoot(parent: Option<TreeNode>): TreeNode {
      if parent.Some? then parent.value else root
    }

    /** A node of the tree, or a stand-in with the root's id. */
    method GetNode(tid: string) returns (n: TreeNode)
      requires Valid()
      ensures tid in nodes ==> n == nodes[tid]
      ensures tid !in nodes ==> fresh(n) && n.id == RootId
    {
      if tid in nodes { n := nodes[tid]; } else { n := new TreeNode(RootId, ""); }
    }

    method GetParents(node: TreeNode) returns (parents: seq<TreeNode>)
      requires Valid() && Ends(Up(), node.pId)
      ensures IsChain(Up(), node.pId, Ids(parents))
      ensures forall p | p in parents :: p.id in nodes && nodes[p.id] == p
      decreases |ChainOf(Up(), node.pId)|
    {
      var parent := GetNode(node.pId);
      if parent.id == root.id { return []; }
      EndsStep(Up(), node.pId);
      var more := GetParents(parent);
      parents := [parent] + more;
      assert Ids(parents)[1..] == Ids(more);
    }

    /** `add_node`.  The check follows the given parent object's own pId, whether or not that object is the
        one stored under its id. */
    method AddNode(node: TreeNode, parent: Option<TreeNode>) returns (error: Option<Error>)
      requires Valid() && Sound(Up())
      modifies this`nodes, node`pId, OrRoot(parent)`isParent
      ensures Valid()
      ensures var p := OrRoot(parent);
        && Ends(old(Up()), old(p.pId))
        && (Up(), error) == Add(old(Up()), node.id, p.id, ChainOf(old(Up()), old(p.pId)))
        && (error == None ==> p.isParent && node.id in nodes && nodes[node.id] == node)
        && (error == None ==> node.pId == if parent.Some? then parent.value.id else "#")
        && (forall k | k in old(nodes) && old(nodes[k]) != node :: old(nodes[k]).pId == old(nodes[k].pId))
        && (error != None ==> nodes == old(nodes) && node.pId == old(node.pId) && p.isParent == old(p.isParent))
        && (error == Some(ParentNotInTree) <==> p.id !in old(nodes) && p.id != "#")
        && (Acyclic(Up()) <==> error != None || !Encloses(old(Up()), node.id, p.id))
        && (error == None && p.id in old(nodes) && old(nodes[p.id]) == p && p.id != RootId ==>
              (Encloses(old(Up()), node.id, p.id) <==> node.id == p.id && node.id != RootId))
    {
      var p := OrRoot(parent);
      ghost var up, pid := Up(), p.pId;
      SoundEnds(up, pid);
      if p.id !in nodes && p.id != root.id { return Some(ParentNotInTree); }
      var above := GetParents(p);
      ChainUnique(up, pid, Ids(above), ChainOf(up, pid));
      if node.id in Ids(above) { return Some(ParentBelowNode); }
      MoveKeepsAcyclicIff(up, node.id, p.id);
      hide IsChain, Acyclic, Closed, Ends;
      Attach(node, p);
      error := None;
    }

    /** The three assignments at the end of `add_node`. */
    method Attach(node: TreeNode, parent: TreeNode)
      requires Valid()
      modifies this`nodes, node`pId, parent`isParent
      ensures Valid() && Up() == old(Up())[node.id := parent.id]
      ensures parent.isParent && nodes == old(nodes)[node.id := node] && node.pId == parent.id
    {
      node.pId := parent.id;
      parent.isParent := true;
      nodes := nodes[node.id := node];
    }
  }
}
