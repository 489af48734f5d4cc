/** `EvolutionTree` of tree.py: the growing forest of policy variants. */
module Tree {
  import opened Options
  import opened Scoring

  type NodeId = string

  /** The parts of an evaluation result the loop looks at. */
  datatype Details = Details(ok: bool, probes: Probes)

  datatype TreeNode = TreeNode(id: NodeId, parent: Option<NodeId>, code: string, score: real, details: Details,
                               error: string, round: nat, depth: nat, strategy: string, description: string,
                               seed: string, children: seq<NodeId>)

  /** The arguments of `add_node`. */
  datatype Draft = Draft(parent: Option<NodeId>, code: string, score: real, details: Details, error: string,
                         strategy: string, description: string, seed: string, round: nat)

  /** The value of an EvolutionTree. `order` is the insertion order of the `nodes` dictionary. */
  datatype Forest = Forest(nodes: map<NodeId, TreeNode>, order: seq<NodeId>, roots: seq<NodeId>,
                           current: Option<NodeId>, best: Option<NodeId>)

  const EMPTY_FOREST: Forest := Forest(map[], [], [], None, None)

  /** Only evaluated nodes without an error message may become the best node. */
  predicate Eligible(n: TreeNode) {
    n.depth > 0 && n.error == ""
  }

  /** A parent named by a draft must exist; Python raises KeyError otherwise. */
  predicate ParentKnown(t: Forest, d: Draft) {
    d.parent.Some? ==> d.parent.value in t.nodes
  }

  function NewNode(t: Forest, id: NodeId, d: Draft): TreeNode
    requires ParentKnown(t, d)
  {
    var depth := if d.parent.Some? then t.nodes[d.parent.value].depth + 1 else 0;
    TreeNode(id, d.parent, d.code, d.score, d.details, d.error, d.round, depth, d.strategy, d.description, d.seed, [])
  }

  function AddChild(nodes: map<NodeId, TreeNode>, p: NodeId, id: NodeId): map<NodeId, TreeNode>
    requires p in nodes
  {
    nodes[p := nodes[p].(children := nodes[p].children + [id])]
  }

  function Added(t: Forest, id: NodeId, d: Draft): Forest
    requires ParentKnown(t, d)
  {
    var node := NewNode(t, id, d);
    var nodes := t.nodes[id := node];
    var linked := if d.parent.Some? then AddChild(nodes, d.parent.value, id) else nodes;
    var isBest := Eligible(node)
                  && (t.best.None? || t.best.value !in linked || node.score > linked[t.best.value].score);
    Forest(linked, t.order + [id], if d.parent.Some? then t.roots else t.roots + [id],
           Some(id), if isBest then Some(id) else t.best)
  }

  class EvolutionTree {
    var nodes: map<NodeId, TreeNode>
    var order: seq<NodeId>
    var rootIds: seq<NodeId>
    var currentNodeId: Option<NodeId>
    var bestNodeId: Option<NodeId>

    constructor ()
      ensures View() == EMPTY_FOREST
    {
      nodes, order, rootIds, currentNodeId, bestNodeId := map[], [], [], None, None;
    }

    function View(): Forest
      reads this
    {
      Forest(nodes, order, rootIds, currentNodeId, bestNodeId)
    }

    /** `id` is the fresh identifier the caller draws from uuid4. Returns None, leaving the
        tree alone, when the parent does not exist. */
    method AddNode(id: NodeId, d: Draft) returns (node: Option<TreeNode>)
      requires id !in nodes
      modifies this
      ensures node.Some? <==> ParentKnown(old(View()), d)
      ensures node.Some? ==> View() == Added(old(View()), id, d) && node.value == NewNode(old(View()), id, d)
      ensures node.None? ==> View() == old(View())
    {
      var depth := 0;
      if d.parent.Some? {
        if d.parent.value !in nodes {
          return None;
        }
        depth := nodes[d.parent.value].depth + 1;
      }
      var n := TreeNode(id, d.parent, d.code, d.score, d.details, d.error, d.round, depth, d.strategy,
                        d.description, d.seed, []);
      nodes := nodes[id := n];
      order := order + [id];
      if d.parent.Some? {
        var p := nodes[d.parent.value];
        nodes := nodes[d.parent.value := p.(children := p.children + [id])];
      } else {
        rootIds := rootIds + [id];
      }
      if depth > 0 && d.error == "" {
        if bestNodeId.None? || bestNodeId.value !in nodes || d.score > nodes[bestNodeId.value].score {
          bestNodeId := Some(id);
        }
      }
      currentNodeId := Some(id);
      node := Some(n);
    }

    method GetAncestors(id: NodeId) returns (path: seq<TreeNode>)
      requires ParentsAgree(View()) && id in nodes
      ensures path == Ancestors(View(), id)
    {
      path := [];
      var current := Some(id);
      while current.Some?
        invariant current.Some? ==> current.value in nodes
        invariant path + (if current.Some? then Ancestors(View(), current.value) else []) == Ancestors(View(), id)
        decreases if current.Some? then nodes[current.value].depth + 1 else 0
      {
        var node := nodes[current.value];
        assert node.parent.Some? ==> ParentAgrees(View(), current.value, node.parent.value);
        assert Ancestors(View(), current.value)
            == [node] + (if node.parent.Some? then Ancestors(View(), node.parent.value) else []);
        path := path + [node];
        current := node.parent;
      }
    }

    method GetFrontier() returns (leaves: seq<TreeNode>)
      requires Listed(View())
      ensures leaves == Frontier(View(), |order|)
    {
      leaves := [];
      for i := 0 to |order|
        invariant leaves == Frontier(View(), i)
      {
        if nodes[order[i]].children == [] {
          leaves := leaves + [nodes[order[i]]];
        }
      }
    }
  }

  // ---- the forest invariant ------------------------------------------------------------

  ghost predicate NoDuplicates<T>(s: seq<T>) {
    forall i, j :: 0 <= i < j < |s| ==> s[i] != s[j]
  }

  /** `p` was added before `id`. */
  ghost predicate Earlier(order: seq<NodeId>, p: NodeId, id: NodeId) {
    exists i, j :: 0 <= i < j < |order| && order[i] == p && order[j] == id
  }

  ghost predicate Listed(t: Forest) {
    && NoDuplicates(t.order)
    && (forall id :: id in t.order <==> id in t.nodes)
    && (forall id :: id in t.nodes ==> t.nodes[id].id == id)
  }

  ghost predicate ParentsAgree(t: Forest) {
    forall id {:trigger ParentAgrees(t, id, t.nodes[id].parent.value)} ::
      id in t.nodes && t.nodes[id].parent.Some? ==> ParentAgrees(t, id, t.nodes[id].parent.value)
  }

  ghost predicate ParentAgrees(t: Forest, id: NodeId, p: NodeId)
    requires id in t.nodes
  {
    && p in t.nodes
    && t.nodes[id].depth == t.nodes[p].depth + 1
    && id in t.nodes[p].children
    && Earlier(t.order, p, id)
  }

  ghost predicate ChildrenAgree(t: Forest) {
    forall id {:trigger ChildrenOf(t, id)} :: id in t.nodes ==> ChildrenOf(t, id)
  }

  ghost predicate ChildrenOf(t: Forest, id: NodeId)
    requires id in t.nodes
  {
    && NoDuplicates(t.nodes[id].children)
    && forall c :: c in t.nodes[id].children ==> c in t.nodes && t.nodes[c].parent == Some(id)
  }

  ghost predicate RootsAgree(t: Forest) {
    && NoDuplicates(t.roots)
    && (forall id :: id in t.roots <==> id in t.nodes && t.nodes[id].parent.None?)
    && (forall id :: id in t.nodes && t.nodes[id].parent.None? ==> t.nodes[id].depth == 0)
  }

  ghost predicate PointersExist(t: Forest) {
    && (t.current.Some? ==> t.current.value in t.nodes)
    && (t.best.Some? ==> t.best.value in t.nodes)
    && (t.current.None? ==> t.nodes == map[])
  }

  ghost predicate IsForest(t: Forest) {
    Listed(t) && ParentsAgree(t) && ChildrenAgree(t) && RootsAgree(t) && PointersExist(t)
  }

  lemma EmptyIsForest()
    ensures IsForest(EMPTY_FOREST) && BestIsRight(EMPTY_FOREST)
  {
  }

  lemma NoDuplicatesAppend<T>(s: seq<T>, x: T)
    requires NoDuplicates(s) && x !in s
    ensures NoDuplicates(s + [x])
  {
  }

  lemma EarlierAppend(order: seq<NodeId>, p: NodeId, id: NodeId, x: NodeId)
    requires Earlier(order, p, id)
    ensures Earlier(order + [x], p, id)
  {
    var i, j :| 0 <= i < j < |order| && order[i] == p && order[j] == id;
    assert (order + [x])[i] == p && (order + [x])[j] == id;
  }

  lemma EarlierLast(order: seq<NodeId>, p: NodeId, x: NodeId)
    requires p in order
    ensures Earlier(order + [x], p, x)
  {
    var i :| 0 <= i < |order| && order[i] == p;
    assert (order + [x])[i] == p && (order + [x])[|order|] == x;
  }

  /** What adding a node does to the old nodes: nothing, except that the parent gains a child. */
  ghost predicate AddedTo(t: Forest, id: NodeId, d: Draft, u: Forest)
    requires ParentKnown(t, d)
  {
    && u.nodes.Keys == t.nodes.Keys + {id}
    && u.nodes[id] == NewNode(t, id, d)
    && (forall n :: n in t.nodes ==> n in u.nodes && u.nodes[n] == AfterAdding(t.nodes[n], id, d))
  }

  ghost function AfterAdding(n: TreeNode, id: NodeId, d: Draft): TreeNode {
    if d.parent == Some(n.id) then n.(children := n.children + [id]) else n
  }

  lemma AddedNodes(t: Forest, id: NodeId, d: Draft)
    requires ParentKnown(t, d) && id !in t.nodes && Listed(t)
    ensures AddedTo(t, id, d, Added(t, id, d))
  {
  }

  lemma AddedListed(t: Forest, id: NodeId, d: Draft)
    requires Listed(t) && ParentKnown(t, d) && id !in t.nodes
    ensures Listed(Added(t, id, d))
  {
    AddedNodes(t, id, d);
    NoDuplicatesAppend(t.order, id);
  }

  lemma AddedParents(t: Forest, id: NodeId, d: Draft)
    requires IsForest(t) && ParentKnown(t, d) && id !in t.nodes
    ensures ParentsAgree(Added(t, id, d))
  {
    var u := Added(t, id, d);
    AddedNodes(t, id, d);
    forall n | n in u.nodes && u.nodes[n].parent.Some?
      ensures ParentAgrees(u, n, u.nodes[n].parent.value)
    {
      var p := u.nodes[n].parent.value;
      if n == id {
        EarlierLast(t.order, p, id);
      } else {
        assert ParentAgrees(t, n, p);
        EarlierAppend(t.order, p, n, id);
      }
    }
  }

  lemma AddedChildren(t: Forest, id: NodeId, d: Draft)
    requires IsForest(t) && ParentKnown(t, d) && id !in t.nodes
    ensures ChildrenAgree(Added(t, id, d))
  {
    var u := Added(t, id, d);
    AddedNodes(t, id, d);
    forall n | n in u.nodes
      ensures ChildrenOf(u, n)
    {
      if n != id {
        assert ChildrenOf(t, n);
        NoDuplicatesAppend(t.nodes[n].children, id);
      }
    }
  }

  lemma AddedRoots(t: Forest, id: NodeId, d: Draft)
    requires IsForest(t) && ParentKnown(t, d) && id !in t.nodes
    ensures RootsAgree(Added(t, id, d)) && PointersExist(Added(t, id, d))
  {
    AddedNodes(t, id, d);
    assert id !in t.roots;
    NoDuplicatesAppend(t.roots, id);
  }

  /** Adding a node under a fresh identifier keeps the forest a forest. */
  lemma AddedIsForest(t: Forest, id: NodeId, d: Draft)
    requires IsForest(t) && ParentKnown(t, d) && id !in t.nodes
    ensures IsForest(Added(t, id, d))
  {
    AddedListed(t, id, d);
    AddedParents(t, id, d);
    AddedChildren(t, id, d);
    AddedRoots(t, id, d);
  }

  // ---- the best node -----------------------------------------------------------------------

  ghost predicate Beats(t: Forest, b: NodeId, id: NodeId)
    requires b in t.nodes && id in t.nodes
  {
    || t.nodes[id].score < t.nodes[b].score
    || (t.nodes[id].score == t.nodes[b].score && (id == b || Earlier(t.order, b, id)))
  }

  /** The best node is the earliest-added one among the eligible nodes of maximal score. */
  ghost predicate BestIsRight(t: Forest) {
    match t.best
    case None => forall id :: id in t.nodes ==> !Eligible(t.nodes[id])
    case Some(b) =>
      && b in t.nodes && Eligible(t.nodes[b])
      && forall id :: id in t.nodes && Eligible(t.nodes[id]) ==> Beats(t, b, id)
  }

  lemma AddedBestIsRight(t: Forest, id: NodeId, d: Draft)
    requires IsForest(t) && ParentKnown(t, d) && id !in t.nodes && BestIsRight(t)
    ensures BestIsRight(Added(t, id, d))
  {
    var u := Added(t, id, d);
    AddedNodes(t, id, d);
    if u.best.Some? {
      var b := u.best.value;
      forall n | n in u.nodes && Eligible(u.nodes[n])
        ensures Beats(u, b, n)
      {
        if n != id {
          assert t.best.Some? && Beats(t, t.best.value, n);
          if b != id && n != b && t.nodes[n].score == t.nodes[b].score {
            EarlierAppend(t.order, b, n, id);
          }
        } else if b != id {
          EarlierLast(t.order, b, id);
        }
      }
    }
  }

  // ---- paths to the roots ---------------------------------------------------------------------

  /** The path from a node up to its root. */
  function Ancestors(t: Forest, id: NodeId): (path: seq<TreeNode>)
    requires ParentsAgree(t) && id in t.nodes
    decreases t.nodes[id].depth
  {
    var n := t.nodes[id];
    if n.parent.None? then [n]
    else
      assert ParentAgrees(t, id, n.parent.value);
      [n] + Ancestors(t, n.parent.value)
  }

  ghost predicate IsPathUp(t: Forest, id: NodeId, path: seq<TreeNode>)
    requires id in t.nodes
  {
    && |path| == t.nodes[id].depth + 1
    && path[0] == t.nodes[id]
    && path[|path| - 1].id in t.roots
    && (forall k :: 0 <= k < |path| ==> path[k].depth == |path| - 1 - k)
    && (forall k :: 0 <= k < |path| ==> path[k].id in t.nodes && path[k] == t.nodes[path[k].id])
    && (forall k :: 0 <= k < |path| - 1 ==> path[k].parent == Some(path[k + 1].id))
  }

  /** Every node's path has depth + 1 nodes, goes up one level per step through agreeing
      parent links, and ends in a listed root. */
  lemma {:induction false} AncestorsPath(t: Forest, id: NodeId)
    requires IsForest(t) && id in t.nodes
    ensures IsPathUp(t, id, Ancestors(t, id))
    decreases t.nodes[id].depth
  {
    var n := t.nodes[id];
    if n.parent.Some? {
      assert ParentAgrees(t, id, n.parent.value);
      AncestorsPath(t, n.parent.value);
      PathStep(t, id, Ancestors(t, n.parent.value));
    }
  }

  lemma PathStep(t: Forest, id: NodeId, rest: seq<TreeNode>)
    requires id in t.nodes && t.nodes[id].id
            == id && t.nodes[id].parent.Some? && ParentAgrees(t, id, t.nodes[id].parent.value)
    requires t.nodes[t.nodes[id].parent.value].id == t.nodes[id].parent.value
    requires IsPathUp(t, t.nodes[id].parent.value, rest)
    ensures IsPathUp(t, id, [t.nodes[id]] + rest)
  {
  }

  /** A non-root node stands in exactly one children list, exactly once. */
  lemma UniqueParentSlot(t: Forest, id: NodeId)
    requires IsForest(t) && id in t.nodes && t.nodes[id].parent.Some?
    ensures exists p, k :: p in t.nodes && 0 <= k < |t.nodes[p].children| && t.nodes[p].children[k] == id
    ensures forall p, k, q, l :: p in t.nodes && 0 <= k < |t.nodes[p].children| && t.nodes[p].children[k] == id
                              && q in t.nodes && 0 <= l < |t.nodes[q].children| && t.nodes[q].children[l] == id
                              ==> p == q && k == l
  {
    var p := t.nodes[id].parent.value;
    assert ParentAgrees(t, id, p);
    var k :| 0 <= k < |t.nodes[p].children| && t.nodes[p].children[k] == id;
    forall p, k, q, l | p in t.nodes && 0 <= k < |t.nodes[p].children| && t.nodes[p].children[k] == id
                     && q in t.nodes && 0 <= l < |t.nodes[q].children| && t.nodes[q].children[l] == id
      ensures p == q && k == l
    {
      assert ChildrenOf(t, p) && ChildrenOf(t, q);
    }
  }

  // ---- leaves --------------------------------------------------------------------------------

  /** The leaves among the first `n` nodes, in insertion order. */
  function Frontier(t: Forest, n: nat): seq<TreeNode>
    requires Listed(t) && n <= |t.order|
  {
    if n == 0 then []
    else
      var node := t.nodes[t.order[n - 1]];
      Frontier(t, n - 1) + if node.children == [] then [node] else []
  }

  lemma {:induction false} FrontierHolds(t: Forest, n: nat, k: nat)
    requires Listed(t) && k < n <= |t.order| && t.nodes[t.order[k]].children == []
    ensures t.nodes[t.order[k]] in Frontier(t, n)
  {
    if k < n - 1 {
      FrontierHolds(t, n - 1, k);
    }
  }

  ghost function Birth(order: seq<NodeId>, id: NodeId): (k: nat)
    requires id in order
    ensures k < |order| && order[k] == id
  {
    if order[0] == id then 0 else 1 + Birth(order[1..], id)
  }

  /** Every node lies on the path of some frontier leaf: no lineage is lost. */
  lemma {:induction false} LeafBelow(t: Forest, id: NodeId) returns (leaf: NodeId)
    requires IsForest(t) && id in t.nodes
    ensures leaf in t.nodes && t.nodes[leaf] in Frontier(t, |t.order|)
    ensures t.nodes[id] in Ancestors(t, leaf)
    decreases |t.order| - Birth(t.order, id)
  {
    var k := Birth(t.order, id);
    if t.nodes[id].children == [] {
      leaf := id;
      FrontierHolds(t, |t.order|, k);
    } else {
      var c := t.nodes[id].children[0];
      assert ChildrenOf(t, id);
      assert ParentAgrees(t, c, id);
      var i, j :| 0 <= i < j < |t.order| && t.order[i] == id && t.order[j] == c;
      leaf := LeafBelow(t, c);
      AncestorsAbove(t, leaf, c, id);
    }
  }

  lemma {:induction false} AncestorsAbove(t: Forest, leaf: NodeId, c: NodeId, id: NodeId)
    requires IsForest(t) && leaf in t.nodes && c in t.nodes && id in t.nodes
    requires t.nodes[c].parent == Some(id) && t.nodes[c] in Ancestors(t, leaf)
    ensures t.nodes[id] in Ancestors(t, leaf)
    decreases t.nodes[leaf].depth
  {
    if leaf == c {
      assert Ancestors(t, id)[0] == t.nodes[id] by { AncestorsPath(t, id); }
    } else {
      assert t.nodes[leaf].id == leaf && t.nodes[c].id == c;
      assert t.nodes[leaf] != t.nodes[c];
      assert ParentAgrees(t, leaf, t.nodes[leaf].parent.value);
      AncestorsAbove(t, t.nodes[leaf].parent.value, c, id);
    }
  }
}
