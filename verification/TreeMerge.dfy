/**
 * Merging two revisions of a shared decision tree.
 *
 * A revision is valid if it is indexed, connected and without cycles; captured ones never clash.
 */
module TreeMerge {
  import opened Wrappers

  type TaskId(==, !new)
  type Content(==, !new)  // kind, role, tool and wording of a step
  type Foreign(==, !new)  // whatever other programs put into a tree

  /** Captured nodes and edges are named by a digest of what they are, which is taken to be injective. */
  datatype NodeId = StepNode(number: nat, content: Content) | OtherNode(name: Foreign)
  datatype EdgeId = PairEdge(source: NodeId, target: NodeId) | OtherEdge(name: Foreign)
  datatype Body = FromStep(content: Content) | OtherBody(text: Foreign)
  datatype Label = NextObservedStep | OtherLabel(text: Foreign)
  datatype Edge = Edge(source: NodeId, target: NodeId, caption: Label)

  datatype Tree = Tree(task: TaskId, root: NodeId, nodes: map<NodeId, Body>, edges: map<EdgeId, Edge>)

  datatype Item = NodeItem(node: NodeId, body: Body) | EdgeItem(id: EdgeId, edge: Edge)

  /** All that a tree says. */
  ghost function Items(t: Tree): set<Item> {
    (set n | n in t.nodes :: NodeItem(n, t.nodes[n])) + (set e | e in t.edges :: EdgeItem(e, t.edges[e]))
  }

  // ---- What the index of a tree accepts ----

  predicate HasEdge(t: Tree, source: NodeId, target: NodeId) {
    exists e :: e in t.edges && t.edges[e].source == source && t.edges[e].target == target
  }

  ghost predicate Path(t: Tree, path: seq<NodeId>) {
    path != [] && forall i :: 0 <= i < |path| - 1 ==> HasEdge(t, path[i], path[i + 1])
  }

  ghost predicate Reachable(t: Tree, n: NodeId) {
    exists path :: Path(t, path) && path[0] == t.root && path[|path| - 1] == n
  }

  ghost predicate Acyclic(t: Tree) {
    forall path :: Path(t, path) && |path| > 1 ==> path[0] != path[|path| - 1]
  }

  predicate SamePair(a: Edge, b: Edge) {
    a.source == b.source && a.target == b.target
  }

  ghost predicate Indexed(t: Tree) {
    && t.root in t.nodes
    && (forall e :: e in t.edges ==>
          t.edges[e].source in t.nodes && t.edges[e].target in t.nodes && t.edges[e].target != t.root)
    && (forall d, e :: d in t.edges && e in t.edges && SamePair(t.edges[d], t.edges[e]) ==> d == e)
    && Acyclic(t)
    && (forall n :: n in t.nodes ==> Reachable(t, n))
  }

  // ---- Merging ----

  predicate Compatible(a: Tree, b: Tree) {
    && a.task == b.task && a.root == b.root
    && (forall n :: n in a.nodes && n in b.nodes ==> a.nodes[n] == b.nodes[n])
    && (forall e :: e in a.edges && e in b.edges ==> a.edges[e] == b.edges[e])
  }

  /** An incoming edge between two nodes that are already joined by another edge is dropped. */
  predicate Clashes(current: Tree, id: EdgeId, edge: Edge) {
    exists d :: d in current.edges && SamePair(current.edges[d], edge) && (d != id || current.edges[d] != edge)
  }

  function United(current: Tree, incoming: Tree): Tree {
    current.(nodes := incoming.nodes + current.nodes,
             edges := (map e | e in incoming.edges && !Clashes(current, e, incoming.edges[e]) :: incoming.edges[e]) +
                 current.edges)
  }

  /** `None` is a validation error. */
  ghost function Merge(current: Tree, incoming: Tree): Option<Tree> {
    if Compatible(current, incoming) && Indexed(United(current, incoming)) then
      Some(United(current, incoming))
    else None
  }

  ghost predicate NoClash(a: Tree, b: Tree) {
    forall d, e :: d in a.edges && e in b.edges && SamePair(a.edges[d], b.edges[e]) ==>
        d == e && a.edges[d] == b.edges[e]
  }

  lemma NoClashNoDrop(a: Tree, b: Tree)
    requires NoClash(a, b)
    ensures United(a, b).edges == b.edges + a.edges
  {
    forall e | e in b.edges ensures !Clashes(a, e, b.edges[e]) {
      forall d | d in a.edges && SamePair(a.edges[d], b.edges[e]) ensures d == e && a.edges[d] == b.edges[e] {}
    }
  }

  lemma NoClashCommutes(a: Tree, b: Tree)
    requires Compatible(a, b) && NoClash(a, b)
    ensures United(a, b) == United(b, a)
    ensures Items(United(a, b)) == Items(a) + Items(b)
  {
    assert NoClash(b, a) by {
      forall d, e | d in b.edges && e in a.edges && SamePair(b.edges[d], a.edges[e])
        ensures d == e && b.edges[d] == a.edges[e] {
        assert SamePair(a.edges[e], b.edges[d]);
      }
    }
    NoClashNoDrop(a, b);
    NoClashNoDrop(b, a);
    SameUnion(a, b);
    UnionItems(a, b, United(a, b));
  }

  lemma SameUnion(a: Tree, b: Tree)
    requires Compatible(a, b)
    ensures b.edges + a.edges == a.edges + b.edges && b.nodes + a.nodes == a.nodes + b.nodes
  {
  }

  lemma UnionItems(a: Tree, b: Tree, u: Tree)
    requires Compatible(a, b) && u.nodes == b.nodes + a.nodes && u.edges == b.edges + a.edges
    ensures Items(u) == Items(a) + Items(b)
  {
    forall x ensures x in Items(u) <==> x in Items(a) || x in Items(b) {
      match x
      case NodeItem(n, body) =>
        assert x in Items(u) <==> n in u.nodes && u.nodes[n] == body;
        assert x in Items(a) <==> n in a.nodes && a.nodes[n] == body;
        assert x in Items(b) <==> n in b.nodes && b.nodes[n] == body;
      case EdgeItem(e, edge) =>
        assert x in Items(u) <==> e in u.edges && u.edges[e] == edge;
        assert x in Items(a) <==> e in a.edges && a.edges[e] == edge;
        assert x in Items(b) <==> e in b.edges && b.edges[e] == edge;
    }
  }

  /**
   * A successful merge says all that both trees say exactly if no two of their edges clash, and then order is
   * immaterial.
   */
  lemma MergeIsUnionIff(a: Tree, b: Tree)
    requires Merge(a, b).Some?
    ensures Items(Merge(a, b).value) == Items(a) + Items(b) <==> NoClash(a, b)
    ensures Merge(b, a).Some? ==> (Merge(a, b) == Merge(b, a) <==> NoClash(a, b))
  {
    if NoClash(a, b) {
      NoClashCommutes(a, b);
    } else {
      var d, e :| d in a.edges && e in b.edges && SamePair(a.edges[d], b.edges[e]) &&
          (d != e || a.edges[d] != b.edges[e]);
      ClashingEdgeIsDropped(a, b, d, e);
      assert EdgeItem(e, b.edges[e]) in Items(b);
    }
  }

  lemma ClashingEdgeIsDropped(a: Tree, b: Tree, d: EdgeId, e: EdgeId)
    requires Merge(a, b).Some? && d in a.edges && e in b.edges
    requires SamePair(a.edges[d], b.edges[e]) && (d != e || a.edges[d] != b.edges[e])
    ensures EdgeItem(e, b.edges[e]) !in Items(Merge(a, b).value) && e !in Merge(a, b).value.edges
    ensures Merge(b, a).Some? ==> e in Merge(b, a).value.edges
  {
    var u := United(a, b);
    assert Clashes(a, e, b.edges[e]);
    assert u.edges[d] == a.edges[d];
    forall f | f in u.edges && SamePair(u.edges[d], u.edges[f]) ensures f == d {}
  }

  // ---- When two valid revisions merge ----

  /** What a valid tree looks like: one root, no way back, and one edge at most from one node to another. */
  lemma IndexedShape(t: Tree)
    requires Indexed(t)
    ensures t.root in t.nodes
    ensures forall n :: n in t.nodes && n != t.root ==> exists m :: m in t.nodes && HasEdge(t, m, n)
    ensures forall m, n :: HasEdge(t, m, n) ==> m in t.nodes && n in t.nodes && n != t.root && n != m
  {
    forall n | n in t.nodes && n != t.root ensures exists m :: m in t.nodes && HasEdge(t, m, n) {
      assert Reachable(t, n);
      var path :| Path(t, path) && path[0] == t.root && path[|path| - 1] == n;
      assert HasEdge(t, path[|path| - 2], path[|path| - 2 + 1]);
    }
    forall m, n | HasEdge(t, m, n) ensures n != m {
      var path := [m, n];
      assert Path(t, path) && |path| > 1;
    }
  }

  /** One of the two trees leads from each node to the next. */
  predicate Joined(a: Tree, b: Tree, path: seq<NodeId>) {
    forall i :: 0 <= i < |path| - 1 ==> HasEdge(a, path[i], path[i + 1]) || HasEdge(b, path[i], path[i + 1])
  }

  /** Together the trees lead from some node back to it. */
  ghost predicate Loops(a: Tree, b: Tree) {
    exists path :: |path| > 1 && Joined(a, b, path) && path[0] == path[|path| - 1]
  }

  /** Dropping an edge never separates what either tree joins. */
  lemma UnitedJoins(a: Tree, b: Tree, m: NodeId, n: NodeId)
    requires Compatible(a, b)
    ensures HasEdge(United(a, b), m, n) <==> HasEdge(a, m, n) || HasEdge(b, m, n)
  {
    var u := United(a, b);
    if HasEdge(u, m, n) {
      var e :| e in u.edges && u.edges[e].source == m && u.edges[e].target == n;
      assert u.edges[e] == if e in a.edges then a.edges[e] else b.edges[e];
    }
    if HasEdge(a, m, n) {
      var e :| e in a.edges && a.edges[e].source == m && a.edges[e].target == n;
      assert u.edges[e] == a.edges[e];
    } else if HasEdge(b, m, n) {
      var e :| e in b.edges && b.edges[e].source == m && b.edges[e].target == n;
      assert !Clashes(a, e, b.edges[e]);
      assert e in u.edges && u.edges[e] == b.edges[e];
    }
  }

  lemma UnitedPaths(a: Tree, b: Tree, path: seq<NodeId>)
    requires Compatible(a, b)
    ensures Path(United(a, b), path) <==> path != [] && Joined(a, b, path)
  {
    var u := United(a, b);
    forall i | 0 <= i < |path| - 1
      ensures HasEdge(u, path[i], path[i + 1]) <==> HasEdge(a, path[i], path[i + 1]) || HasEdge(b, path[i], path[i + 1])
    {
      UnitedJoins(a, b, path[i], path[i + 1]);
    }
  }

  lemma UnitedLoops(a: Tree, b: Tree)
    requires Compatible(a, b)
    ensures Acyclic(United(a, b)) <==> !Loops(a, b)
  {
    var u := United(a, b);
    if !Acyclic(u) {
      var path :| Path(u, path) && |path| > 1 && path[0] == path[|path| - 1];
      UnitedPaths(a, b, path);
    }
    if Loops(a, b) {
      var path :| |path| > 1 && Joined(a, b, path) && path[0] == path[|path| - 1];
      UnitedPaths(a, b, path);
    }
  }

  lemma UnitedReaches(a: Tree, b: Tree, n: NodeId)
    requires Compatible(a, b) && (Reachable(a, n) || Reachable(b, n))
    ensures Reachable(United(a, b), n)
  {
    if Reachable(a, n) {
      var path :| Path(a, path) && path[0] == a.root && path[|path| - 1] == n;
      UnitedPaths(a, b, path);
    } else {
      var path :| Path(b, path) && path[0] == b.root && path[|path| - 1] == n;
      UnitedPaths(a, b, path);
    }
  }

  lemma UnitedPairs(a: Tree, b: Tree, d: EdgeId, e: EdgeId)
    requires Compatible(a, b) && Indexed(a) && Indexed(b)
    requires var u := United(a, b); d in u.edges && e in u.edges && SamePair(u.edges[d], u.edges[e])
    ensures d == e
  {
    var u := United(a, b);
    assert d !in a.edges ==> u.edges[d] == b.edges[d] && !Clashes(a, d, b.edges[d]);
    assert e !in a.edges ==> u.edges[e] == b.edges[e] && !Clashes(a, e, b.edges[e]);
  }

  lemma UnitedEdge(a: Tree, b: Tree, e: EdgeId)
    requires Compatible(a, b) && Indexed(a) && Indexed(b) && e in United(a, b).edges
    ensures var u := United(a, b);
            u.edges[e].source in u.nodes && u.edges[e].target in u.nodes && u.edges[e].target != u.root
  {
    assert e in a.edges || e in b.edges;
  }

  lemma UnitedNode(a: Tree, b: Tree, n: NodeId)
    requires Compatible(a, b) && Indexed(a) && Indexed(b) && n in United(a, b).nodes
    ensures Reachable(United(a, b), n)
  {
    assert n in a.nodes ==> Reachable(a, n);
    assert n in b.nodes ==> Reachable(b, n);
    UnitedReaches(a, b, n);
  }

  /** All that a valid tree is besides free of cycles. */
  lemma UnitedSound(a: Tree, b: Tree, u: Tree)
    requires Compatible(a, b) && Indexed(a) && Indexed(b) && u == United(a, b)
    ensures u.root in u.nodes
    ensures forall e :: e in u.edges ==>
              u.edges[e].source in u.nodes && u.edges[e].target in u.nodes && u.edges[e].target != u.root
    ensures forall d, e :: d in u.edges && e in u.edges && SamePair(u.edges[d], u.edges[e]) ==> d == e
  {
    forall e | e in u.edges
      ensures u.edges[e].source in u.nodes && u.edges[e].target in u.nodes && u.edges[e].target != u.root
    {
      UnitedEdge(a, b, e);
    }
    forall d, e | d in u.edges && e in u.edges && SamePair(u.edges[d], u.edges[e]) ensures d == e {
      UnitedPairs(a, b, d, e);
    }
  }

  lemma UnitedIndexed(a: Tree, b: Tree, u: Tree)
    requires Compatible(a, b) && Indexed(a) && Indexed(b) && u == United(a, b)
    ensures Indexed(u) <==> Acyclic(u)
  {
    UnitedSound(a, b, u);
    forall n | n in u.nodes ensures Reachable(u, n) {
      UnitedNode(a, b, n);
    }
  }

  /**
   * Two valid revisions merge exactly if they are of one task and root, name no node and no edge differently, and do
   * not together lead from some node back to it.
   */
  lemma MergesIff(a: Tree, b: Tree)
    requires Indexed(a) && Indexed(b)
    ensures Merge(a, b).Some? <==>
            && a.task == b.task && a.root == b.root
            && (forall n :: n in a.nodes && n in b.nodes ==> a.nodes[n] == b.nodes[n])
            && (forall e :: e in a.edges && e in b.edges ==> a.edges[e] == b.edges[e])
            && !Loops(a, b)
  {
    if Compatible(a, b) {
      UnitedIndexed(a, b, United(a, b));
      UnitedLoops(a, b);
    }
  }

  // ---- Captured trees ----

  /** Everything is named by what it is, and edges lead to later steps. */
  predicate Captured(t: Tree) {
    && (forall n :: n in t.nodes ==> n.StepNode? && t.nodes[n] == FromStep(n.content))
    && (forall e :: e in t.edges ==>
          && e == PairEdge(t.edges[e].source, t.edges[e].target) && t.edges[e].caption == NextObservedStep
          && t.edges[e].source.StepNode? && t.edges[e].target.StepNode?
          && t.edges[e].source.number < t.edges[e].target.number)
  }

  lemma CapturedAgree(a: Tree, b: Tree)
    requires Captured(a) && Captured(b) && a.task == b.task && a.root == b.root
    ensures Compatible(a, b) && NoClash(a, b) && Captured(United(a, b))
    ensures United(a, b).edges.Keys == a.edges.Keys + b.edges.Keys
  {
    forall e | e in b.edges ensures !Clashes(a, e, b.edges[e]) {
    }
  }

  lemma {:induction false} PathsRise(t: Tree, path: seq<NodeId>)
    requires Captured(t) && Path(t, path) && |path| > 1
    ensures path[0].StepNode? && path[|path| - 1].StepNode? && path[0].number < path[|path| - 1].number
    decreases |path|
  {
    assert HasEdge(t, path[0], path[1]);
    if |path| > 2 {
      var rest := path[1..];
      forall i | 0 <= i < |rest| - 1 ensures HasEdge(t, rest[i], rest[i + 1]) {
        assert HasEdge(t, path[i + 1], path[i + 2]);
      }
      PathsRise(t, rest);
    }
  }

  lemma StillReachable(a: Tree, u: Tree, n: NodeId)
    requires Reachable(a, n) && u.root == a.root
    requires forall e :: e in a.edges ==> e in u.edges && u.edges[e] == a.edges[e]
    ensures Reachable(u, n)
  {
    var path :| Path(a, path) && path[0] == a.root && path[|path| - 1] == n;
    forall i | 0 <= i < |path| - 1 ensures HasEdge(u, path[i], path[i + 1]) {
      assert HasEdge(a, path[i], path[i + 1]);
      var e :| e in a.edges && a.edges[e].source == path[i] && a.edges[e].target == path[i + 1];
      assert e in u.edges;
    }
    assert Path(u, path);
  }

  /** Two captured revisions of one tree always merge, into a captured tree that says just what either says. */
  lemma CapturedTreesMerge(a: Tree, b: Tree)
    requires Captured(a) && Captured(b) && Indexed(a) && Indexed(b) && a.task == b.task && a.root == b.root
    ensures Merge(a, b).Some? && Captured(Merge(a, b).value) && Indexed(Merge(a, b).value)
    ensures Items(Merge(a, b).value) == Items(a) + Items(b)
    ensures Merge(a, b).value.task == a.task && Merge(a, b).value.root == a.root
  {
    CapturedAgree(a, b);
    NoClashCommutes(a, b);
    NoClashNoDrop(a, b);
    CapturedIndexed(a, b, United(a, b));
  }

  lemma CapturedIndexed(a: Tree, b: Tree, u: Tree)
    requires Indexed(a) && Indexed(b) && a.root == b.root == u.root && Captured(u)
    requires u.nodes.Keys == a.nodes.Keys + b.nodes.Keys
    requires forall e :: e in u.edges ==>
               (e in a.edges && u.edges[e] == a.edges[e]) || (e in b.edges && u.edges[e] == b.edges[e])
    requires forall e :: e in a.edges ==> e in u.edges && u.edges[e] == a.edges[e]
    requires forall e :: e in b.edges ==> e in u.edges && u.edges[e] == b.edges[e]
    ensures Indexed(u)
  {
    CapturedShape(u);
    EveryReachable(a, b, u);
  }

  lemma CapturedShape(u: Tree)
    requires Captured(u)
    ensures Acyclic(u)
    ensures forall d, e :: d in u.edges && e in u.edges && SamePair(u.edges[d], u.edges[e]) ==> d == e
  {
    forall path | Path(u, path) && |path| > 1 ensures path[0] != path[|path| - 1] {
      PathsRise(u, path);
    }
  }

  lemma EveryReachable(a: Tree, b: Tree, u: Tree)
    requires Indexed(a) && Indexed(b) && a.root == b.root == u.root
    requires u.nodes.Keys == a.nodes.Keys + b.nodes.Keys
    requires forall e :: e in a.edges ==> e in u.edges && u.edges[e] == a.edges[e]
    requires forall e :: e in b.edges ==> e in u.edges && u.edges[e] == b.edges[e]
    ensures forall n :: n in u.nodes ==> Reachable(u, n)
  {
    forall n | n in u.nodes ensures Reachable(u, n) {
      if n in a.nodes {
        StillReachable(a, u, n);
      } else {
        StillReachable(b, u, n);
      }
    }
  }

  /** Trees that say the same are the same. */
  lemma SameItems(a: Tree, b: Tree)
    requires a.task == b.task && a.root == b.root && Items(a) == Items(b)
    ensures a == b
  {
    forall n ensures (n in a.nodes <==> n in b.nodes) && (n in a.nodes && n in b.nodes ==> a.nodes[n] == b.nodes[n]) {
      assert n in a.nodes ==> NodeItem(n, a.nodes[n]) in Items(b);
      assert n in b.nodes ==> NodeItem(n, b.nodes[n]) in Items(a);
    }
    forall e ensures (e in a.edges <==> e in b.edges) && (e in a.edges && e in b.edges ==> a.edges[e] == b.edges[e]) {
      assert e in a.edges ==> EdgeItem(e, a.edges[e]) in Items(b);
      assert e in b.edges ==> EdgeItem(e, b.edges[e]) in Items(a);
    }
    assert a.nodes == b.nodes && a.edges == b.edges;
  }

  lemma MergeCommutes(a: Tree, b: Tree)
    requires Captured(a) && Captured(b) && Indexed(a) && Indexed(b) && a.task == b.task && a.root == b.root
    ensures Merge(a, b) == Merge(b, a)
  {
    CapturedTreesMerge(a, b);
    CapturedTreesMerge(b, a);
    SameItems(Merge(a, b).value, Merge(b, a).value);
  }

  lemma MergeAssociates(a: Tree, b: Tree, c: Tree, ab: Tree, bc: Tree)
    requires Captured(a) && Captured(c) && Captured(ab) && Captured(bc) && Indexed(a) && Indexed(c) && Indexed(ab) &&
             Indexed(bc)
    requires a.task == ab.task == bc.task == c.task && a.root == ab.root == bc.root == c.root
    requires Items(ab) == Items(a) + Items(b) && Items(bc) == Items(b) + Items(c)
    ensures Merge(ab, c) == Merge(a, bc)
  {
    CapturedTreesMerge(ab, c);
    CapturedTreesMerge(a, bc);
    SameItems(Merge(ab, c).value, Merge(a, bc).value);
  }

  /** On captured revisions of one tree merging is a join: idempotent, commutative and associative. */
  lemma MergeIsJoin(a: Tree, b: Tree, c: Tree)
    requires Captured(a) && Captured(b) && Captured(c) && Indexed(a) && Indexed(b) && Indexed(c)
    requires a.task == b.task == c.task && a.root == b.root == c.root
    ensures Merge(a, a) == Some(a) && Merge(a, b) == Merge(b, a) && Merge(a, b).Some? && Merge(b, c).Some?
    ensures Merge(Merge(a, b).value, c) == Merge(a, Merge(b, c).value)
  {
    MergeWithSelf(a);
    MergeCommutes(a, b);
    CapturedTreesMerge(a, b);
    CapturedTreesMerge(b, c);
    MergeAssociates(a, b, c, Merge(a, b).value, Merge(b, c).value);
  }

  lemma MergeWithSelf(a: Tree)
    requires Captured(a) && Indexed(a)
    ensures Merge(a, a) == Some(a)
  {
    CapturedTreesMerge(a, a);
    SameItems(Merge(a, a).value, a);
  }
}
