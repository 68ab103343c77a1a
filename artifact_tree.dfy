/**
 * `ArtifactTreeHandler`: a tree of handlers over the artifacts of a patch
 * installation, built once and then walked depth-first.  Each artifact has
 * at most one handler; the walk asks every artifact for its state given its
 * parent's, runs the node's handler on it, and visits the children once for
 * a plain state and once per element for a collection state.
 *
 * `Artifact`, its states and the handlers themselves are not part of this
 * model: an artifact is identified by its name and its parent, a handler by
 * a name, and `getState` is a parameter of the walk.
 */
module ArtifactTree {
  import opened Common

  /** An artifact and the chain of its parents. */
  datatype Artifact = Artifact(name: string, parent: Option<Artifact>)

  type HandlerId = string

  /** A builder node: its artifact, its handler if one was added, and its
   *  children as (artifact, position of the child's builder). */
  datatype NodeBuilder = NodeBuilder(artifact: Artifact, handler: Option<HandlerId>, children: seq<(Artifact, nat)>)

  /** `ArtifactTreeNode`. */
  datatype Node = Node(artifact: Artifact, handler: Option<HandlerId>, children: seq<Node>)

  /** The position of the child builder for `a`, if `children` has one. */
  function ChildIndex(children: seq<(Artifact, nat)>, a: Artifact): (r: Option<nat>)
    ensures r.Some? ==> r.value < |children| && children[r.value].0 == a
    ensures r.None? ==> forall k :: 0 <= k < |children| ==> children[k].0 != a
  {
    if children == [] then None
    else if children[0].0 == a then Some(0)
    else match ChildIndex(children[1..], a)
      case None => None
      case Some(k) => Some(k + 1)
  }

  /** The builders form a tree stored parent before child: every child builder
   *  comes after its parent, and a node has one child builder per artifact. */
  predicate WellFormed(nodes: seq<NodeBuilder>)
  {
    forall i :: 0 <= i < |nodes| ==> WellFormedAt(nodes, i)
  }

  predicate WellFormedAt(nodes: seq<NodeBuilder>, i: nat)
    requires i < |nodes|
  {
    var cs := nodes[i].children;
    (forall k :: 0 <= k < |cs| ==> i < cs[k].1 < |nodes| && nodes[cs[k].1].artifact == cs[k].0) &&
    (forall j, k :: 0 <= j < k < |cs| ==> cs[j].0 != cs[k].0)
  }

  /** `ArtifactTreeNodeBuilder.build`: the node for builder `i`, with its
   *  children built in order. */
  function BuildNode(nodes: seq<NodeBuilder>, i: nat): (r: Node)
    requires WellFormed(nodes) && i < |nodes|
    ensures r.artifact == nodes[i].artifact && r.handler == nodes[i].handler
    ensures |r.children| == |nodes[i].children|
    decreases |nodes| - i, 1
  {
    Node(nodes[i].artifact, nodes[i].handler, BuildChildren(nodes, i, |nodes[i].children|))
  }

  /** The first `n` children of builder `i`, built. */
  function BuildChildren(nodes: seq<NodeBuilder>, i: nat, n: nat): (r: seq<Node>)
    requires WellFormed(nodes) && i < |nodes| && n <= |nodes[i].children|
    ensures |r| == n
    decreases |nodes| - i, 0, n
  {
    if n == 0 then []
    else
      assert WellFormedAt(nodes, i);
      BuildChildren(nodes, i, n - 1) + [BuildNode(nodes, nodes[i].children[n - 1].1)]
  }

  /** Every built node keeps the artifact and the handler of its builder, and
   *  its `k`-th child is the node built from its `k`-th child builder. */
  lemma {:induction false} BuildChildrenShape(nodes: seq<NodeBuilder>, i: nat, n: nat)
    requires WellFormed(nodes) && i < |nodes| && n <= |nodes[i].children|
    ensures forall k :: 0 <= k < n ==>
      nodes[i].children[k].1 < |nodes| &&
      BuildChildren(nodes, i, n)[k] == BuildNode(nodes, nodes[i].children[k].1) &&
      BuildChildren(nodes, i, n)[k].artifact == nodes[i].children[k].0
    decreases n
  {
    assert WellFormedAt(nodes, i);
    if n > 0 {
      BuildChildrenShape(nodes, i, n - 1);
    }
  }

  /** Appending a fresh builder for a new child of `p` keeps the tree well formed. */
  lemma AddChildWellFormed(nodes: seq<NodeBuilder>, p: nat, a: Artifact)
    requires WellFormed(nodes) && p < |nodes| && ChildIndex(nodes[p].children, a).None?
    ensures var i := |nodes|;
      WellFormed(nodes[p := nodes[p].(children := nodes[p].children + [(a, i)])] + [NodeBuilder(a, None, [])])
  {
    var i := |nodes|;
    var parent := nodes[p].(children := nodes[p].children + [(a, i)]);
    var after := nodes[p := parent] + [NodeBuilder(a, None, [])];
    forall j | 0 <= j < |after| ensures WellFormedAt(after, j) {
      if j < i {
        assert WellFormedAt(nodes, j);
      }
    }
  }

  /** The builder `getNodeBuilder` reaches for `a` without creating any: a
   *  parentless artifact resolves to the root, any other to the child
   *  builder for it under its parent's builder. */
  function Locate(nodes: seq<NodeBuilder>, a: Artifact): (r: Option<nat>)
    ensures WellFormed(nodes) && r.Some? ==> r.value < |nodes| && (a.parent.Some? ==> nodes[r.value].artifact == a)
    ensures a.parent.None? ==> (r.Some? <==> nodes != [])
    decreases a
  {
    if a.parent.None? then (if nodes == [] then None else Some(0))
    else match Locate(nodes, a.parent.value)
      case None => None
      case Some(p) =>
        if p < |nodes| then
          match ChildIndex(nodes[p].children, a)
          case None => None
          case Some(k) =>
            assert WellFormed(nodes) ==> WellFormedAt(nodes, p);
            Some(nodes[p].children[k].1)
        else None
  }

  /** Adding a child entry at the end keeps the positions of the others. */
  lemma {:induction false} ChildIndexSnoc(cs: seq<(Artifact, nat)>, x: (Artifact, nat), b: Artifact)
    ensures ChildIndex(cs + [x], b) ==
      if ChildIndex(cs, b).Some? then ChildIndex(cs, b) else if x.0 == b then Some(|cs|) else None
    decreases |cs|
  {
    if cs != [] {
      assert (cs + [x])[1..] == cs[1..] + [x];
      ChildIndexSnoc(cs[1..], x, b);
    }
  }

  /** `Locate` reads only the children of the builders. */
  lemma {:induction false} LocateSameChildren(n1: seq<NodeBuilder>, n2: seq<NodeBuilder>, b: Artifact)
    requires |n1| == |n2| && forall j :: 0 <= j < |n1| ==> n1[j].children == n2[j].children
    ensures Locate(n1, b) == Locate(n2, b)
    decreases b
  {
    if b.parent.Some? {
      LocateSameChildren(n1, n2, b.parent.value);
    }
  }

  /** Nothing is located among no builders. */
  lemma {:induction false} LocateEmpty(b: Artifact)
    ensures Locate([], b).None?
    decreases b
  {
    if b.parent.Some? {
      LocateEmpty(b.parent.value);
    }
  }

  /** Appending a new child builder `i` for `a` under `p` keeps every artifact
   *  already located where it was. */
  lemma {:induction false} LocateAfterAdd(nodes: seq<NodeBuilder>, p: nat, a: Artifact, b: Artifact)
    requires WellFormed(nodes) && p < |nodes| && ChildIndex(nodes[p].children, a).None?
    requires Locate(nodes, b).Some?
    ensures var i := |nodes|;
      Locate(nodes[p := nodes[p].(children := nodes[p].children + [(a, i)])] + [NodeBuilder(a, None, [])], b) == Locate(nodes, b)
    decreases b
  {
    var i := |nodes|;
    var after := nodes[p := nodes[p].(children := nodes[p].children + [(a, i)])] + [NodeBuilder(a, None, [])];
    if b.parent.Some? {
      LocateAfterAdd(nodes, p, a, b.parent.value);
      var q := Locate(nodes, b.parent.value).value;
      if q == p {
        ChildIndexSnoc(nodes[p].children, (a, i), b);
      }
    }
  }

  /** The new child builder `i` for `a` under its parent's builder `p` is where `a` is located. */
  lemma LocateAdded(nodes: seq<NodeBuilder>, p: nat, a: Artifact)
    requires WellFormed(nodes) && p < |nodes| && ChildIndex(nodes[p].children, a).None?
    requires a.parent.Some? && Locate(nodes, a.parent.value) == Some(p)
    ensures var i := |nodes|;
      Locate(nodes[p := nodes[p].(children := nodes[p].children + [(a, i)])] + [NodeBuilder(a, None, [])], a) == Some(i)
  {
    var i := |nodes|;
    LocateAfterAdd(nodes, p, a, a.parent.value);
    ChildIndexSnoc(nodes[p].children, (a, i), a);
  }

  /** `ArtifactTreeHandler.Builder`: the builder nodes, the first of which is the root. */
  class Builder {
    var nodes: seq<NodeBuilder>
    var root: Option<nat>

    ghost predicate Valid()
      reads this
    {
      && WellFormed(nodes)
      && (root.None? <==> nodes == [])
      && (root.Some? ==> root.value == 0)
    }

    /** `Builder.getInstance()`. */
    constructor ()
      ensures Valid() && nodes == [] && root == None
    {
      nodes := [];
      root := None;
    }

    /** `getChildNodeBuilder`: the child builder of `p` for `a`, created on first use. */
    method GetChildNodeBuilder(p: nat, a: Artifact) returns (i: nat)
      requires Valid() && p < |nodes|
      modifies this`nodes
      ensures Valid()
      ensures i < |nodes| && nodes[i].artifact == a && p < i
      ensures ChildIndex(old(nodes[p].children), a).Some? ==>
        nodes == old(nodes) && i == old(nodes[p].children)[ChildIndex(old(nodes[p].children), a).value].1
      ensures ChildIndex(old(nodes[p].children), a).None? ==>
        i == old(|nodes|) && nodes[i] == NodeBuilder(a, None, []) &&
        nodes[..i] == old(nodes)[p := old(nodes[p]).(children := old(nodes[p].children) + [(a, i)])]
      ensures |old(nodes)| <= |nodes| <= |old(nodes)| + 1
      ensures forall j :: 0 <= j < |old(nodes)| ==>
        nodes[j].artifact == old(nodes[j].artifact) && nodes[j].handler == old(nodes[j].handler)
      ensures forall j :: |old(nodes)| <= j < |nodes| ==> nodes[j].handler.None?
      ensures forall b :: Locate(old(nodes), b).Some? ==> Locate(nodes, b) == Locate(old(nodes), b)
      ensures a.parent.Some? && Locate(old(nodes), a.parent.value) == Some(p) ==> Locate(nodes, a) == Some(i)
    {
      var found := ChildIndex(nodes[p].children, a);
      if found.Some? {
        assert WellFormedAt(nodes, p);
        return nodes[p].children[found.value].1;
      }
      i := |nodes|;
      var parent := nodes[p].(children := nodes[p].children + [(a, i)]);
      AddChildWellFormed(nodes, p, a);
      forall b | Locate(nodes, b).Some?
        ensures Locate(nodes[p := parent] + [NodeBuilder(a, None, [])], b) == Locate(nodes, b)
      {
        LocateAfterAdd(nodes, p, a, b);
      }
      if a.parent.Some? && Locate(nodes, a.parent.value) == Some(p) {
        LocateAdded(nodes, p, a);
      }
      nodes := nodes[p := parent] + [NodeBuilder(a, None, [])];
    }

    /** `getNodeBuilder`: the builder for `a`, following its parents from
     *  the root; every parentless artifact resolves to the root, which is
     *  created by the first call. */
    method GetNodeBuilder(a: Artifact) returns (i: nat)
      requires Valid()
      modifies this`nodes, this`root
      ensures Valid()
      ensures i < |nodes| && root.Some?
      ensures a.parent.Some? ==> nodes[i].artifact == a
      ensures a.parent.None? ==> i == 0
      ensures a.parent.None? && old(root).None? ==> nodes == [NodeBuilder(a, None, [])]
      ensures a.parent.None? && old(root).Some? ==> nodes == old(nodes)
      ensures |old(nodes)| <= |nodes|
      ensures forall j :: 0 <= j < |old(nodes)| ==>
        nodes[j].artifact == old(nodes[j].artifact) && nodes[j].handler == old(nodes[j].handler)
      ensures forall j :: |old(nodes)| <= j < |nodes| ==> nodes[j].handler.None?
      ensures Locate(nodes, a) == Some(i)
      ensures Locate(old(nodes), a).Some? ==> nodes == old(nodes) && i == Locate(old(nodes), a).value
      ensures Locate(old(nodes), a).None? ==> |old(nodes)| <= i && nodes[i] == NodeBuilder(a, None, [])
      ensures forall b :: Locate(old(nodes), b).Some? ==> Locate(nodes, b) == Locate(old(nodes), b)
      decreases a
    {
      if a.parent.None? {
        if root.None? {
          forall b ensures Locate(nodes, b).None? {
            LocateEmpty(b);
          }
          nodes := [NodeBuilder(a, None, [])];
          root := Some(0);
        }
        return 0;
      }
      var p := GetNodeBuilder(a.parent.value);
      i := GetChildNodeBuilder(p, a);
    }

    /** `addHandler`: at most one handler per artifact; the builder for the
     *  artifact is created if needed, even when the handler is refused. */
    method AddHandler(a: Artifact, h: HandlerId) returns (r: Outcome, ghost i: nat)
      requires Valid()
      modifies this`nodes, this`root
      ensures Valid()
      ensures i < |nodes| && (a.parent.Some? ==> nodes[i].artifact == a) && (a.parent.None? ==> i == 0)
      ensures r.Failed? <==> i < |old(nodes)| && old(nodes[i].handler).Some?
      ensures Locate(nodes, a) == Some(i)
      ensures r.Failed? <==> Locate(old(nodes), a).Some? && old(nodes)[Locate(old(nodes), a).value].handler.Some?
      ensures r.Failed? ==> r.error == RuntimeFailure("IllegalStateException") && nodes == old(nodes)
      ensures r.Pass? ==> nodes[i].handler == Some(h)
      ensures forall j :: 0 <= j < |nodes| && j != i ==>
        nodes[j].handler == if j < |old(nodes)| then old(nodes[j].handler) else None
    {
      var k := GetNodeBuilder(a);
      i := k;
      if nodes[k].handler.Some? {
        return Failed(RuntimeFailure("IllegalStateException")), i;
      }
      ghost var before := nodes;
      nodes := nodes[k := nodes[k].(handler := Some(h))];
      LocateSameChildren(before, nodes, a);
      forall j | 0 <= j < |nodes| ensures WellFormedAt(nodes, j) {
        assert WellFormedAt(before, j);
      }
      return Pass, i;
    }

    /** `build`: the tree built from the root; with no root there is nothing to build. */
    method Build() returns (r: Result<Node>)
      requires Valid()
      ensures root.None? ==> r == Fail(RuntimeFailure("IllegalStateException"))
      ensures root.Some? ==> r == Ok(BuildNode(nodes, 0))
    {
      if root.None? {
        return Fail(RuntimeFailure("IllegalStateException"));
      }
      return Ok(BuildNode(nodes, root.value));
    }
  }

  /** Whatever its parents, an artifact given a handler once refuses a second
   *  one, and the first handler stays. */
  method AddHandlerTwice(b: Builder, a: Artifact, h1: HandlerId, h2: HandlerId) returns (r1: Outcome, r2: Outcome)
    requires b.Valid()
    modifies b
    ensures b.Valid()
    ensures r2 == Failed(RuntimeFailure("IllegalStateException"))
    ensures Locate(b.nodes, a).Some? && b.nodes[Locate(b.nodes, a).value].handler.Some?
    ensures r1.Pass? ==> b.nodes[Locate(b.nodes, a).value].handler == Some(h1)
  {
    ghost var i1, i2;
    r1, i1 := b.AddHandler(a, h1);
    r2, i2 := b.AddHandler(a, h2);
  }

  // ---------------------------------------------------------------------
  // Walking the tree
  // ---------------------------------------------------------------------

  /** The state an artifact yields: a plain state, or a collection of `size` elements. */
  datatype ArtifactState = Single(id: string) | Collection(id: string, size: nat)

  /** The parent state a child sees: the parent's state and, for a collection,
   *  the element it currently points at. */
  datatype Cursor = Cursor(state: string, index: Option<nat>)

  /** `Artifact.getState(parentState, ctx)`; `None` is a null state. */
  type StateFn = (Artifact, Option<Cursor>) -> Option<ArtifactState>

  /** One `handler.handle(ctx, state)` call. */
  datatype Visit = Visit(handler: HandlerId, state: ArtifactState)

  /** The number of nodes in the subtree at `n`. */
  function Size(n: Node): (r: nat)
    ensures r >= 1
    decreases n
  {
    1 + SizeAll(n.children)
  }

  function SizeAll(cs: seq<Node>): nat
    decreases cs
  {
    if cs == [] then 0 else SizeAll(cs[..|cs| - 1]) + Size(cs[|cs| - 1])
  }

  lemma {:induction false} ChildSmaller(cs: seq<Node>, k: nat)
    requires k < |cs|
    ensures Size(cs[k]) <= SizeAll(cs)
    decreases |cs|
  {
    if k < |cs| - 1 {
      ChildSmaller(cs[..|cs| - 1], k);
      assert cs[..|cs| - 1][k] == cs[k];
    }
  }

  /** The handler calls of `handleNode(ctx, n, parent)`, in order. */
  function Walk(gs: StateFn, n: Node, parent: Option<Cursor>): seq<Visit>
    decreases Size(n), 0, 0
  {
    match gs(n.artifact, parent)
    case None => []
    case Some(st) =>
      (if n.handler.Some? then [Visit(n.handler.value, st)] else []) +
      match st
      case Single(id) => WalkAll(gs, n.children, Cursor(id, None))
      case Collection(id, size) => Rounds(gs, n.children, id, size)
  }

  /** The children walked once, in order, under the same parent state. */
  function WalkAll(gs: StateFn, cs: seq<Node>, c: Cursor): seq<Visit>
    decreases SizeAll(cs), 1, 0
  {
    if cs == [] then []
    else
      var n := |cs| - 1;
      WalkAll(gs, cs[..n], c) + Walk(gs, cs[n], Some(c))
  }

  /** The children walked once per element of a collection, for its first `k` elements. */
  function Rounds(gs: StateFn, cs: seq<Node>, id: string, k: nat): seq<Visit>
    decreases SizeAll(cs), 2, k
  {
    if k == 0 then [] else Rounds(gs, cs, id, k - 1) + WalkAll(gs, cs, Cursor(id, Some(k - 1)))
  }

  /** A null state stops the walk: neither the node's handler nor any
   *  handler below it runs. */
  lemma NullStateRunsNothing(gs: StateFn, n: Node, parent: Option<Cursor>)
    ensures gs(n.artifact, parent).None? ==> Walk(gs, n, parent) == []
    ensures n.handler.Some? ==> (Walk(gs, n, parent) == [] <==> gs(n.artifact, parent).None?)
  {
  }

  /** A node's handler runs before anything below it. */
  lemma HandlerRunsFirst(gs: StateFn, n: Node, parent: Option<Cursor>)
    requires gs(n.artifact, parent).Some? && n.handler.Some?
    ensures |Walk(gs, n, parent)| >= 1
    ensures Walk(gs, n, parent)[0] == Visit(n.handler.value, gs(n.artifact, parent).value)
  {
  }

  /** Children are walked in their order: the walk of `a + b` is the walk of
   *  `a` followed by that of `b`. */
  lemma {:induction false} WalkAllAppend(gs: StateFn, a: seq<Node>, b: seq<Node>, c: Cursor)
    ensures WalkAll(gs, a + b, c) == WalkAll(gs, a, c) + WalkAll(gs, b, c)
    decreases |b|
  {
    if b == [] {
      assert a + b == a;
    } else {
      var n := |b| - 1;
      assert (a + b)[..|a + b| - 1] == a + b[..n];
      assert (a + b)[|a + b| - 1] == b[n];
      WalkAllAppend(gs, a, b[..n], c);
    }
  }

  /** When one pass over the children makes `w` handler calls for every
   *  element, a collection of `k` elements makes `k * w`: the children are
   *  visited once per element. */
  lemma {:induction false} RoundsUniform(gs: StateFn, cs: seq<Node>, id: string, k: nat, w: nat)
    requires forall j :: 0 <= j < k ==> |WalkAll(gs, cs, Cursor(id, Some(j)))| == w
    ensures |Rounds(gs, cs, id, k)| == k * w
    decreases k
  {
    if k > 0 {
      RoundsUniform(gs, cs, id, k - 1, w);
      assert |WalkAll(gs, cs, Cursor(id, Some(k - 1)))| == w;
      assert (k - 1) * w + w == k * w;
    }
  }

  /** A leaf with a handler whose state is never null makes exactly one call. */
  ghost predicate Leaf(gs: StateFn, n: Node)
  {
    n.children == [] && n.handler.Some? && forall c :: gs(n.artifact, Some(c)).Some?
  }

  lemma {:induction false} LeavesOnce(gs: StateFn, cs: seq<Node>, c: Cursor)
    requires forall k :: 0 <= k < |cs| ==> Leaf(gs, cs[k])
    ensures |WalkAll(gs, cs, c)| == |cs|
    decreases |cs|
  {
    if cs != [] {
      var n := |cs| - 1;
      LeavesOnce(gs, cs[..n], c);
      var st := gs(cs[n].artifact, Some(c)).value;
      assert cs[n].children == [];
      assert |Walk(gs, cs[n], Some(c))| == 1 by {
        match st
        case Single(id) =>
        case Collection(id, size) => assert Rounds(gs, [], id, size) == [] by { RoundsEmpty(gs, id, size); }
      }
    }
  }

  lemma {:induction false} RoundsEmpty(gs: StateFn, id: string, k: nat)
    ensures Rounds(gs, [], id, k) == []
    decreases k
  {
    if k > 0 {
      RoundsEmpty(gs, id, k - 1);
    }
  }

  /** A collection node whose children are handled leaves runs its own handler
   *  once and each child's handler once per element. */
  lemma CollectionVisits(gs: StateFn, n: Node, parent: Option<Cursor>)
    requires gs(n.artifact, parent).Some? && gs(n.artifact, parent).value.Collection?
    requires forall k :: 0 <= k < |n.children| ==> Leaf(gs, n.children[k])
    ensures |Walk(gs, n, parent)| ==
      (if n.handler.Some? then 1 else 0) + gs(n.artifact, parent).value.size * |n.children|
  {
    var st := gs(n.artifact, parent).value;
    forall j | 0 <= j < st.size ensures |WalkAll(gs, n.children, Cursor(st.id, Some(j)))| == |n.children| {
      LeavesOnce(gs, n.children, Cursor(st.id, Some(j)));
    }
    RoundsUniform(gs, n.children, st.id, st.size, |n.children|);
  }

  /** `ArtifactTreeHandler`: the built tree and the handler calls made so far. */
  class TreeHandler {
    const root: Node
    var trace: seq<Visit>

    constructor (root: Node)
      ensures this.root == root && trace == []
    {
      this.root := root;
      trace := [];
    }

    /** `handle(ctx)`: the walk from the root, whose parent state is null. */
    method Handle(gs: StateFn)
      modifies this`trace
      ensures trace == old(trace) + Walk(gs, root, None)
    {
      HandleNode(gs, root, None);
    }

    /** `handleNode`: the node's state, its handler, then its children. */
    method HandleNode(gs: StateFn, n: Node, parent: Option<Cursor>)
      modifies this`trace
      ensures trace == old(trace) + Walk(gs, n, parent)
      decreases Size(n)
    {
      var state := gs(n.artifact, parent);
      if state.None? {
        return;
      }
      if n.handler.Some? {
        trace := trace + [Visit(n.handler.value, state.value)];
      }
      ghost var start := trace;
      match state.value {
        case Collection(id, size) =>
          HandleElements(gs, n, id, size);
        case Single(id) =>
          HandleChildren(gs, n, Cursor(id, None));
      }
    }

    /** The collection branch of `handleNode`: the children once per element, by index. */
    method HandleElements(gs: StateFn, n: Node, id: string, size: nat)
      modifies this`trace
      ensures trace == old(trace) + Rounds(gs, n.children, id, size)
      decreases Size(n), 2
    {
      var index := 0;
      while index < size
        invariant index <= size
        invariant trace == old(trace) + Rounds(gs, n.children, id, index)
      {
        HandleChildren(gs, n, Cursor(id, Some(index)));
        index := index + 1;
      }
    }

    /** One pass of `handleNode` over the children of `n`, in order. */
    method HandleChildren(gs: StateFn, n: Node, c: Cursor)
      modifies this`trace
      ensures trace == old(trace) + WalkAll(gs, n.children, c)
      decreases Size(n), 1
    {
      var cs := n.children;
      for k := 0 to |cs|
        invariant trace == old(trace) + WalkAll(gs, cs[..k], c)
      {
        ChildSmaller(cs, k);
        HandleNode(gs, cs[k], Some(c));
        assert cs[..k + 1][..k] == cs[..k];
      }
      assert cs[..|cs|] == cs;
    }
  }
}
