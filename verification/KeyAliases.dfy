/** Aliases the walk does not see: a key is a node of the text too, and the walk does not follow it. */
module KeyAliases {
  import opened Prelude
  import opened TextDocuments

  // ---- The text, keys included --------------------------------------------

  /** A place inside a node: a key of a mapping, or the value or item an edge leads to. */
  datatype Slot = KeyOf(entry: nat) | EdgeOf(edge: nat)

  /** The node written at a slot of node n. */
  ghost function At(g: Graph, n: NodeId, slot: Slot): (r: Option<NodeId>)
    requires Closed(g) && n < |g|
    ensures r.Some? ==> r.value < |g|
  {
    match slot
    case KeyOf(i) =>
      assert ClosedNode(g, g[n]);
      if g[n].Mapping? && i < |g[n].entries| then Some(g[n].entries[i].key) else None
    case EdgeOf(i) =>
      OutInRange(g, n);
      if i < |Out(g, n)| then Some(Out(g, n)[i].node) else None
  }

  /** The node a place of the text holds, by the slots that lead to it from the root. */
  ghost function Ends(g: Graph, root: NodeId, place: seq<Slot>): (r: Option<NodeId>)
    requires Closed(g) && root < |g|
    ensures r.Some? ==> r.value < |g|
  {
    if place == [] then Some(root) else
      var n := Ends(g, root, place[..|place| - 1]);
      if n.Some? then At(g, n.value, place[|place| - 1]) else None
  }

  /** The text has no alias: no node stands at two places, keys included. */
  ghost predicate NoAlias(g: Graph, root: NodeId)
    requires Closed(g) && root < |g|
  {
    forall p, q :: Ends(g, root, p).Some? && Ends(g, root, p) == Ends(g, root, q) ==> p == q
  }

  /** Entry i of node n, which the walk reaches, and its key. */
  ghost predicate IsKey(g: Graph, root: NodeId, n: NodeId, i: nat, key: NodeId)
    requires Closed(g) && root < |g|
  {
    n < |g| && n in Reachable(g, root) && At(g, n, KeyOf(i)) == Some(key)
  }

  /** No node is a key and a value, or a key twice. */
  ghost predicate KeysOnce(g: Graph, root: NodeId)
    requires Closed(g) && root < |g|
  {
    && (forall n, i: nat, key | IsKey(g, root, n, i, key) :: key !in Reachable(g, root))
    && (forall n, i: nat, m, j: nat, key | IsKey(g, root, n, i, key) && IsKey(g, root, m, j, key) :: n == m && i == j)
  }

  /** A document the walk finds no problem in. */
  ghost predicate Accepted(g: Graph, root: NodeId)
    requires Closed(g) && root < |g|
  {
    IsTree(g, root) && forall n | n in Reachable(g, root) :: CleanNode(g, n)
  }

  lemma KeyIsScalar(g: Graph, root: NodeId, n: NodeId, i: nat, key: NodeId)
    requires Closed(g) && root < |g| && Accepted(g, root) && IsKey(g, root, n, i, key)
    ensures g[key].Scalar?
  {
    hide IsTree, Reachable;
    assert CleanNode(g, n);
    assert ClosedNode(g, g[n]);
    assert EntryFault(g, g[n].entries, i) == None;
  }

  // ---- Places of an accepted document -------------------------------------

  lemma ReachStep(g: Graph, root: NodeId, n: NodeId, i: nat)
    requires Closed(g) && root < |g| && n < |g| && n in Reachable(g, root) && i < |Out(g, n)|
    ensures Out(g, n)[i].node < |g| && Out(g, n)[i].node in Reachable(g, root)
  {
    hide Out, Closed;
    var p :| End(g, root, p) == Some(n);
    hide End;
    OutInRange(g, n);
    EndStep(g, root, p, n, i);
    assert Reaches(g, root, Out(g, n)[i].node);
  }

  /** What holds a place of an accepted document is a node the walk reaches: only its last slot may be a key. */
  lemma {:induction false} PlaceInside(g: Graph, root: NodeId, place: seq<Slot>)
    requires Closed(g) && root < |g| && Accepted(g, root) && place != [] && Ends(g, root, place).Some?
    ensures var n := Ends(g, root, place[..|place| - 1]); n.Some? && n.value in Reachable(g, root)
  {
    hide Accepted, Reachable, Out, Closed;
    var init := place[..|place| - 1];
    if init == [] {
      RootReached(g, root);
    } else {
      PlaceInside(g, root, init);
      var m, last := Ends(g, root, init[..|init| - 1]).value, init[|init| - 1];
      if last.KeyOf? {
        KeyIsScalar(g, root, m, last.entry, Ends(g, root, init).value);
        NothingInside(g, Ends(g, root, init).value, place[|place| - 1]);
      } else {
        ReachStep(g, root, m, last.edge);
      }
    }
  }

  lemma RootReached(g: Graph, root: NodeId)
    requires Closed(g) && root < |g|
    ensures root in Reachable(g, root)
  {
    NoPath(g, root);
    hide End, Closed;
  }

  lemma NothingInside(g: Graph, n: NodeId, slot: Slot)
    requires Closed(g) && n < |g| && g[n].Scalar?
    ensures At(g, n, slot) == None
  {
  }

  /** Only one edge leads to a node, and none to the root. */
  lemma EdgeOnce(g: Graph, root: NodeId, n: NodeId, i: nat, m: NodeId, j: nat)
    requires Closed(g) && root < |g| && IsTree(g, root) && n < |g| && n in Reachable(g, root) && m < |g| && m in Reachable(g, root)
    requires i < |Out(g, n)| && j < |Out(g, m)|
    ensures Out(g, n)[i].node != root
    ensures Out(g, n)[i].node == Out(g, m)[j].node ==> n == m && i == j
  {
    hide *;
    var p := PathTo(g, root, n);
    var q := PathTo(g, root, m);
    NoPath(g, root);
    EndStep(g, root, p, n, i);
    EndStep(g, root, q, m, j);
    OnePath(g, root, p + [i], []);
    OnePath(g, root, p + [i], q + [j]);
    if p + [i] == q + [j] {
      assert (p + [i])[..|p|] == p && (q + [j])[..|q|] == q && (p + [i])[|p|] == i && (q + [j])[|q|] == j;
    }
  }

  lemma PathTo(g: Graph, root: NodeId, n: NodeId) returns (p: seq<nat>)
    requires Closed(g) && root < |g| && n in Reachable(g, root)
    ensures End(g, root, p) == Some(n)
  {
    hide End, Closed;
    p :| End(g, root, p) == Some(n);
  }

  lemma OnePath(g: Graph, root: NodeId, p: seq<nat>, q: seq<nat>)
    requires Closed(g) && root < |g| && IsTree(g, root)
    ensures End(g, root, p).Some? && End(g, root, p) == End(g, root, q) ==> p == q
  {
    hide End, Closed;
  }

  lemma {:induction false} SamePlaces(g: Graph, root: NodeId, p: seq<Slot>, q: seq<Slot>)
    requires Closed(g) && root < |g| && Accepted(g, root) && KeysOnce(g, root)
    requires Ends(g, root, p).Some? && Ends(g, root, p) == Ends(g, root, q)
    ensures p == q
  {
    hide Reachable, Out, Closed, KeysOnce, IsTree;
    if p == [] && q != [] {
      NotRoot(g, root, q);
    } else if q == [] && p != [] {
      NotRoot(g, root, p);
    } else if p != [] {
      var p', q', a, b := p[..|p| - 1], q[..|q| - 1], p[|p| - 1], q[|q| - 1];
      PlaceInside(g, root, p);
      PlaceInside(g, root, q);
      SlotOnce(g, root, Ends(g, root, p').value, a, Ends(g, root, q').value, b);
      SamePlaces(g, root, p', q');
      assert p == p' + [a] && q == q' + [b];
    }
  }

  lemma NotRoot(g: Graph, root: NodeId, p: seq<Slot>)
    requires Closed(g) && root < |g| && Accepted(g, root) && KeysOnce(g, root) && p != []
    ensures Ends(g, root, p) != Some(root)
  {
    hide Reachable, Out, Closed, IsTree;
    if Ends(g, root, p).Some? {
      PlaceInside(g, root, p);
      SlotNotRoot(g, root, Ends(g, root, p[..|p| - 1]).value, p[|p| - 1]);
    }
  }

  lemma SlotNotRoot(g: Graph, root: NodeId, n: NodeId, slot: Slot)
    requires Closed(g) && root < |g| && IsTree(g, root) && KeysOnce(g, root) && n < |g| && n in Reachable(g, root)
    ensures At(g, n, slot) != Some(root)
  {
    hide Reachable, Out, Closed, IsTree;
    RootReached(g, root);
    if slot.KeyOf? {
      var rootIsKey := IsKey(g, root, n, slot.entry, root);
    } else if At(g, n, slot).Some? {
      EdgeOnce(g, root, n, slot.edge, n, slot.edge);
    }
  }

  lemma SlotOnce(g: Graph, root: NodeId, n: NodeId, a: Slot, m: NodeId, b: Slot)
    requires Closed(g) && root < |g| && IsTree(g, root) && KeysOnce(g, root)
    requires n < |g| && n in Reachable(g, root) && m < |g| && m in Reachable(g, root)
    requires At(g, n, a).Some? && At(g, n, a) == At(g, m, b)
    ensures n == m && a == b
  {
    hide Reachable, Out, Closed, IsTree;
    var x := At(g, n, a).value;
    if a.KeyOf? && b.KeyOf? {
      assert IsKey(g, root, n, a.entry, x) && IsKey(g, root, m, b.entry, x);
    } else if a.EdgeOf? && b.EdgeOf? {
      EdgeOnce(g, root, n, a.edge, m, b.edge);
    } else if a.KeyOf? {
      assert IsKey(g, root, n, a.entry, x);
      ReachStep(g, root, m, b.edge);
    } else {
      assert IsKey(g, root, m, b.entry, x);
      ReachStep(g, root, n, a.edge);
    }
  }

  // ---- From paths to places -----------------------------------------------

  function Edges(path: seq<nat>): (place: seq<Slot>)
    ensures |place| == |path| && forall i | 0 <= i < |path| :: place[i] == EdgeOf(path[i])
  {
    seq(|path|, i requires 0 <= i < |path| => EdgeOf(path[i]))
  }

  lemma {:induction false} PathIsPlace(g: Graph, root: NodeId, path: seq<nat>)
    requires Closed(g) && root < |g|
    ensures Ends(g, root, Edges(path)) == End(g, root, path)
  {
    hide Out, Closed;
    if path != [] {
      PathIsPlace(g, root, path[..|path| - 1]);
      assert Edges(path)[..|path| - 1] == Edges(path[..|path| - 1]);
    }
  }

  lemma KeyPlace(g: Graph, root: NodeId, n: NodeId, i: nat, key: NodeId) returns (place: seq<Slot>)
    requires Closed(g) && root < |g| && IsKey(g, root, n, i, key)
    ensures Ends(g, root, place) == Some(key) && place != [] && place[|place| - 1] == KeyOf(i)
    ensures Ends(g, root, place[..|place| - 1]) == Some(n)
  {
    hide End, Out, Closed;
    var p :| End(g, root, p) == Some(n);
    PathIsPlace(g, root, p);
    place := Edges(p) + [KeyOf(i)];
    assert place[..|p|] == Edges(p);
  }

  /** A document without a problem is free of aliases exactly when no node is a key and a value, or a key twice: the walk
      reports every alias of an otherwise clean document but those that stand at a key, or of a key. */
  lemma KeyAliases(g: Graph, root: NodeId)
    requires Closed(g) && root < |g| && Accepted(g, root)
    ensures NoAlias(g, root) <==> KeysOnce(g, root)
  {
    if KeysOnce(g, root) {
      forall p, q | Ends(g, root, p).Some? && Ends(g, root, p) == Ends(g, root, q)
        ensures p == q
      {
        SamePlaces(g, root, p, q);
      }
    }
    if NoAlias(g, root) {
      NoAliasKeys(g, root);
    }
    hide NoAlias, KeysOnce, Accepted;
  }

  lemma NoAliasKeys(g: Graph, root: NodeId)
    requires Closed(g) && root < |g| && NoAlias(g, root)
    ensures KeysOnce(g, root)
  {
    hide IsKey, Ends, End, Closed;
    forall n, i: nat, key | IsKey(g, root, n, i, key)
      ensures key !in Reachable(g, root)
    {
      var place := KeyPlace(g, root, n, i, key);
      if key in Reachable(g, root) {
        var p :| End(g, root, p) == Some(key);
        assert place != Edges(p);
        PathIsPlace(g, root, p);
      }
    }
    forall n, i: nat, m, j: nat, key | IsKey(g, root, n, i, key) && IsKey(g, root, m, j, key)
      ensures n == m && i == j
    {
      var p := KeyPlace(g, root, n, i, key);
      var q := KeyPlace(g, root, m, j, key);
      assert p == q;
    }
  }

  /** An alias that is accepted: {&x a: *x}, whose value is its key. */
  lemma AcceptedAlias(g: Graph)
    requires g == [Mapping("map", [Entry(1, 1)], 1), Scalar("str", "a", 1)] && Closed(g)
    ensures Accepted(g, 0) && !NoAlias(g, 0)
  {
    forall p, q | End(g, 0, p).Some? && End(g, 0, p) == End(g, 0, q)
      ensures p == q
    {
      TwoPaths(g, p);
      TwoPaths(g, q);
    }
    OneEdge(g);
    assert Ends(g, 0, []) == Some(0);
    assert [KeyOf(0)][..0] == [] && [EdgeOf(0)][..0] == [];
    assert Ends(g, 0, [KeyOf(0)]) == Some(1) && Ends(g, 0, [EdgeOf(0)]) == Some(1);
  }

  lemma OneEdge(g: Graph)
    requires g == [Mapping("map", [Entry(1, 1)], 1), Scalar("str", "a", 1)] && Closed(g)
    ensures Out(g, 0) == [Edge(1, Name("a"))] && Out(g, 1) == [] && CleanNode(g, 0) && CleanNode(g, 1)
  {
    assert g[0].entries[..0] == [];
    assert EntryEdges(g, g[0].entries[..0]) + [Edge(1, Name("a"))] == [Edge(1, Name("a"))];
  }

  lemma {:induction false} TwoPaths(g: Graph, p: seq<nat>)
    requires g == [Mapping("map", [Entry(1, 1)], 1), Scalar("str", "a", 1)] && Closed(g)
    ensures End(g, 0, p).Some? ==> (p == [] && End(g, 0, p) == Some(0)) || (p == [0] && End(g, 0, p) == Some(1))
  {
    OneEdge(g);
    hide Out;
    if p != [] {
      TwoPaths(g, p[..|p| - 1]);
    }
  }
}
