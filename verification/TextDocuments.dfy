/** What a document an operator writes may not use: the worklist walk over a composed YAML graph. */
module TextDocuments {
  import opened Prelude

  /** A composed node. A node used twice through an alias is one id with two parents; an alias may close a cycle. */
  type NodeId = nat

  datatype Entry = Entry(key: NodeId, value: NodeId)

  datatype Node =
    | Scalar(tag: string, text: string, line: nat)
    | Mapping(tag: string, entries: seq<Entry>, line: nat)
    | Sequence(tag: string, items: seq<NodeId>, line: nat)

  type Graph = seq<Node>

  const MERGE_TAG := "tag:yaml.org,2002:merge"

  datatype Step = Name(name: string) | Index(index: nat)
  type Loc = seq<Step>

  datatype Kind = YamlAlias | YamlMerge | KeyType | DuplicateKey
  datatype Problem = Problem(loc: Loc, kind: Kind)

  /** Every id a node holds is a node of the graph. */
  predicate Closed(g: Graph) {
    forall n | 0 <= n < |g| :: ClosedNode(g, g[n])
  }

  predicate ClosedNode(g: Graph, node: Node) {
    match node
    case Scalar(_, _, _) => true
    case Mapping(_, entries, _) => ClosedEntries(g, entries)
    case Sequence(_, items, _) => forall i | 0 <= i < |items| :: items[i] < |g|
  }

  predicate ClosedEntries(g: Graph, entries: seq<Entry>) {
    forall i | 0 <= i < |entries| :: entries[i].key < |g| && entries[i].value < |g|
  }

  // ---- What one node holds ------------------------------------------------

  datatype Edge = Edge(node: NodeId, step: Step)

  predicate IsMerge(g: Graph, e: Entry)
    requires e.key < |g|
  {
    g[e.key].tag == MERGE_TAG
  }

  /** An entry whose value the walk follows: its key is text and not a merge key. */
  predicate IsPlain(g: Graph, e: Entry)
    requires e.key < |g|
  {
    !IsMerge(g, e) && g[e.key].Scalar?
  }

  /** The names the first i entries give. */
  ghost function NamesBefore(g: Graph, entries: seq<Entry>, i: nat): set<string>
    requires ClosedEntries(g, entries) && i <= |entries|
  {
    if i == 0 then {} else
      NamesBefore(g, entries, i - 1) + (if IsPlain(g, entries[i - 1]) then {g[entries[i - 1].key].text} else {})
  }

  /** The kind of problem entry i is by itself, if any. */
  ghost function EntryFault(g: Graph, entries: seq<Entry>, i: nat): Option<Kind>
    requires ClosedEntries(g, entries) && i < |entries|
  {
    if IsMerge(g, entries[i]) then Some(YamlMerge)
    else if !g[entries[i].key].Scalar? then Some(KeyType)
    else if g[entries[i].key].text in NamesBefore(g, entries, i) then Some(DuplicateKey)
    else None
  }

  function EntryEdges(g: Graph, entries: seq<Entry>): seq<Edge>
    requires ClosedEntries(g, entries)
  {
    if entries == [] then [] else
      var last := entries[|entries| - 1];
      EntryEdges(g, entries[..|entries| - 1])
      + (if IsPlain(g, last) then [Edge(last.value, Name(g[last.key].text))] else [])
  }

  /** The edges the walk follows out of node n, in document order. */
  function Out(g: Graph, n: NodeId): (es: seq<Edge>)
    requires Closed(g) && n < |g|
  {
    match g[n]
    case Scalar(_, _, _) => []
    case Mapping(_, entries, _) => assert ClosedNode(g, g[n]); EntryEdges(g, entries)
    case Sequence(_, items, _) => seq(|items|, i requires 0 <= i < |items| => Edge(items[i], Index(i)))
  }

  lemma EntryEdgesInRange(g: Graph, entries: seq<Entry>)
    requires ClosedEntries(g, entries)
    ensures forall i | 0 <= i < |EntryEdges(g, entries)| :: EntryEdges(g, entries)[i].node < |g|
  {
  }

  lemma OutInRange(g: Graph, n: NodeId)
    requires Closed(g) && n < |g|
    ensures forall i | 0 <= i < |Out(g, n)| :: Out(g, n)[i].node < |g|
  {
    assert ClosedNode(g, g[n]);
    if g[n].Mapping? {
      EntryEdgesInRange(g, g[n].entries);
    }
  }

  /** How many entries of a node are a problem of kind k by themselves. */
  ghost function Faults(g: Graph, n: NodeId, k: Kind): nat
    requires Closed(g) && n < |g|
  {
    assert ClosedNode(g, g[n]);
    if g[n].Mapping? then FaultsUpTo(g, g[n].entries, |g[n].entries|, k) else 0
  }

  ghost function FaultsUpTo(g: Graph, entries: seq<Entry>, i: nat, k: Kind): nat
    requires ClosedEntries(g, entries) && i <= |entries|
  {
    if i == 0 then 0 else FaultsUpTo(g, entries, i - 1, k) + (if EntryFault(g, entries, i - 1) == Some(k) then 1 else 0)
  }

  /** The problems of the first i entries by themselves, in their order and where they stand. */
  ghost function EntryProblems(g: Graph, entries: seq<Entry>, i: nat, loc: Loc): seq<Problem>
    requires ClosedEntries(g, entries) && i <= |entries|
  {
    if i == 0 then [] else
      var fault := EntryFault(g, entries, i - 1);
      EntryProblems(g, entries, i - 1, loc)
      + if fault.None? then [] else [FaultAt(loc, g[entries[i - 1].key], fault.value)]
  }

  /** Where a fault stands: a key written twice at its own location, any other at its mapping's. */
  ghost function FaultAt(loc: Loc, key: Node, kind: Kind): Problem {
    Problem(if kind == DuplicateKey && key.Scalar? then loc + [Name(key.text)] else loc, kind)
  }

  /** The problems of node n by itself. */
  ghost function OwnProblems(g: Graph, n: NodeId, loc: Loc): seq<Problem>
    requires Closed(g) && n < |g|
  {
    assert ClosedNode(g, g[n]);
    if g[n].Mapping? then EntryProblems(g, g[n].entries, |g[n].entries|, loc) else []
  }

  // ---- Paths: an account of the graph that knows nothing of the walk ------

  /** A path is the sequence of edge positions taken from the root; this is the node it ends on. */
  ghost function End(g: Graph, root: NodeId, path: seq<nat>): (n: Option<NodeId>)
    requires Closed(g) && root < |g|
    ensures n.Some? ==> n.value < |g|
  {
    if path == [] then Some(root) else
      var at := End(g, root, path[..|path| - 1]);
      var i := path[|path| - 1];
      if at.Some? && i < |Out(g, at.value)| then
        OutInRange(g, at.value);
        Some(Out(g, at.value)[i].node)
      else None
  }

  /** The location a path spells. */
  ghost function LocOf(g: Graph, root: NodeId, path: seq<nat>): Loc
    requires Closed(g) && root < |g| && End(g, root, path).Some?
  {
    if path == [] then [] else
      var at := End(g, root, path[..|path| - 1]).value;
      LocOf(g, root, path[..|path| - 1]) + [Out(g, at)[path[|path| - 1]].step]
  }

  ghost predicate Reaches(g: Graph, root: NodeId, n: NodeId)
    requires Closed(g) && root < |g|
  {
    exists path :: End(g, root, path) == Some(n)
  }

  ghost function Reachable(g: Graph, root: NodeId): set<NodeId>
    requires Closed(g) && root < |g|
  {
    set n: NodeId | 0 <= n < |g| && Reaches(g, root, n)
  }

  /** No node is reached along two different paths: the reachable graph is a tree (so it has no cycle either). */
  ghost predicate IsTree(g: Graph, root: NodeId)
    requires Closed(g) && root < |g|
  {
    forall p, q :: End(g, root, p).Some? && End(g, root, p) == End(g, root, q) ==> p == q
  }

  /** Two different paths that meet. */
  ghost predicate Clash(g: Graph, root: NodeId, p: seq<nat>, q: seq<nat>)
    requires Closed(g) && root < |g|
  {
    p != q && End(g, root, p).Some? && End(g, root, p) == End(g, root, q)
  }

  datatype Weight = Degree | FaultsOf(kind: Kind)

  ghost function WeightOf(g: Graph, w: Weight, n: NodeId): nat
    requires Closed(g)
  {
    if n >= |g| then 0 else
      match w
      case Degree => |Out(g, n)|
      case FaultsOf(k) => Faults(g, n, k)
  }

  /** The total weight of the members of s below n. */
  ghost function Sum(g: Graph, w: Weight, s: set<NodeId>, n: nat): nat
    requires Closed(g)
  {
    if n == 0 then 0 else Sum(g, w, s, n - 1) + (if n - 1 in s then WeightOf(g, w, n - 1) else 0)
  }

  lemma SumInsert(g: Graph, w: Weight, s: set<NodeId>, x: NodeId, n: nat)
    requires Closed(g) && x !in s
    ensures Sum(g, w, s + {x}, n) == Sum(g, w, s, n) + (if x < n then WeightOf(g, w, x) else 0)
  {
  }

  lemma {:induction false} SumZero(g: Graph, w: Weight, s: set<NodeId>, n: nat)
    requires Closed(g)
    ensures Sum(g, w, s, n) == 0 <==> forall x | x in s && x < n :: WeightOf(g, w, x) == 0
  {
    if n > 0 {
      SumZero(g, w, s, n - 1);
    }
  }

  function CountKind(ps: seq<Problem>, k: Kind): nat {
    if ps == [] then 0 else CountKind(ps[..|ps| - 1], k) + (if ps[|ps| - 1].kind == k then 1 else 0)
  }

  lemma {:induction false} CountKindAppend(ps: seq<Problem>, qs: seq<Problem>, k: Kind)
    ensures CountKind(ps + qs, k) == CountKind(ps, k) + CountKind(qs, k)
  {
    if qs == [] {
      assert ps + qs == ps;
    } else {
      CountKindAppend(ps, qs[..|qs| - 1], k);
      assert (ps + qs)[..|ps + qs| - 1] == ps + qs[..|qs| - 1];
    }
  }

  lemma {:induction false} CountAll(ps: seq<Problem>)
    ensures |ps| == CountKind(ps, YamlAlias) + CountKind(ps, YamlMerge) + CountKind(ps, KeyType) + CountKind(ps, DuplicateKey)
  {
    if ps != [] {
      CountAll(ps[..|ps| - 1]);
    }
  }

  // ---- The walk -----------------------------------------------------------

  datatype Item = Item(node: NodeId, loc: Loc)

  function Pushed(es: seq<Edge>, loc: Loc): (items: seq<Item>)
    ensures |items| == |es|
    ensures forall i | 0 <= i < |es| :: items[i] == Item(es[i].node, loc + [es[i].step])
  {
    seq(|es|, i requires 0 <= i < |es| => Item(es[i].node, loc + [es[i].step]))
  }

  /** One mapping: its problems, and the values the walk will follow. */
  method ExpandMapping(g: Graph, entries: seq<Entry>, loc: Loc) returns (problems: seq<Problem>, pushed: seq<Item>)
    requires ClosedEntries(g, entries)
    ensures problems == EntryProblems(g, entries, |entries|, loc)
    ensures pushed == Pushed(EntryEdges(g, entries), loc)
  {
    problems, pushed := [], [];
    var first: map<string, nat> := map[];
    var i := 0;
    while i < |entries|
      invariant 0 <= i <= |entries|
      invariant first.Keys == NamesBefore(g, entries, i)
      invariant problems == EntryProblems(g, entries, i, loc)
      invariant pushed == Pushed(EntryEdges(g, entries[..i]), loc)
    {
      var key, value := entries[i].key, entries[i].value;
      EdgesStep(g, entries, i, loc);
      if g[key].tag == MERGE_TAG {
        problems := problems + [Problem(loc, YamlMerge)];
      } else if !g[key].Scalar? {
        problems := problems + [Problem(loc, KeyType)];
      } else {
        var name := g[key].text;
        if name in first {
          problems := problems + [Problem(loc + [Name(name)], DuplicateKey)];
        } else {
          first := first[name := g[key].line];
        }
        pushed := pushed + [Item(value, loc + [Name(name)])];
      }
      i := i + 1;
    }
    assert entries[..i] == entries;
  }

  lemma EdgesStep(g: Graph, entries: seq<Entry>, i: nat, loc: Loc)
    requires ClosedEntries(g, entries) && i < |entries|
    ensures Pushed(EntryEdges(g, entries[..i + 1]), loc)
         == Pushed(EntryEdges(g, entries[..i]), loc)
            + (if IsPlain(g, entries[i]) then [Item(entries[i].value, loc + [Name(g[entries[i].key].text)])] else [])
  {
    assert entries[..i + 1][..i] == entries[..i];
  }

  lemma {:induction false} EntryProblemsCount(g: Graph, entries: seq<Entry>, i: nat, loc: Loc, k: Kind)
    requires ClosedEntries(g, entries) && i <= |entries|
    ensures CountKind(EntryProblems(g, entries, i, loc), k) == FaultsUpTo(g, entries, i, k)
  {
    hide EntryFault, NamesBefore, CountKind, FaultAt;
    if i == 0 {
      CountOne([], FaultAt(loc, Scalar("", "", 0), k), k);
    } else {
      EntryProblemsCount(g, entries, i - 1, loc, k);
      var fault, before := EntryFault(g, entries, i - 1), EntryProblems(g, entries, i - 1, loc);
      if fault.Some? {
        CountOne(before, FaultAt(loc, g[entries[i - 1].key], fault.value), k);
        FaultKind(loc, g[entries[i - 1].key], fault.value);
      } else {
        assert before + [] == before;
      }
    }
  }

  lemma CountOne(ps: seq<Problem>, p: Problem, k: Kind)
    ensures CountKind([], k) == 0 && CountKind(ps + [p], k) == CountKind(ps, k) + (if p.kind == k then 1 else 0)
  {
    assert (ps + [p])[..|ps|] == ps;
  }

  lemma FaultKind(loc: Loc, key: Node, kind: Kind)
    ensures FaultAt(loc, key, kind).kind == kind
  {
  }

  lemma {:induction false} EntryProblemsKinds(g: Graph, entries: seq<Entry>, i: nat, loc: Loc)
    requires ClosedEntries(g, entries) && i <= |entries|
    ensures forall p | p in EntryProblems(g, entries, i, loc) :: p.kind != YamlAlias
  {
    if i > 0 {
      EntryProblemsKinds(g, entries, i - 1, loc);
      FaultIsNoAlias(g, entries, i - 1);
    }
  }

  lemma FaultIsNoAlias(g: Graph, entries: seq<Entry>, i: nat)
    requires ClosedEntries(g, entries) && i < |entries|
    ensures EntryFault(g, entries, i) != Some(YamlAlias)
  {
  }

  lemma OwnProblemsCount(g: Graph, n: NodeId, loc: Loc)
    requires Closed(g) && n < |g|
    ensures forall k :: CountKind(OwnProblems(g, n, loc), k) == Faults(g, n, k)
    ensures forall p | p in OwnProblems(g, n, loc) :: p.kind != YamlAlias
  {
    assert ClosedNode(g, g[n]);
    if g[n].Mapping? {
      forall k: Kind
        ensures CountKind(OwnProblems(g, n, loc), k) == Faults(g, n, k)
      {
        EntryProblemsCount(g, g[n].entries, |g[n].entries|, loc, k);
      }
      EntryProblemsKinds(g, g[n].entries, |g[n].entries|, loc);
    }
  }

  /** A path the walk has queued, whether or not it was popped since. */
  ghost predicate Met(popped: set<seq<nat>>, waiting: seq<seq<nat>>, p: seq<nat>) {
    p in popped || p in waiting
  }

  ghost predicate Distinct(waiting: seq<seq<nat>>) {
    forall i, j | 0 <= i < j < |waiting| :: waiting[i] != waiting[j]
  }

  /** Every edge out of a seen node was queued behind the path the node was first reached by. */
  ghost predicate Followed(g: Graph, popped: set<seq<nat>>, via: map<NodeId, seq<nat>>, waiting: seq<seq<nat>>)
    requires Closed(g)
  {
    forall n, i: nat {:trigger via[n] + [i]} | n in via && n < |g| && i < |Out(g, n)| :: Met(popped, waiting, via[n] + [i])
  }

  /** What the walk knows of its past: the paths popped, the path each seen node was first reached by. */
  ghost predicate Walked(g: Graph, root: NodeId, popped: set<seq<nat>>, via: map<NodeId, seq<nat>>, waiting: seq<seq<nat>>)
    requires Closed(g) && root < |g|
  {
    && (forall p | Met(popped, waiting, p) :: End(g, root, p).Some?)
    && (forall p | p in popped :: End(g, root, p).value in via)
    && (forall n | n in via :: via[n] in popped && End(g, root, via[n]) == Some(n))
    && (forall p | Met(popped, waiting, p) && p != [] :: p[..|p| - 1] in popped)
    && Followed(g, popped, via, waiting)
    && Met(popped, waiting, [])
    && (forall p | p in popped :: p !in waiting)
    && Distinct(waiting)
  }

  /** The paths that go one edge further than p, from its node n. */
  ghost function Extensions(g: Graph, n: NodeId, p: seq<nat>): (ps: seq<seq<nat>>)
    requires Closed(g) && n < |g|
    ensures |ps| == |Out(g, n)| && forall i: nat | i < |ps| :: ps[i] == p + [i]
  {
    seq(|Out(g, n)|, i => p + [i])
  }

  lemma PopMet(popped: set<seq<nat>>, waiting: seq<seq<nat>>, more: seq<seq<nat>>)
    requires waiting != []
    ensures forall p :: Met(popped + {waiting[0]}, waiting[1..] + more, p) <==> Met(popped, waiting, p) || p in more
    ensures Distinct(waiting) ==> waiting[0] !in waiting[1..] && Distinct(waiting[1..])
  {
    assert waiting == [waiting[0]] + waiting[1..];
  }

  lemma PopSeen(g: Graph, root: NodeId, popped: set<seq<nat>>, via: map<NodeId, seq<nat>>, waiting: seq<seq<nat>>)
    requires Closed(g) && root < |g| && waiting != [] && Walked(g, root, popped, via, waiting)
    requires End(g, root, waiting[0]).Some? && End(g, root, waiting[0]).value in via
    ensures Walked(g, root, popped + {waiting[0]}, via, waiting[1..])
    ensures Clash(g, root, waiting[0], via[End(g, root, waiting[0]).value])
  {
    PopMet(popped, waiting, []);
    assert waiting[1..] + [] == waiting[1..];
    assert waiting[0] in waiting && Met(popped, waiting, waiting[0]);
  }

  lemma PopNew(g: Graph, root: NodeId, popped: set<seq<nat>>, via: map<NodeId, seq<nat>>, waiting: seq<seq<nat>>, n: NodeId)
    requires Closed(g) && root < |g| && waiting != [] && Walked(g, root, popped, via, waiting)
    requires End(g, root, waiting[0]) == Some(n) && n !in via
    ensures Walked(g, root, popped + {waiting[0]}, via[n := waiting[0]], waiting[1..] + Extensions(g, n, waiting[0]))
  {
    hide End, Out, Closed, Followed, Distinct, Extensions, Met;
    var p := waiting[0];
    PopMet(popped, waiting, Extensions(g, n, p));
    ExtensionsEnd(g, root, n, p);
    FollowedNew(g, popped, via, waiting, n);
    ExtensionsNew(g, root, popped, via, waiting, n);
  }

  lemma ExtensionsNew(g: Graph, root: NodeId, popped: set<seq<nat>>, via: map<NodeId, seq<nat>>, waiting: seq<seq<nat>>, n: NodeId)
    requires Closed(g) && n < |g| && waiting != [] && Distinct(waiting)
    requires forall p | p in popped :: p !in waiting
    requires forall p | Met(popped, waiting, p) && p != [] :: p[..|p| - 1] in popped
    ensures forall q | q in Extensions(g, n, waiting[0]) :: q != [] && q[..|q| - 1] == waiting[0]
    ensures forall p | p in popped + {waiting[0]} :: p !in waiting[1..] + Extensions(g, n, waiting[0])
    ensures Distinct(waiting[1..] + Extensions(g, n, waiting[0]))
  {
    var p := waiting[0];
    var more := Extensions(g, n, p);
    PopMet(popped, waiting, more);
    assert p in waiting && p !in popped;
    forall i: nat | i < |more|
      ensures !Met(popped, waiting, more[i]) && more[i] != [] && more[i][..|more[i]| - 1] == p
    {
      assert more[i] == p + [i] && more[i][..|more[i]| - 1] == p;
    }
    assert forall q | q in waiting[1..] :: q in waiting;
    DistinctAppend(waiting[1..], more, p);
  }

  lemma ExtensionsEnd(g: Graph, root: NodeId, n: NodeId, p: seq<nat>)
    requires Closed(g) && root < |g| && End(g, root, p) == Some(n)
    ensures forall q | q in Extensions(g, n, p) :: End(g, root, q).Some?
  {
    forall i: nat | i < |Extensions(g, n, p)|
      ensures End(g, root, p + [i]).Some?
    {
      assert (p + [i])[..|p + [i]| - 1] == p;
    }
  }

  lemma FollowedNew(g: Graph, popped: set<seq<nat>>, via: map<NodeId, seq<nat>>, waiting: seq<seq<nat>>, n: NodeId)
    requires Closed(g) && waiting != [] && n < |g| && n !in via && Followed(g, popped, via, waiting)
    ensures Followed(g, popped + {waiting[0]}, via[n := waiting[0]], waiting[1..] + Extensions(g, n, waiting[0]))
  {
    var p := waiting[0];
    var more := Extensions(g, n, p);
    var via' := via[n := p];
    PopMet(popped, waiting, more);
    forall m, i: nat {:trigger via'[m] + [i]} | m in via' && m < |g| && i < |Out(g, m)|
      ensures Met(popped + {p}, waiting[1..] + more, via'[m] + [i])
    {
      if m == n {
        assert more[i] == p + [i];
      } else {
        assert Met(popped, waiting, via[m] + [i]);
      }
    }
  }

  lemma DistinctAppend(waiting: seq<seq<nat>>, more: seq<seq<nat>>, p: seq<nat>)
    requires Distinct(waiting)
    requires forall i: nat | i < |more| :: more[i] == p + [i] && more[i] !in waiting
    ensures Distinct(waiting + more)
  {
    forall i, j | 0 <= i < j < |waiting + more|
      ensures (waiting + more)[i] != (waiting + more)[j]
    {
      if j >= |waiting| {
        var b := j - |waiting|;
        assert (waiting + more)[j] == more[b];
        if i >= |waiting| {
          var a := i - |waiting|;
          assert more[a] == p + [a] && (p + [a])[|p|] == a && (p + [b])[|p|] == b;
        } else {
          assert waiting[i] in waiting;
        }
      }
    }
  }

  /** The walk is over: the edges out of the seen nodes, and the root, were all popped. */
  ghost predicate Done(g: Graph, root: NodeId, popped: set<seq<nat>>, via: map<NodeId, seq<nat>>)
    requires Closed(g) && root < |g|
  {
    && [] in popped
    && (forall n | n in via :: End(g, root, via[n]) == Some(n))
    && (forall p | p in popped :: End(g, root, p).Some? && End(g, root, p).value in via)
    && forall n, i: nat {:trigger via[n] + [i]} | n in via && n < |g| && i < |Out(g, n)| :: via[n] + [i] in popped
  }

  lemma WalkedDone(g: Graph, root: NodeId, popped: set<seq<nat>>, via: map<NodeId, seq<nat>>)
    requires Closed(g) && root < |g| && Walked(g, root, popped, via, [])
    ensures Done(g, root, popped, via)
  {
    hide End, Out, Closed, Distinct;
    assert forall p :: Met(popped, [], p) <==> p in popped;
  }

  /** Once the walk is over, every path has been followed to a seen node. */
  lemma {:induction false} AllSeen(g: Graph, root: NodeId, popped: set<seq<nat>>, via: map<NodeId, seq<nat>>, path: seq<nat>)
    requires Closed(g) && root < |g| && Done(g, root, popped, via)
    requires End(g, root, path).Some?
    ensures End(g, root, path).value in via
  {
    if path != [] {
      AllSeen(g, root, popped, via, path[..|path| - 1]);
      var m := End(g, root, path[..|path| - 1]).value;
      var next := via[m] + [path[|path| - 1]];
      assert next in popped && next[..|next| - 1] == via[m];
    }
  }

  /** When no popped path met a seen node, each path is the one its node was first reached by. */
  lemma {:induction false} OnlyPath(g: Graph, root: NodeId, popped: set<seq<nat>>, via: map<NodeId, seq<nat>>, path: seq<nat>)
    requires Closed(g) && root < |g| && Done(g, root, popped, via) && AllFirst(g, root, popped, via)
    requires End(g, root, path).Some?
    ensures path in popped
  {
    if path == [] {
      RootPopped(g, root, popped, via);
    } else {
      hide Done, AllFirst;
      PathInit(g, root, path);
      OnlyPath(g, root, popped, via, path[..|path| - 1]);
      NextPopped(g, root, popped, via, path);
    }
  }

  lemma RootPopped(g: Graph, root: NodeId, popped: set<seq<nat>>, via: map<NodeId, seq<nat>>)
    requires Closed(g) && root < |g| && Done(g, root, popped, via)
    ensures [] in popped
  {
  }

  lemma PathInit(g: Graph, root: NodeId, path: seq<nat>)
    requires Closed(g) && root < |g| && path != [] && End(g, root, path).Some?
    ensures var init := End(g, root, path[..|path| - 1]);
            init.Some? && init.value < |g| && path[|path| - 1] < |Out(g, init.value)|
  {
  }

  /** The edges out of a path's end were popped behind the path itself, as that is the first to its end. */
  lemma NextPopped(g: Graph, root: NodeId, popped: set<seq<nat>>, via: map<NodeId, seq<nat>>, path: seq<nat>)
    requires Closed(g) && root < |g| && Done(g, root, popped, via) && AllFirst(g, root, popped, via)
    requires path != [] && path[..|path| - 1] in popped
    requires var init := End(g, root, path[..|path| - 1]);
             init.Some? && init.value < |g| && path[|path| - 1] < |Out(g, init.value)|
    ensures path in popped
  {
    hide End, Out, Closed;
    var init, i := path[..|path| - 1], path[|path| - 1];
    var m := End(g, root, init).value;
    assert via[m] == init;
    assert via[m] + [i] in popped;
    assert init + [i] == path;
  }

  /** The method's account of its problems: one per popped path that met a seen node, and every fault of a seen node. */
  ghost predicate Accounted(g: Graph, problems: seq<Problem>, seen: set<NodeId>, waiting: nat)
    requires Closed(g)
  {
    && CountKind(problems, YamlAlias) + |seen| + waiting == 1 + Sum(g, Degree, seen, |g|)
    && forall k | k != YamlAlias :: CountKind(problems, k) == Sum(g, FaultsOf(k), seen, |g|)
  }

  lemma ExpandOne(g: Graph, n: NodeId, loc: Loc, problems: seq<Problem>, own: seq<Problem>, seen: set<NodeId>, waiting: nat)
    requires Closed(g) && n < |g| && n !in seen && waiting > 0
    requires Accounted(g, problems, seen, waiting)
    requires forall k :: CountKind(own, k) == Faults(g, n, k)
    ensures Accounted(g, problems + own, seen + {n}, waiting - 1 + |Out(g, n)|)
  {
    NoAliasFault(g, n);
    SumInsert(g, Degree, seen, n, |g|);
    forall k: Kind
      ensures CountKind(problems + own, k) == CountKind(problems, k) + Faults(g, n, k)
      ensures Sum(g, FaultsOf(k), seen + {n}, |g|) == Sum(g, FaultsOf(k), seen, |g|) + Faults(g, n, k)
    {
      CountKindAppend(problems, own, k);
      SumInsert(g, FaultsOf(k), seen, n, |g|);
    }
  }

  lemma AliasOne(g: Graph, problems: seq<Problem>, loc: Loc, seen: set<NodeId>, waiting: nat)
    requires Closed(g) && waiting > 0 && Accounted(g, problems, seen, waiting)
    ensures Accounted(g, problems + [Problem(loc, YamlAlias)], seen, waiting - 1)
    ensures CountKind(problems + [Problem(loc, YamlAlias)], YamlAlias) == CountKind(problems, YamlAlias) + 1
  {
    assert (problems + [Problem(loc, YamlAlias)])[..|problems|] == problems;
  }

  lemma AccountStart(g: Graph)
    requires Closed(g)
    ensures Accounted(g, [], {}, 1)
  {
    SumZero(g, Degree, {}, |g|);
    forall k: Kind
      ensures Sum(g, FaultsOf(k), {}, |g|) == 0
    {
      SumZero(g, FaultsOf(k), {}, |g|);
    }
  }

  lemma NoAliasFault(g: Graph, n: NodeId)
    requires Closed(g) && n < |g|
    ensures Faults(g, n, YamlAlias) == 0
  {
    assert ClosedNode(g, g[n]);
    if g[n].Mapping? {
      NoAliasFaultUpTo(g, g[n].entries, |g[n].entries|);
    }
  }

  lemma NoAliasFaultUpTo(g: Graph, entries: seq<Entry>, i: nat)
    requires ClosedEntries(g, entries) && i <= |entries|
    ensures FaultsUpTo(g, entries, i, YamlAlias) == 0
  {
  }

  ghost function Below(n: nat): (s: set<NodeId>)
    ensures |s| == n && forall k: NodeId :: k in s <==> k < n
  {
    if n == 0 then {} else Below(n - 1) + {n - 1}
  }

  lemma SeenFits(g: Graph, seen: set<NodeId>)
    requires forall n | n in seen :: n < |g|
    ensures |seen| <= |g|
  {
    SubsetSize(seen, Below(|g|));
  }

  lemma {:induction false} SubsetSize<T>(a: set<T>, b: set<T>)
    requires a <= b
    ensures |a| <= |b|
  {
    if a != {} {
      var x :| x in a;
      SubsetSize(a - {x}, b - {x});
    }
  }

  /** Each queued item is the end of its path, under the location the path spells. */
  ghost predicate Lined(g: Graph, root: NodeId, waiting: seq<seq<nat>>, queue: seq<Item>)
    requires Closed(g) && root < |g|
  {
    && |waiting| == |queue|
    && forall i | 0 <= i < |queue| :: LinedAt(g, root, waiting[i], queue[i])
  }

  ghost predicate LinedAt(g: Graph, root: NodeId, path: seq<nat>, item: Item)
    requires Closed(g) && root < |g|
  {
    End(g, root, path) == Some(item.node) && LocOf(g, root, path) == item.loc
  }

  lemma LinedExtend(g: Graph, root: NodeId, waiting: seq<seq<nat>>, queue: seq<Item>)
    requires Closed(g) && root < |g| && queue != [] && Lined(g, root, waiting, queue)
    ensures queue[0].node < |g| && |waiting| == |queue|
    ensures |Extensions(g, queue[0].node, waiting[0])| == |Pushed(Out(g, queue[0].node), queue[0].loc)|
    ensures Lined(g, root, waiting[1..] + Extensions(g, queue[0].node, waiting[0]),
                  queue[1..] + Pushed(Out(g, queue[0].node), queue[0].loc))
  {
    var path, item := waiting[0], queue[0];
    assert LinedAt(g, root, path, item);
    var more, pushed := Extensions(g, item.node, path), Pushed(Out(g, item.node), item.loc);
    forall i: nat | i < |pushed|
      ensures LinedAt(g, root, more[i], pushed[i])
    {
      assert more[i] == path + [i] && (path + [i])[..|path + [i]| - 1] == path;
    }
  }

  /** Every problem is one of the document: an alias stands where one of two meeting paths ends, any other is a problem of
      a reachable node, standing where a path to the node leads. */
  ghost predicate Justified(g: Graph, root: NodeId, problems: seq<Problem>)
    requires Closed(g) && root < |g|
  {
    forall i | 0 <= i < |problems| :: JustifiedAt(g, root, problems[i])
  }

  ghost predicate JustifiedAt(g: Graph, root: NodeId, problem: Problem)
    requires Closed(g) && root < |g|
  {
    if problem.kind == YamlAlias then exists p, q :: Clash(g, root, p, q) && problem.loc == LocOf(g, root, p)
    else exists p :: IsOwn(g, root, p, problem)
  }

  ghost predicate IsOwn(g: Graph, root: NodeId, path: seq<nat>, problem: Problem)
    requires Closed(g) && root < |g|
  {
    var n := End(g, root, path);
    n.Some? && problem in OwnProblems(g, n.value, LocOf(g, root, path))
  }

  ghost predicate AllFirst(g: Graph, root: NodeId, popped: set<seq<nat>>, via: map<NodeId, seq<nat>>)
    requires Closed(g) && root < |g|
  {
    forall p | p in popped && End(g, root, p).Some? && End(g, root, p).value in via :: via[End(g, root, p).value] == p
  }

  /** The paths popped are the ones nodes were first reached by, or two paths met. */
  ghost predicate FirstOrClash(g: Graph, root: NodeId, aliases: nat, popped: set<seq<nat>>, via: map<NodeId, seq<nat>>)
    requires Closed(g) && root < |g|
  {
    if aliases == 0 then AllFirst(g, root, popped, via) else !IsTree(g, root)
  }

  lemma Finish(g: Graph, root: NodeId, problems: seq<Problem>, popped: set<seq<nat>>, via: map<NodeId, seq<nat>>)
    requires Closed(g) && root < |g| && Walked(g, root, popped, via, [])
    requires FirstOrClash(g, root, CountKind(problems, YamlAlias), popped, via)
    requires forall n | n in via :: n < |g|
    ensures via.Keys == Reachable(g, root)
    ensures CountKind(problems, YamlAlias) == 0 <==> IsTree(g, root)
  {
    hide Walked, Done, AllFirst, IsTree, Reachable;
    WalkedDone(g, root, popped, via);
    FinishReach(g, root, popped, via);
    if CountKind(problems, YamlAlias) == 0 {
      FinishTree(g, root, popped, via);
    }
  }

  lemma FinishReach(g: Graph, root: NodeId, popped: set<seq<nat>>, via: map<NodeId, seq<nat>>)
    requires Closed(g) && root < |g| && Done(g, root, popped, via)
    requires forall n | n in via :: n < |g|
    ensures via.Keys == Reachable(g, root)
  {
    forall n | n in Reachable(g, root)
      ensures n in via
    {
      var p :| End(g, root, p) == Some(n);
      AllSeen(g, root, popped, via, p);
    }
    forall n | n in via
      ensures n in Reachable(g, root)
    {
      assert End(g, root, via[n]) == Some(n);
    }
  }

  lemma FinishTree(g: Graph, root: NodeId, popped: set<seq<nat>>, via: map<NodeId, seq<nat>>)
    requires Closed(g) && root < |g| && Done(g, root, popped, via) && AllFirst(g, root, popped, via)
    ensures IsTree(g, root)
  {
    forall p, q | End(g, root, p).Some? && End(g, root, p) == End(g, root, q)
      ensures p == q
    {
      OnlyPath(g, root, popped, via, p);
      OnlyPath(g, root, popped, via, q);
    }
  }

  /** The problems a document has, and so whether it may be used. */
  method StructureProblems(g: Graph, root: Option<NodeId>) returns (problems: seq<Problem>)
    requires Closed(g) && (root.Some? ==> root.value < |g|)
    ensures root.None? ==> problems == []
    ensures root.Some? ==> Accounted(g, problems, Reachable(g, root.value), 0)
    ensures root.Some? ==> (CountKind(problems, YamlAlias) == 0 <==> IsTree(g, root.value))
    ensures root.Some? ==> Justified(g, root.value, problems)
    ensures root.Some? ==> exists paths :: IsReport(g, root.value, paths, problems)
    ensures problems == [] <==>
              root.None? || (IsTree(g, root.value) && forall n | n in Reachable(g, root.value) :: CleanNode(g, n))
  {
    if root.None? {
      problems := [];
    } else {
      problems := Walk(g, root.value);
      AcceptedIff(g, root.value, problems);
    }
  }

  /** The paths behind a point of the walk: popped, first to each seen node, and waiting beside the queue. */
  datatype Trail = Trail(popped: set<seq<nat>>, via: map<NodeId, seq<nat>>, waiting: seq<seq<nat>>)

  ghost predicate Inv(g: Graph, root: NodeId, problems: seq<Problem>, seen: set<NodeId>, queue: seq<Item>, t: Trail)
    requires Closed(g) && root < |g|
  {
    && Walked(g, root, t.popped, t.via, t.waiting)
    && seen == t.via.Keys && (forall n | n in seen :: n < |g|)
    && Lined(g, root, t.waiting, queue)
    && Accounted(g, problems, seen, |queue|)
    && FirstOrClash(g, root, CountKind(problems, YamlAlias), t.popped, t.via)
    && Justified(g, root, problems)
  }

  // ---- The order of the walk ----------------------------------------------

  /** Of two paths of one length, the one that turns off first. */
  ghost predicate Lex(p: seq<nat>, q: seq<nat>)
    requires |p| == |q|
  {
    p != [] && (Lex(p[..|p| - 1], q[..|q| - 1]) || (p[..|p| - 1] == q[..|q| - 1] && p[|p| - 1] < q[|q| - 1]))
  }

  /** Breadth first: a shorter path comes first, and of two of one length the one that comes first in the document. */
  ghost predicate Sooner(p: seq<nat>, q: seq<nat>) {
    |p| < |q| || (|p| == |q| && Lex(p, q))
  }

  lemma {:induction false} LexOrder(p: seq<nat>, q: seq<nat>, r: seq<nat>)
    requires |p| == |q| == |r|
    ensures !Lex(p, p)
    ensures Lex(p, q) && Lex(q, r) ==> Lex(p, r)
  {
    if p != [] {
      LexOrder(p[..|p| - 1], q[..|q| - 1], r[..|r| - 1]);
    }
  }

  lemma SoonerOrder(p: seq<nat>, q: seq<nat>, r: seq<nat>)
    ensures !Sooner(p, p)
    ensures Sooner(p, q) && Sooner(q, r) ==> Sooner(p, r)
    ensures !(Sooner(p, q) && Sooner(q, p))
  {
    LexOrder(p, p, p);
    if |p| == |q| {
      LexOrder(p, q, p);
      if |q| == |r| {
        LexOrder(p, q, r);
      }
    }
  }

  lemma SoonerExtended(p: seq<nat>, q: seq<nat>, i: nat, j: nat)
    ensures Sooner(p, q) ==> Sooner(p + [i], q + [j])
    ensures Sooner(p, p + [i])
    ensures i < j ==> Sooner(p + [i], p + [j])
  {
    assert (p + [i])[..|p|] == p && (q + [j])[..|q|] == q && (p + [j])[..|p|] == p;
  }

  ghost predicate NoLater(p: seq<nat>, q: seq<nat>) {
    p == q || Sooner(p, q)
  }

  /** The path comes no later than the other one, if they lead to one node. */
  ghost predicate ComesFirst(g: Graph, root: NodeId, p: seq<nat>, q: seq<nat>)
    requires Closed(g) && root < |g|
  {
    End(g, root, q) == End(g, root, p) ==> NoLater(p, q)
  }

  /** The path is the first of all that lead to its node. */
  ghost predicate IsFirst(g: Graph, root: NodeId, p: seq<nat>)
    requires Closed(g) && root < |g|
  {
    End(g, root, p).Some? && forall q :: ComesFirst(g, root, p, q)
  }

  /** The walk comes to a path exactly when it goes on from the first path to a node. */
  ghost predicate Visited(g: Graph, root: NodeId, p: seq<nat>)
    requires Closed(g) && root < |g|
  {
    End(g, root, p).Some? && (p == [] || IsFirst(g, root, p[..|p| - 1]))
  }

  ghost predicate InOrder(paths: seq<seq<nat>>) {
    forall i, j | 0 <= i < j < |paths| :: Sooner(paths[i], paths[j])
  }

  /** What one path adds: its node's own problems when it is the first to it, and otherwise that it is an alias. */
  ghost function Adds(g: Graph, root: NodeId, p: seq<nat>, first: bool): seq<Problem>
    requires Closed(g) && root < |g| && End(g, root, p).Some?
  {
    if first then OwnProblems(g, End(g, root, p).value, LocOf(g, root, p)) else [Problem(LocOf(g, root, p), YamlAlias)]
  }

  ghost function ReportOf(g: Graph, root: NodeId, paths: seq<seq<nat>>): seq<Problem>
    requires Closed(g) && root < |g| && forall p | p in paths :: End(g, root, p).Some?
  {
    if paths == [] then [] else
      var p := paths[|paths| - 1];
      ReportOf(g, root, paths[..|paths| - 1]) + Adds(g, root, p, IsFirst(g, root, p))
  }

  /** The problems are those of all the paths the walk comes to, in breadth-first order. */
  ghost predicate IsReport(g: Graph, root: NodeId, paths: seq<seq<nat>>, problems: seq<Problem>)
    requires Closed(g) && root < |g|
  {
    && InOrder(paths) && (forall p :: p in paths <==> Visited(g, root, p))
    && (forall p | p in paths :: End(g, root, p).Some?)
    && problems == ReportOf(g, root, paths)
  }

  /** The same report, by the paths the walk first reached nodes by. */
  ghost function ReportBy(g: Graph, root: NodeId, paths: seq<seq<nat>>, via: map<NodeId, seq<nat>>): seq<Problem>
    requires Closed(g) && root < |g| && forall p | p in paths :: End(g, root, p).Some? && End(g, root, p).value in via
  {
    if paths == [] then [] else
      var p := paths[|paths| - 1];
      assert p in paths;
      ReportBy(g, root, paths[..|paths| - 1], via) + Adds(g, root, p, via[End(g, root, p).value] == p)
  }

  lemma {:induction false} ReportBySame(g: Graph, root: NodeId, paths: seq<seq<nat>>, via: map<NodeId, seq<nat>>,
                                        via': map<NodeId, seq<nat>>)
    requires Closed(g) && root < |g|
    requires forall p | p in paths :: End(g, root, p).Some? && End(g, root, p).value in via
                                      && End(g, root, p).value in via' && via'[End(g, root, p).value] == via[End(g, root, p).value]
    ensures ReportBy(g, root, paths, via') == ReportBy(g, root, paths, via)
  {
    hide End, Adds;
    if paths != [] {
      assert paths[|paths| - 1] in paths;
      ReportBySame(g, root, paths[..|paths| - 1], via, via');
    }
  }

  lemma {:induction false} ReportByFirst(g: Graph, root: NodeId, paths: seq<seq<nat>>, via: map<NodeId, seq<nat>>)
    requires Closed(g) && root < |g|
    requires forall p | p in paths :: End(g, root, p).Some? && End(g, root, p).value in via
                                      && (via[End(g, root, p).value] == p <==> IsFirst(g, root, p))
    ensures ReportBy(g, root, paths, via) == ReportOf(g, root, paths)
  {
    hide End, Adds, IsFirst;
    if paths != [] {
      assert paths[|paths| - 1] in paths;
      ReportByFirst(g, root, paths[..|paths| - 1], via);
    }
  }

  /** The walk pops paths in order; order holds those popped so far, and nothing that waits comes before them. */
  ghost predicate Ordered(g: Graph, root: NodeId, problems: seq<Problem>, order: seq<seq<nat>>, t: Trail)
    requires Closed(g) && root < |g|
  {
    && (forall p :: p in t.popped <==> p in order)
    && InOrder(order + t.waiting) && AllKnown(g, root, t.via, order) && AllOnward(g, root, t.via, order + t.waiting)
    && problems == ReportBy(g, root, order, t.via)
  }

  ghost predicate AllKnown(g: Graph, root: NodeId, via: map<NodeId, seq<nat>>, paths: seq<seq<nat>>)
    requires Closed(g) && root < |g|
    ensures AllKnown(g, root, via, paths) ==> forall p | p in paths :: End(g, root, p).Some? && End(g, root, p).value in via
  {
    forall p | p in paths :: FirstKnown(g, root, via, p)
  }

  ghost predicate AllOnward(g: Graph, root: NodeId, via: map<NodeId, seq<nat>>, paths: seq<seq<nat>>)
    requires Closed(g) && root < |g|
  {
    forall p | p in paths :: p == [] || Onward(g, root, via, p)
  }

  /** The path its node was first reached by comes no later. */
  ghost predicate FirstKnown(g: Graph, root: NodeId, via: map<NodeId, seq<nat>>, p: seq<nat>)
    requires Closed(g) && root < |g|
  {
    End(g, root, p).Some? && End(g, root, p).value in via && NoLater(via[End(g, root, p).value], p)
  }

  /** The path goes on from one a node was first reached by. */
  ghost predicate Onward(g: Graph, root: NodeId, via: map<NodeId, seq<nat>>, p: seq<nat>)
    requires Closed(g) && root < |g| && p != []
  {
    var init := p[..|p| - 1];
    End(g, root, init).Some? && End(g, root, init).value in via && via[End(g, root, init).value] == init
  }

  lemma OrderedStart(g: Graph, root: NodeId)
    requires Closed(g) && root < |g|
    ensures Ordered(g, root, [], [], Trail({}, map[], [[]]))
  {
  }

  lemma InOrderTake(order: seq<seq<nat>>, waiting: seq<seq<nat>>)
    requires waiting != [] && InOrder(order + waiting)
    ensures order + waiting == (order + [waiting[0]]) + waiting[1..]
    ensures forall p | p in order :: Sooner(p, waiting[0])
    ensures forall p | p in waiting[1..] :: Sooner(waiting[0], p)
  {
    var all := order + waiting;
    forall p | p in order
      ensures Sooner(p, waiting[0])
    {
      var i :| 0 <= i < |order| && order[i] == p;
      assert all[i] == p && all[|order|] == waiting[0];
    }
    forall p | p in waiting[1..]
      ensures Sooner(waiting[0], p)
    {
      var i :| 0 <= i < |waiting[1..]| && waiting[1..][i] == p;
      assert all[|order|] == waiting[0] && all[|order| + 1 + i] == p;
    }
  }

  lemma ViaPopped(g: Graph, root: NodeId, popped: set<seq<nat>>, via: map<NodeId, seq<nat>>, waiting: seq<seq<nat>>)
    requires Closed(g) && root < |g| && Walked(g, root, popped, via, waiting)
    ensures forall n | n in via :: via[n] in popped && End(g, root, via[n]) == Some(n)
    ensures forall p | p in popped :: End(g, root, p).Some? && End(g, root, p).value in via
    ensures forall p | p in waiting && p != [] :: p[..|p| - 1] in popped
  {
    hide End;
    assert forall p | p in popped || p in waiting :: Met(popped, waiting, p);
  }

  lemma ReportByMore(g: Graph, root: NodeId, order: seq<seq<nat>>, via: map<NodeId, seq<nat>>, q: seq<nat>)
    requires Closed(g) && root < |g|
    requires forall p | p in order + [q] :: End(g, root, p).Some? && End(g, root, p).value in via
    ensures forall p | p in order :: p in order + [q]
    ensures q in order + [q]
    ensures ReportBy(g, root, order + [q], via)
         == ReportBy(g, root, order, via) + Adds(g, root, q, via[End(g, root, q).value] == q)
  {
    assert (order + [q])[..|order|] == order;
    hide End, Adds;
  }

  lemma OrderedAlias(g: Graph, root: NodeId, problems: seq<Problem>, order: seq<seq<nat>>, t: Trail, loc: Loc)
    requires Closed(g) && root < |g| && t.waiting != [] && Ordered(g, root, problems, order, t)
    requires Walked(g, root, t.popped, t.via, t.waiting)
    requires End(g, root, t.waiting[0]).Some? && End(g, root, t.waiting[0]).value in t.via && loc == LocOf(g, root, t.waiting[0])
    ensures Ordered(g, root, problems + [Problem(loc, YamlAlias)], order + [t.waiting[0]],
                    Trail(t.popped + {t.waiting[0]}, t.via, t.waiting[1..]))
  {
    hide Walked, End, LocOf, Out, InOrder, Sooner, OwnProblems, ReportBy, Onward, Closed, AllKnown, AllOnward, NoLater, FirstKnown;
    var q := t.waiting[0];
    InOrderTake(order, t.waiting);
    ViaPopped(g, root, t.popped, t.via, t.waiting);
    var first := t.via[End(g, root, q).value];
    assert first in order && Sooner(first, q);
    SoonerOrder(q, q, q);
    SeenKnown(g, root, t.via, order, q);
    ReportByMore(g, root, order, t.via, q);
  }

  lemma SeenKnown(g: Graph, root: NodeId, via: map<NodeId, seq<nat>>, order: seq<seq<nat>>, q: seq<nat>)
    requires Closed(g) && root < |g| && AllKnown(g, root, via, order)
    requires End(g, root, q).Some? && End(g, root, q).value in via && Sooner(via[End(g, root, q).value], q)
    ensures AllKnown(g, root, via, order + [q])
  {
    hide End, Sooner, Closed;
  }

  lemma NewKnown(g: Graph, root: NodeId, via: map<NodeId, seq<nat>>, order: seq<seq<nat>>, q: seq<nat>, n: NodeId)
    requires Closed(g) && root < |g| && AllKnown(g, root, via, order) && End(g, root, q) == Some(n) && n !in via
    ensures AllKnown(g, root, via[n := q], order + [q])
    ensures forall p | p in order :: End(g, root, p).Some? && End(g, root, p).value in via && End(g, root, p).value != n
  {
    hide End, Sooner, Closed;
    assert forall p | p in order :: FirstKnown(g, root, via, p);
  }

  lemma OrderedOwn(g: Graph, root: NodeId, problems: seq<Problem>, order: seq<seq<nat>>, t: Trail, n: NodeId, own: seq<Problem>)
    requires Closed(g) && root < |g| && t.waiting != [] && Ordered(g, root, problems, order, t)
    requires Walked(g, root, t.popped, t.via, t.waiting)
    requires End(g, root, t.waiting[0]) == Some(n) && n !in t.via && n < |g|
    requires own == OwnProblems(g, n, LocOf(g, root, t.waiting[0]))
    ensures Ordered(g, root, problems + own, order + [t.waiting[0]],
                    Trail(t.popped + {t.waiting[0]}, t.via[n := t.waiting[0]], t.waiting[1..] + Extensions(g, n, t.waiting[0])))
  {
    hide Walked, End, LocOf, Out, InOrder, Sooner, OwnProblems, ReportBy, Onward, Closed, Extensions, AllKnown, AllOnward, NoLater,
         FirstKnown;
    var q := t.waiting[0];
    OwnInOrder(g, root, order, t, n);
    NewKnown(g, root, t.via, order, q, n);
    ReportBySame(g, root, order, t.via, t.via[n := q]);
    OwnOnward(g, root, order, t, n);
    ReportByMore(g, root, order, t.via[n := q], q);
  }

  lemma OwnOnward(g: Graph, root: NodeId, order: seq<seq<nat>>, t: Trail, n: NodeId)
    requires Closed(g) && root < |g| && t.waiting != [] && End(g, root, t.waiting[0]) == Some(n) && n !in t.via && n < |g|
    requires AllOnward(g, root, t.via, order + t.waiting)
    ensures AllOnward(g, root, t.via[n := t.waiting[0]], (order + [t.waiting[0]]) + (t.waiting[1..] + Extensions(g, n, t.waiting[0])))
  {
    hide End, Out, Closed;
    var q := t.waiting[0];
    assert t.waiting == [q] + t.waiting[1..];
    forall p | p in (order + [q]) + (t.waiting[1..] + Extensions(g, n, q))
      ensures p == [] || Onward(g, root, t.via[n := q], p)
    {
      if p in Extensions(g, n, q) {
        var i: nat :| i < |Extensions(g, n, q)| && Extensions(g, n, q)[i] == p;
        assert p == q + [i] && p[..|p| - 1] == q;
      } else {
        assert p in order + t.waiting;
      }
    }
  }

  lemma OwnInOrder(g: Graph, root: NodeId, order: seq<seq<nat>>, t: Trail, n: NodeId)
    requires Closed(g) && root < |g| && t.waiting != [] && n < |g|
    requires (forall p :: p in t.popped <==> p in order) && InOrder(order + t.waiting)
    requires Walked(g, root, t.popped, t.via, t.waiting)
    ensures InOrder((order + [t.waiting[0]]) + (t.waiting[1..] + Extensions(g, n, t.waiting[0])))
  {
    hide *;
    var q := t.waiting[0];
    InOrderTake(order, t.waiting);
    ViaPopped(g, root, t.popped, t.via, t.waiting);
    assert forall p | p in t.waiting && p != [] :: p[..|p| - 1] in order;
    ExtendInOrder(order, t.waiting, Extensions(g, n, q));
  }

  lemma ExtendInOrder(order: seq<seq<nat>>, waiting: seq<seq<nat>>, more: seq<seq<nat>>)
    requires waiting != [] && InOrder(order + waiting) && forall i: nat | i < |more| :: more[i] == waiting[0] + [i]
    requires forall p | p in order :: Sooner(p, waiting[0])
    requires forall p | p in waiting[1..] :: Sooner(waiting[0], p)
    requires forall p | p in waiting && p != [] :: p[..|p| - 1] in order
    ensures InOrder((order + [waiting[0]]) + (waiting[1..] + more))
  {
    hide *;
    forall p, i: nat | p in order + waiting && i < |more|
      ensures Sooner(p, more[i])
    {
      ExtensionLast(order, waiting, p, i);
      assert more[i] == waiting[0] + [i];
    }
    ExtensionsInOrder(waiting[0], more);
    InOrderAppend(order + waiting, more);
    Shift(order, waiting, more);
  }

  lemma Shift(order: seq<seq<nat>>, waiting: seq<seq<nat>>, more: seq<seq<nat>>)
    requires waiting != []
    ensures (order + [waiting[0]]) + (waiting[1..] + more) == (order + waiting) + more
  {
    assert waiting == [waiting[0]] + waiting[1..];
  }

  /** Going one edge further than the next path comes after everything queued. */
  lemma ExtensionLast(order: seq<seq<nat>>, waiting: seq<seq<nat>>, p: seq<nat>, i: nat)
    requires waiting != [] && p in order + waiting
    requires forall p | p in order :: Sooner(p, waiting[0])
    requires forall p | p in waiting && p != [] :: p[..|p| - 1] in order
    ensures Sooner(p, waiting[0] + [i])
  {
    hide *;
    var q := waiting[0];
    if p in order {
      SoonerInside(p, q, i);
    } else if p == [] {
      NothingFirst(q, i);
    } else {
      SoonerBeside(p, q, i);
    }
  }

  lemma SoonerInside(p: seq<nat>, q: seq<nat>, i: nat)
    requires Sooner(p, q)
    ensures Sooner(p, q + [i])
  {
    hide *;
    SoonerExtended(q, q, i, i);
    SoonerOrder(p, q, q + [i]);
  }

  lemma SoonerBeside(p: seq<nat>, q: seq<nat>, i: nat)
    requires p != [] && Sooner(p[..|p| - 1], q)
    ensures Sooner(p, q + [i])
  {
    hide *;
    SoonerExtended(p[..|p| - 1], q, p[|p| - 1], i);
    assert p[..|p| - 1] + [p[|p| - 1]] == p;
  }

  lemma NothingFirst(q: seq<nat>, i: nat)
    ensures Sooner([], q + [i])
  {
  }

  lemma ExtensionsInOrder(q: seq<nat>, more: seq<seq<nat>>)
    requires forall i: nat | i < |more| :: more[i] == q + [i]
    ensures InOrder(more)
  {
    hide Sooner;
    forall i: nat, j: nat | i < j < |more|
      ensures Sooner(more[i], more[j])
    {
      SoonerExtended(q, q, i, j);
    }
  }

  lemma InOrderAppend(a: seq<seq<nat>>, b: seq<seq<nat>>)
    requires InOrder(a) && InOrder(b)
    requires forall p, i: nat | p in a && i < |b| :: Sooner(p, b[i])
    ensures InOrder(a + b)
  {
    hide Sooner;
    forall i, j | 0 <= i < j < |a + b|
      ensures Sooner((a + b)[i], (a + b)[j])
    {
      if i < |a| && j >= |a| {
        assert a[i] in a && (a + b)[j] == b[j - |a|];
      }
    }
  }

  /** Once the walk is over, the path each node was first reached by is the first of all the paths to it. */
  lemma {:induction false} ViaIsFirst(g: Graph, root: NodeId, popped: set<seq<nat>>, via: map<NodeId, seq<nat>>, q: seq<nat>)
    requires Closed(g) && root < |g| && Done(g, root, popped, via) && End(g, root, q).Some?
    requires forall p | p in popped :: FirstKnown(g, root, via, p)
    ensures End(g, root, q).value in via && NoLater(via[End(g, root, q).value], q)
  {
    hide *;
    if q == [] {
      RootPopped(g, root, popped, via);
      KnownIs(g, root, via, q);
    } else {
      var init, i := q[..|q| - 1], q[|q| - 1];
      PathInit(g, root, q);
      ViaIsFirst(g, root, popped, via, init);
      var m := End(g, root, init).value;
      var p := via[m] + [i];
      SameEnd(g, root, popped, via, q);
      KnownIs(g, root, via, p);
      assert init + [i] == q;
      NoLaterChain(via[End(g, root, q).value], via[m], init, i);
    }
  }

  lemma KnownIs(g: Graph, root: NodeId, via: map<NodeId, seq<nat>>, p: seq<nat>)
    requires Closed(g) && root < |g| && FirstKnown(g, root, via, p)
    ensures End(g, root, p).Some? && End(g, root, p).value in via && NoLater(via[End(g, root, p).value], p)
  {
    hide End, NoLater;
  }

  /** The last edge of a path, taken from the first path to where it starts, was popped and ends alike. */
  lemma SameEnd(g: Graph, root: NodeId, popped: set<seq<nat>>, via: map<NodeId, seq<nat>>, q: seq<nat>)
    requires Closed(g) && root < |g| && Done(g, root, popped, via) && q != [] && End(g, root, q).Some?
    requires var init := End(g, root, q[..|q| - 1]); init.Some? && init.value in via
    ensures var p := via[End(g, root, q[..|q| - 1]).value] + [q[|q| - 1]];
            p in popped && End(g, root, p) == End(g, root, q)
  {
    PathInit(g, root, q);
    var init, i := q[..|q| - 1], q[|q| - 1];
    var m := End(g, root, init).value;
    DoneFollows(g, root, popped, via, m, i);
    hide Done;
    EndStep(g, root, via[m], m, i);
    EndStep(g, root, init, m, i);
    assert init + [i] == q;
  }

  lemma DoneFollows(g: Graph, root: NodeId, popped: set<seq<nat>>, via: map<NodeId, seq<nat>>, m: NodeId, i: nat)
    requires Closed(g) && root < |g| && Done(g, root, popped, via) && m in via && m < |g| && i < |Out(g, m)|
    ensures via[m] + [i] in popped && End(g, root, via[m]) == Some(m)
  {
    hide End, Out, Closed;
  }

  lemma EndStep(g: Graph, root: NodeId, p: seq<nat>, m: NodeId, i: nat)
    requires Closed(g) && root < |g| && End(g, root, p) == Some(m) && m < |g| && i < |Out(g, m)|
    ensures End(g, root, p + [i]) == Some(Out(g, m)[i].node)
  {
    assert (p + [i])[..|p|] == p;
    OutInRange(g, m);
    hide Out, Closed;
  }

  lemma NoLaterChain(first: seq<nat>, a: seq<nat>, b: seq<nat>, i: nat)
    requires NoLater(first, a + [i]) && NoLater(a, b)
    ensures NoLater(first, b + [i])
  {
    SoonerExtended(a, b, i, i);
    SoonerOrder(first, a + [i], b + [i]);
    hide Sooner;
  }

  lemma OrderedEnd(g: Graph, root: NodeId, problems: seq<Problem>, order: seq<seq<nat>>, t: Trail)
    requires Closed(g) && root < |g| && Walked(g, root, t.popped, t.via, t.waiting) && t.waiting == []
    requires Ordered(g, root, problems, order, t)
    ensures IsReport(g, root, order, problems)
  {
    hide Walked, InOrder, Done, IsFirst, FirstKnown, AllKnown, AllOnward, ReportBy, ReportOf, Closed, Visited, End;
    WalkedDone(g, root, t.popped, t.via);
    assert order + [] == order;
    FirstsMatch(g, root, t.popped, t.via, order);
    forall p
      ensures p in order <==> Visited(g, root, p)
    {
      VisitedIsPopped(g, root, problems, order, t, p);
    }
    ReportByFirst(g, root, order, t.via);
  }

  lemma FirstsMatch(g: Graph, root: NodeId, popped: set<seq<nat>>, via: map<NodeId, seq<nat>>, order: seq<seq<nat>>)
    requires Closed(g) && root < |g| && Done(g, root, popped, via) && AllKnown(g, root, via, order)
    requires forall p :: p in popped <==> p in order
    ensures forall p | p in order :: End(g, root, p).Some? && End(g, root, p).value in via
                                     && (via[End(g, root, p).value] == p <==> IsFirst(g, root, p))
  {
    hide *;
    KnownAll(g, root, via, popped, order);
    forall p | p in order
      ensures End(g, root, p).Some? && End(g, root, p).value in via && (via[End(g, root, p).value] == p <==> IsFirst(g, root, p))
    {
      KnownIs(g, root, via, p);
      FirstIsVia(g, root, popped, via, p);
    }
  }

  lemma FirstIsVia(g: Graph, root: NodeId, popped: set<seq<nat>>, via: map<NodeId, seq<nat>>, p: seq<nat>)
    requires Closed(g) && root < |g| && Done(g, root, popped, via) && End(g, root, p).Some?
    requires forall p | p in popped :: FirstKnown(g, root, via, p)
    ensures End(g, root, p).value in via && (via[End(g, root, p).value] == p <==> IsFirst(g, root, p))
  {
    ViaIsFirst(g, root, popped, via, p);
    hide Out, Closed, FirstKnown, NoLater;
    var first := via[End(g, root, p).value];
    assert End(g, root, first) == End(g, root, p);
    hide End, Done;
    forall q
      ensures ComesFirst(g, root, first, q)
    {
      if End(g, root, q) == End(g, root, p) {
        ViaIsFirst(g, root, popped, via, q);
      }
    }
    OneFirst(g, root, first, p);
  }

  lemma OneFirst(g: Graph, root: NodeId, p: seq<nat>, q: seq<nat>)
    requires Closed(g) && root < |g| && IsFirst(g, root, p) && End(g, root, p) == End(g, root, q)
    ensures p == q <==> IsFirst(g, root, q)
  {
    hide *;
    FirstIs(g, root, p, q);
    if IsFirst(g, root, q) {
      FirstIs(g, root, q, p);
      BothNoLater(p, q);
    }
  }

  lemma BothNoLater(p: seq<nat>, q: seq<nat>)
    requires NoLater(p, q) && NoLater(q, p)
    ensures p == q
  {
    hide Sooner;
    SoonerOrder(p, q, p);
  }

  lemma FirstIs(g: Graph, root: NodeId, p: seq<nat>, q: seq<nat>)
    requires Closed(g) && root < |g| && IsFirst(g, root, p) && End(g, root, p) == End(g, root, q)
    ensures NoLater(p, q)
  {
    hide End, NoLater;
    assert ComesFirst(g, root, p, q);
  }

  lemma VisitedIsPopped(g: Graph, root: NodeId, problems: seq<Problem>, order: seq<seq<nat>>, t: Trail, p: seq<nat>)
    requires Closed(g) && root < |g| && Walked(g, root, t.popped, t.via, t.waiting) && t.waiting == []
    requires Done(g, root, t.popped, t.via) && Ordered(g, root, problems, order, t)
    ensures p in order <==> Visited(g, root, p)
  {
    hide Walked, IsFirst, NoLater, InOrder, ReportBy, Closed, Out, End, Done, AllKnown;
    if p == [] {
      RootPopped(g, root, t.popped, t.via);
      NoPath(g, root);
    } else if End(g, root, p).Some? {
      var init, i := p[..|p| - 1], p[|p| - 1];
      PathInit(g, root, p);
      KnownAll(g, root, t.via, t.popped, order);
      FirstIsVia(g, root, t.popped, t.via, init);
      DoneFollows(g, root, t.popped, t.via, End(g, root, init).value, i);
      assert init + [i] == p;
      assert p in order ==> p in order + t.waiting && Onward(g, root, t.via, p);
    }
  }

  lemma NoPath(g: Graph, root: NodeId)
    requires Closed(g) && root < |g|
    ensures End(g, root, []) == Some(root)
  {
  }

  lemma KnownAll(g: Graph, root: NodeId, via: map<NodeId, seq<nat>>, popped: set<seq<nat>>, order: seq<seq<nat>>)
    requires Closed(g) && root < |g| && AllKnown(g, root, via, order) && forall p :: p in popped <==> p in order
    ensures forall p | p in popped :: FirstKnown(g, root, via, p)
  {
    hide FirstKnown;
  }

  /** There is one such report: of the paths the walk comes to and their order, nothing is left open. */
  lemma {:induction false} SamePaths(a: seq<seq<nat>>, b: seq<seq<nat>>)
    requires InOrder(a) && InOrder(b) && forall p :: p in a <==> p in b
    ensures a == b
  {
    assert a != [] ==> a[0] in b;
    assert b != [] ==> b[0] in a;
    if a != [] {
      var p, q := a[|a| - 1], b[|b| - 1];
      LastIsLast(a, q);
      LastIsLast(b, p);
      SoonerOrder(p, q, p);
      WithoutLast(a);
      WithoutLast(b);
      var init, init' := a[..|a| - 1], b[..|b| - 1];
      assert p == q;
      forall x: seq<nat>
        ensures x in init <==> x in init'
      {
        assert x in a <==> x in b;
      }
      SamePaths(init, init');
      assert a == init + [p] && b == init' + [q];
    }
  }

  lemma LastIsLast(a: seq<seq<nat>>, p: seq<nat>)
    requires InOrder(a) && p in a
    ensures NoLater(p, a[|a| - 1])
  {
    hide Sooner;
    var i :| 0 <= i < |a| && a[i] == p;
  }

  lemma WithoutLast(a: seq<seq<nat>>)
    requires InOrder(a) && a != []
    ensures InOrder(a[..|a| - 1]) && forall p :: p in a[..|a| - 1] <==> p in a && p != a[|a| - 1]
  {
    var init, last := a[..|a| - 1], a[|a| - 1];
    assert a == init + [last];
    SoonerOrder(last, last, last);
    hide Sooner;
    forall p | p in init
      ensures p != last
    {
      var i :| 0 <= i < |init| && init[i] == p;
      assert Sooner(a[i], last);
    }
  }

  lemma OneReport(g: Graph, root: NodeId, a: seq<seq<nat>>, b: seq<seq<nat>>, p: seq<Problem>, q: seq<Problem>)
    requires Closed(g) && root < |g| && IsReport(g, root, a, p) && IsReport(g, root, b, q)
    ensures p == q
  {
    hide InOrder, Visited, End, IsFirst;
    SamePaths(a, b);
  }

  lemma InvAlias(g: Graph, root: NodeId, problems: seq<Problem>, seen: set<NodeId>, queue: seq<Item>, t: Trail)
    requires Closed(g) && root < |g| && Inv(g, root, problems, seen, queue, t)
    requires queue != [] && queue[0].node in seen
    ensures t.waiting != []
    ensures Inv(g, root, problems + [Problem(queue[0].loc, YamlAlias)], seen, queue[1..],
                Trail(t.popped + {t.waiting[0]}, t.via, t.waiting[1..]))
  {
    StepSeen(g, root, t.popped, t.via, t.waiting, queue, problems);
    AliasOne(g, problems, queue[0].loc, seen, |queue|);
  }

  lemma InvExpand(g: Graph, root: NodeId, problems: seq<Problem>, seen: set<NodeId>, queue: seq<Item>, t: Trail,
                  own: seq<Problem>)
    requires Closed(g) && root < |g| && Inv(g, root, problems, seen, queue, t)
    requires queue != [] && queue[0].node !in seen && queue[0].node < |g|
    requires own == OwnProblems(g, queue[0].node, queue[0].loc)
    ensures t.waiting != []
    ensures Inv(g, root, problems + own, seen + {queue[0].node}, queue[1..] + Pushed(Out(g, queue[0].node), queue[0].loc),
                Trail(t.popped + {t.waiting[0]}, t.via[queue[0].node := t.waiting[0]],
                      t.waiting[1..] + Extensions(g, queue[0].node, t.waiting[0])))
  {
    hide Walked, Accounted, AllFirst, FirstOrClash, Justified, CountKind, Faults, Out, OwnProblems, End, LocOf;
    LinedHead(g, root, t.waiting, queue);
    OwnJustified(g, root, problems, own, t.waiting[0], queue[0].node, queue[0].loc);
    OwnProblemsCount(g, queue[0].node, queue[0].loc);
    InvGrow(g, root, problems, seen, queue, t, own);
  }

  lemma InvGrow(g: Graph, root: NodeId, problems: seq<Problem>, seen: set<NodeId>, queue: seq<Item>, t: Trail,
                own: seq<Problem>)
    requires Closed(g) && root < |g| && Inv(g, root, problems, seen, queue, t)
    requires queue != [] && queue[0].node !in seen && queue[0].node < |g|
    requires forall k :: CountKind(own, k) == Faults(g, queue[0].node, k)
    requires Justified(g, root, problems + own) && CountKind(problems + own, YamlAlias) == CountKind(problems, YamlAlias)
    ensures t.waiting != []
    ensures Inv(g, root, problems + own, seen + {queue[0].node}, queue[1..] + Pushed(Out(g, queue[0].node), queue[0].loc),
                Trail(t.popped + {t.waiting[0]}, t.via[queue[0].node := t.waiting[0]],
                      t.waiting[1..] + Extensions(g, queue[0].node, t.waiting[0])))
  {
    hide Walked, Lined, Accounted, AllFirst, FirstOrClash, Justified, CountKind, Faults, Out;
    LinedExtend(g, root, t.waiting, queue);
    StepNew(g, root, t.popped, t.via, t.waiting, queue, CountKind(problems, YamlAlias));
    ExpandOne(g, queue[0].node, queue[0].loc, problems, own, seen, |queue|);
  }

  lemma InvNode(g: Graph, root: NodeId, problems: seq<Problem>, seen: set<NodeId>, queue: seq<Item>, t: Trail)
    requires Closed(g) && root < |g| && Inv(g, root, problems, seen, queue, t)
    ensures |seen| <= |g|
    ensures queue != [] ==> t.waiting != [] && queue[0].node < |g|
  {
    SeenFits(g, seen);
    if queue != [] {
      assert LinedAt(g, root, t.waiting[0], queue[0]);
    }
  }

  lemma InvStart(g: Graph, root: NodeId)
    requires Closed(g) && root < |g|
    ensures Inv(g, root, [], {}, [Item(root, [])], Trail({}, map[], [[]]))
  {
    WalkStart(g, root);
    AccountStart(g);
  }

  lemma InvEnd(g: Graph, root: NodeId, problems: seq<Problem>, seen: set<NodeId>, t: Trail)
    requires Closed(g) && root < |g| && Inv(g, root, problems, seen, [], t)
    ensures Accounted(g, problems, Reachable(g, root), 0)
    ensures CountKind(problems, YamlAlias) == 0 <==> IsTree(g, root)
    ensures Justified(g, root, problems)
  {
    Finish(g, root, problems, t.popped, t.via);
  }

  lemma AliasOrdered(g: Graph, root: NodeId, problems: seq<Problem>, seen: set<NodeId>, queue: seq<Item>, t: Trail, order: seq<seq<nat>>)
    requires Closed(g) && root < |g| && Inv(g, root, problems, seen, queue, t) && Ordered(g, root, problems, order, t)
    requires queue != [] && queue[0].node in seen
    ensures t.waiting != []
    ensures Ordered(g, root, problems + [Problem(queue[0].loc, YamlAlias)], order + [t.waiting[0]],
                    Trail(t.popped + {t.waiting[0]}, t.via, t.waiting[1..]))
  {
    hide Walked, Lined, Accounted, AllFirst, FirstOrClash, Justified, Ordered, End, LocOf;
    LinedHead(g, root, t.waiting, queue);
    OrderedAlias(g, root, problems, order, t, queue[0].loc);
  }

  lemma OwnOrdered(g: Graph, root: NodeId, problems: seq<Problem>, seen: set<NodeId>, queue: seq<Item>, t: Trail, order: seq<seq<nat>>,
                   own: seq<Problem>)
    requires Closed(g) && root < |g| && Inv(g, root, problems, seen, queue, t) && Ordered(g, root, problems, order, t)
    requires queue != [] && queue[0].node !in seen && queue[0].node < |g|
    requires own == OwnProblems(g, queue[0].node, queue[0].loc)
    ensures t.waiting != []
    ensures Ordered(g, root, problems + own, order + [t.waiting[0]],
                    Trail(t.popped + {t.waiting[0]}, t.via[queue[0].node := t.waiting[0]],
                          t.waiting[1..] + Extensions(g, queue[0].node, t.waiting[0])))
  {
    hide Walked, Lined, Accounted, AllFirst, FirstOrClash, Justified, Ordered, End, LocOf, OwnProblems;
    LinedHead(g, root, t.waiting, queue);
    OrderedOwn(g, root, problems, order, t, queue[0].node, own);
  }

  lemma EndOrdered(g: Graph, root: NodeId, problems: seq<Problem>, seen: set<NodeId>, t: Trail, order: seq<seq<nat>>)
    requires Closed(g) && root < |g| && Inv(g, root, problems, seen, [], t) && Ordered(g, root, problems, order, t)
    ensures IsReport(g, root, order, problems)
  {
    hide Walked, Accounted, AllFirst, FirstOrClash, Justified, Ordered, IsReport;
    assert t.waiting == [];
    OrderedEnd(g, root, problems, order, t);
  }

  /** The walk over the composed graph, breadth first, each node expanded the first time it is popped. */
  method Walk(g: Graph, root: NodeId) returns (problems: seq<Problem>)
    requires Closed(g) && root < |g|
    ensures Accounted(g, problems, Reachable(g, root), 0)
    ensures CountKind(problems, YamlAlias) == 0 <==> IsTree(g, root)
    ensures Justified(g, root, problems)
    ensures exists paths :: IsReport(g, root, paths, problems)
  {
    hide *;
    problems := [];
    var seen: set<NodeId> := {};
    var queue := [Item(root, [])];
    ghost var t := Trail({}, map[], [[]]);
    ghost var order: seq<seq<nat>> := [];
    InvStart(g, root);
    OrderedStart(g, root);
    while queue != []
      invariant Inv(g, root, problems, seen, queue, t) && Ordered(g, root, problems, order, t)
      decreases |g| - |seen|, |queue|
    {
      InvNode(g, root, problems, seen, queue, t);
      var node, loc := queue[0].node, queue[0].loc;
      if node in seen {
        InvAlias(g, root, problems, seen, queue, t);
        AliasOrdered(g, root, problems, seen, queue, t, order);
        order := order + [t.waiting[0]];
        t := Trail(t.popped + {t.waiting[0]}, t.via, t.waiting[1..]);
        problems := problems + [Problem(loc, YamlAlias)];
        queue := queue[1..];
      } else {
        var own, pushed := Expand(g, node, loc);
        InvExpand(g, root, problems, seen, queue, t, own);
        OwnOrdered(g, root, problems, seen, queue, t, order, own);
        order := order + [t.waiting[0]];
        t := Trail(t.popped + {t.waiting[0]}, t.via[node := t.waiting[0]], t.waiting[1..] + Extensions(g, node, t.waiting[0]));
        problems := problems + own;
        queue := queue[1..] + pushed;
        seen := seen + {node};
        InvNode(g, root, problems, seen, queue, t);
      }
    }
    InvEnd(g, root, problems, seen, t);
    EndOrdered(g, root, problems, seen, t, order);
  }

  lemma WalkStart(g: Graph, root: NodeId)
    requires Closed(g) && root < |g|
    ensures Walked(g, root, {}, map[], [[]]) && Lined(g, root, [[]], [Item(root, [])])
    ensures FirstOrClash(g, root, 0, {}, map[]) && Justified(g, root, [])
  {
  }

  lemma StepSeen(g: Graph, root: NodeId, popped: set<seq<nat>>, via: map<NodeId, seq<nat>>, waiting: seq<seq<nat>>,
                 queue: seq<Item>, problems: seq<Problem>)
    requires Closed(g) && root < |g| && Walked(g, root, popped, via, waiting)
    requires queue != [] && Lined(g, root, waiting, queue) && queue[0].node in via && Justified(g, root, problems)
    ensures Walked(g, root, popped + {waiting[0]}, via, waiting[1..]) && Lined(g, root, waiting[1..], queue[1..])
    ensures !IsTree(g, root)
    ensures Justified(g, root, problems + [Problem(queue[0].loc, YamlAlias)])
  {
    assert LinedAt(g, root, waiting[0], queue[0]);
    PopSeen(g, root, popped, via, waiting);
    assert JustifiedAt(g, root, Problem(queue[0].loc, YamlAlias));
  }

  lemma FirstNew(g: Graph, root: NodeId, popped: set<seq<nat>>, via: map<NodeId, seq<nat>>, path: seq<nat>, n: NodeId)
    requires Closed(g) && root < |g| && AllFirst(g, root, popped, via)
    requires forall p | p in popped :: End(g, root, p).Some? && End(g, root, p).value in via
    requires End(g, root, path) == Some(n) && n !in via
    ensures AllFirst(g, root, popped + {path}, via[n := path])
  {
  }

  lemma StepNew(g: Graph, root: NodeId, popped: set<seq<nat>>, via: map<NodeId, seq<nat>>, waiting: seq<seq<nat>>,
                queue: seq<Item>, aliases: nat)
    requires Closed(g) && root < |g| && Walked(g, root, popped, via, waiting)
    requires queue != [] && Lined(g, root, waiting, queue) && queue[0].node !in via && queue[0].node < |g|
    requires FirstOrClash(g, root, aliases, popped, via)
    ensures Walked(g, root, popped + {waiting[0]}, via[queue[0].node := waiting[0]],
                   waiting[1..] + Extensions(g, queue[0].node, waiting[0]))
    ensures FirstOrClash(g, root, aliases, popped + {waiting[0]}, via[queue[0].node := waiting[0]])
  {
    assert LinedAt(g, root, waiting[0], queue[0]);
    assert forall p | p in popped :: Met(popped, waiting, p);
    if aliases == 0 {
      FirstNew(g, root, popped, via, waiting[0], queue[0].node);
    }
    PopNew(g, root, popped, via, waiting, queue[0].node);
  }

  lemma LinedHead(g: Graph, root: NodeId, waiting: seq<seq<nat>>, queue: seq<Item>)
    requires Closed(g) && root < |g| && queue != [] && Lined(g, root, waiting, queue)
    ensures waiting != [] && End(g, root, waiting[0]) == Some(queue[0].node) && LocOf(g, root, waiting[0]) == queue[0].loc
  {
    assert LinedAt(g, root, waiting[0], queue[0]);
  }

  lemma OwnJustified(g: Graph, root: NodeId, problems: seq<Problem>, own: seq<Problem>, path: seq<nat>, n: NodeId, loc: Loc)
    requires Closed(g) && root < |g| && Justified(g, root, problems)
    requires End(g, root, path) == Some(n) && LocOf(g, root, path) == loc && own == OwnProblems(g, n, loc)
    ensures Justified(g, root, problems + own)
    ensures CountKind(problems + own, YamlAlias) == CountKind(problems, YamlAlias)
  {
    hide End, LocOf, OwnProblems, CountKind;
    OwnProblemsCount(g, n, loc);
    forall i | |problems| <= i < |problems + own|
      ensures JustifiedAt(g, root, (problems + own)[i])
    {
      assert (problems + own)[i] in own;
      assert IsOwn(g, root, path, (problems + own)[i]);
    }
    CountKindAppend(problems, own, YamlAlias);
    NoKind(own);
  }

  lemma NoKind(own: seq<Problem>)
    requires forall p | p in own :: p.kind != YamlAlias
    ensures CountKind(own, YamlAlias) == 0
  {
  }

  /** One node, seen for the first time: its problems, and what the walk follows out of it. */
  method Expand(g: Graph, node: NodeId, loc: Loc) returns (own: seq<Problem>, pushed: seq<Item>)
    requires Closed(g) && node < |g|
    ensures own == OwnProblems(g, node, loc)
    ensures pushed == Pushed(Out(g, node), loc)
  {
    own, pushed := [], [];
    assert ClosedNode(g, g[node]);
    if g[node].Mapping? {
      own, pushed := ExpandMapping(g, g[node].entries, loc);
    } else if g[node].Sequence? {
      var items := g[node].items;
      pushed := seq(|items|, i requires 0 <= i < |items| => Item(items[i], loc + [Index(i)]));
    }
  }

  /** Entry i of mapping n is usable: its key is text, no merge key, and no earlier entry has the same key. */
  ghost predicate CleanNode(g: Graph, n: NodeId)
    requires Closed(g) && n < |g|
  {
    assert ClosedNode(g, g[n]);
    g[n].Mapping? ==> forall i: nat | i < |g[n].entries| :: EntryFault(g, g[n].entries, i) == None
  }

  lemma {:induction false} FaultsZero(g: Graph, entries: seq<Entry>, i: nat, k: Kind)
    requires ClosedEntries(g, entries) && i <= |entries|
    ensures FaultsUpTo(g, entries, i, k) == 0 <==> forall j: nat | j < i :: EntryFault(g, entries, j) != Some(k)
  {
    if i > 0 {
      FaultsZero(g, entries, i - 1, k);
    }
  }

  lemma CleanIffNoFaults(g: Graph, n: NodeId)
    requires Closed(g) && n < |g|
    ensures CleanNode(g, n) <==> forall k :: Faults(g, n, k) == 0
  {
    assert ClosedNode(g, g[n]);
    if g[n].Mapping? {
      forall k: Kind
        ensures Faults(g, n, k) == 0 <==> forall j: nat | j < |g[n].entries| :: EntryFault(g, g[n].entries, j) != Some(k)
      {
        FaultsZero(g, g[n].entries, |g[n].entries|, k);
      }
    }
  }

  /** A document is accepted exactly when its graph is a tree of clean nodes. */
  lemma AcceptedIff(g: Graph, root: NodeId, problems: seq<Problem>)
    requires Closed(g) && root < |g|
    requires Accounted(g, problems, Reachable(g, root), 0)
    requires CountKind(problems, YamlAlias) == 0 <==> IsTree(g, root)
    ensures problems == [] <==> IsTree(g, root) && forall n | n in Reachable(g, root) :: CleanNode(g, n)
  {
    hide End, IsTree;
    var seen := Reachable(g, root);
    CountAll(problems);
    forall k: Kind | k != YamlAlias
      ensures CountKind(problems, k) == 0 <==> forall n | n in seen :: Faults(g, n, k) == 0
    {
      SumZero(g, FaultsOf(k), seen, |g|);
      assert forall n | n in seen :: WeightOf(g, FaultsOf(k), n) == Faults(g, n, k);
    }
    forall n | n in seen
      ensures CleanNode(g, n) <==> forall k | k != YamlAlias :: Faults(g, n, k) == 0
    {
      CleanIffNoFaults(g, n);
      NoAliasFault(g, n);
    }
    assert problems == [] <==> forall k :: CountKind(problems, k) == 0;
  }
}
