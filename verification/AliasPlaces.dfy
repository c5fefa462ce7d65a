/** Where the walk reports an alias, and where the text uses it. */
module AliasPlaces {
  import opened Prelude
  import opened TextDocuments

  // ---- The text -----------------------------------------------------------

  /** Document order: of two places the one that is written first; a node's own place comes before the places inside it. */
  ghost predicate Before(p: seq<nat>, q: seq<nat>) {
    q != [] && (p == [] || p[0] < q[0] || (p[0] == q[0] && Before(p[1..], q[1..])))
  }

  /** A place of the text: the root's, or one edge inside a node that is written out. */
  ghost predicate Written(g: Graph, root: NodeId, at: map<NodeId, seq<nat>>, p: seq<nat>)
    requires Closed(g) && root < |g|
  {
    && End(g, root, p).Some? && End(g, root, p).value in at
    && (p == [] || (var m := End(g, root, p[..|p| - 1]); m.Some? && m.value in at && at[m.value] == p[..|p| - 1]))
  }

  /** The text a graph was composed from, by the place where each node is written out, its anchor if it has one. That is a
      place of the text, and no other place of the node, where the text has an alias, comes before it. */
  ghost predicate TextOf(g: Graph, root: NodeId, at: map<NodeId, seq<nat>>)
    requires Closed(g) && root < |g|
  {
    && root in at && at[root] == []
    && (forall n {:trigger WrittenOut(g, root, at, n)} | n in at :: WrittenOut(g, root, at, n))
    && (forall m, i: nat {:trigger InText(g, at, m, i)} | m in at && m < |g| && i < |Out(g, m)| :: InText(g, at, m, i))
  }

  ghost predicate WrittenOut(g: Graph, root: NodeId, at: map<NodeId, seq<nat>>, n: NodeId)
    requires Closed(g) && root < |g| && n in at
  {
    n < |g| && End(g, root, at[n]) == Some(n) && Written(g, root, at, at[n])
  }

  ghost predicate InText(g: Graph, at: map<NodeId, seq<nat>>, m: NodeId, i: nat)
    requires Closed(g) && m in at && m < |g| && i < |Out(g, m)|
  {
    var n := Out(g, m)[i].node;
    n in at && (at[n] == at[m] + [i] || Before(at[n], at[m] + [i]))
  }

  /** A place where the text has an alias. */
  ghost predicate IsUse(g: Graph, root: NodeId, at: map<NodeId, seq<nat>>, p: seq<nat>)
    requires Closed(g) && root < |g|
  {
    Written(g, root, at, p) && at[End(g, root, p).value] != p
  }

  ghost function Uses(g: Graph, root: NodeId, at: map<NodeId, seq<nat>>): set<seq<nat>>
    requires Closed(g) && root < |g|
  {
    set m, i | m in at && m < |g| && 0 <= i < |Out(g, m)| && IsUse(g, root, at, at[m] + [i]) :: at[m] + [i]
  }

  ghost function UsesAt(g: Graph, root: NodeId, at: map<NodeId, seq<nat>>, loc: Loc): set<seq<nat>>
    requires Closed(g) && root < |g|
  {
    set p | p in Uses(g, root, at) && End(g, root, p).Some? && LocOf(g, root, p) == loc
  }

  /** The alias stands less deep than where its node is written out. */
  ghost predicate Shallow(g: Graph, root: NodeId, at: map<NodeId, seq<nat>>, p: seq<nat>)
    requires Closed(g) && root < |g|
  {
    IsUse(g, root, at, p) && |p| < |at[End(g, root, p).value]|
  }

  lemma UsesAre(g: Graph, root: NodeId, at: map<NodeId, seq<nat>>, p: seq<nat>)
    requires Closed(g) && root < |g| && TextOf(g, root, at)
    ensures p in Uses(g, root, at) <==> IsUse(g, root, at, p)
  {
    hide Out, InText, Closed, End;
    if IsUse(g, root, at, p) {
      NoPath(g, root);
      PathInit(g, root, p);
      var m, i := End(g, root, p[..|p| - 1]).value, p[|p| - 1];
      assert p == at[m] + [i];
      hide TextOf, IsUse;
      assert m in at && m < |g| && 0 <= i < |Out(g, m)| && IsUse(g, root, at, at[m] + [i]);
    }
    hide TextOf, IsUse;
  }

  // ---- The two orders -----------------------------------------------------

  lemma {:induction false} BeforeOrder(p: seq<nat>, q: seq<nat>)
    ensures Before(p, q) || Before(q, p) || p == q
    ensures !(Before(p, q) && Before(q, p))
  {
    if p != [] && q != [] {
      BeforeOrder(p[1..], q[1..]);
      assert p == [p[0]] + p[1..] && q == [q[0]] + q[1..];
    }
  }

  lemma {:induction false} BeforeExtended(p: seq<nat>, q: seq<nat>, i: nat, j: nat)
    requires |p| == |q|
    ensures Before(p, q) ==> Before(p + [i], q + [j])
    ensures i < j ==> Before(p + [i], p + [j])
  {
    if p != [] {
      BeforeExtended(p[1..], q[1..], i, j);
      assert (p + [i])[1..] == p[1..] + [i] && (q + [j])[1..] == q[1..] + [j] && (p + [j])[1..] == p[1..] + [j];
    }
  }

  /** On places of one depth document order is breadth-first order. */
  lemma {:induction false} LexIsBefore(p: seq<nat>, q: seq<nat>)
    requires |p| == |q| && Lex(p, q)
    ensures Before(p, q)
  {
    var init, init', i, j := p[..|p| - 1], q[..|q| - 1], p[|p| - 1], q[|q| - 1];
    assert p == init + [i] && q == init' + [j];
    if Lex(init, init') {
      LexIsBefore(init, init');
    }
    BeforeExtended(init, init', i, j);
  }

  lemma {:induction false} LexTotal(p: seq<nat>, q: seq<nat>)
    requires |p| == |q|
    ensures Lex(p, q) || Lex(q, p) || p == q
  {
    if p != [] {
      var init, init', i, j := p[..|p| - 1], q[..|q| - 1], p[|p| - 1], q[|q| - 1];
      assert p == init + [i] && q == init' + [j];
      LexTotal(init, init');
    }
  }

  lemma SoonerTotal(p: seq<nat>, q: seq<nat>)
    ensures NoLater(p, q) || NoLater(q, p)
    ensures NoLater(p, q) ==> |p| <= |q|
  {
    if |p| == |q| {
      LexTotal(p, q);
    }
  }

  lemma BeforeIsSooner(p: seq<nat>, q: seq<nat>)
    requires Before(p, q) && |p| <= |q|
    ensures NoLater(p, q)
  {
    if |p| == |q| {
      LexTotal(p, q);
      BeforeOrder(p, q);
      if Lex(q, p) {
        LexIsBefore(q, p);
      }
    }
  }

  lemma NoLaterOrder(p: seq<nat>, q: seq<nat>, r: seq<nat>)
    ensures NoLater(p, p)
    ensures NoLater(p, q) && NoLater(q, r) ==> NoLater(p, r)
    ensures NoLater(p, q) && NoLater(q, p) ==> p == q
  {
    hide Sooner;
    SoonerOrder(p, q, r);
  }

  lemma {:induction false} Soonest(s: set<seq<nat>>) returns (least: seq<nat>)
    requires s != {}
    ensures least in s && forall q | q in s :: NoLater(least, q)
  {
    hide Sooner, NoLater;
    var p :| p in s;
    least := p;
    NoLaterOrder(p, p, p);
    if s != {p} {
      var rest := Soonest(s - {p});
      SoonerTotal(p, rest);
      if NoLater(rest, p) {
        least := rest;
      } else {
        forall q | q in s - {p}
          ensures NoLater(p, q)
        {
          NoLaterOrder(p, rest, q);
        }
      }
    }
  }

  // ---- One text -----------------------------------------------------------

  ghost predicate NotAfter(p: seq<nat>, q: seq<nat>) {
    p == q || Before(p, q)
  }

  lemma {:induction false} BeforeChain(p: seq<nat>, q: seq<nat>, r: seq<nat>)
    requires Before(p, q) && Before(q, r)
    ensures Before(p, r)
  {
    if p != [] && p[0] == q[0] == r[0] {
      BeforeChain(p[1..], q[1..], r[1..]);
    }
  }

  lemma {:induction false} BeforeInside(p: seq<nat>, i: nat)
    ensures Before(p, p + [i])
  {
    if p != [] {
      BeforeInside(p[1..], i);
      assert (p + [i])[1..] == p[1..] + [i];
    }
  }

  lemma {:induction false} Earliest(s: set<seq<nat>>) returns (least: seq<nat>)
    requires s != {}
    ensures least in s && forall q | q in s :: NotAfter(least, q)
  {
    hide Before;
    var p :| p in s;
    least := p;
    if s != {p} {
      var rest := Earliest(s - {p});
      BeforeOrder(p, rest);
      if NotAfter(rest, p) {
        least := rest;
      } else {
        forall q | q in s - {p}
          ensures NotAfter(p, q)
        {
          if rest != q {
            BeforeChain(p, rest, q);
          }
        }
      }
    }
  }

  /** Of the nodes that two texts write at different places, this one comes first: in the first text, and no later there than
      in the other. */
  ghost predicate FirstApart(at: map<NodeId, seq<nat>>, other: map<NodeId, seq<nat>>, n: NodeId)
    requires at.Keys == other.Keys
  {
    && n in at && at[n] != other[n] && NotAfter(at[n], other[n])
    && (forall m | m in at && at[m] != other[m] :: NotAfter(at[n], at[m]))
  }

  /** Two texts of one graph cannot first differ in where they write a node: what is before it is the same in both. */
  lemma NoFirstApart(g: Graph, root: NodeId, at: map<NodeId, seq<nat>>, other: map<NodeId, seq<nat>>, n: NodeId)
    requires Closed(g) && root < |g| && TextOf(g, root, at) && TextOf(g, root, other) && at.Keys == other.Keys
    ensures !FirstApart(at, other, n)
  {
    hide *;
    if FirstApart(at, other, n) {
      ApartIs(at, other, n);
      RootWritten(g, root, at);
      RootWritten(g, root, other);
      NoPath(g, root);
      var m, i := Inside(g, root, at, n);
      BeforeInside(at[m], i);
      BeforeOrder(at[m], at[n]);
      ApartIs(at, other, m);
      Place(g, root, other, m, i);
      BeforeOrder(other[n], at[n]);
    }
  }

  lemma ApartIs(at: map<NodeId, seq<nat>>, other: map<NodeId, seq<nat>>, n: NodeId)
    requires at.Keys == other.Keys
    ensures FirstApart(at, other, n) ==> n in at && at[n] != other[n] && (at[n] == other[n] || Before(at[n], other[n]))
    ensures forall k | FirstApart(at, other, k) && n in at && at[n] != other[n] :: at[k] == at[n] || Before(at[k], at[n])
  {
    hide Before;
  }

  /** What a node is written inside of. */
  lemma Inside(g: Graph, root: NodeId, at: map<NodeId, seq<nat>>, n: NodeId) returns (m: NodeId, i: nat)
    requires Closed(g) && root < |g| && TextOf(g, root, at) && n in at && n != root
    ensures m in at && m < |g| && i < |Out(g, m)| && at[n] == at[m] + [i] && Out(g, m)[i].node == n
  {
    hide *;
    var p := at[n];
    WrittenEnds(g, root, at, n);
    NoPath(g, root);
    PathInit(g, root, p);
    InsideWritten(g, root, at, n);
    m, i := End(g, root, p[..|p| - 1]).value, p[|p| - 1];
    EndStep(g, root, p[..|p| - 1], m, i);
    assert p == p[..|p| - 1] + [i];
  }

  lemma InsideWritten(g: Graph, root: NodeId, at: map<NodeId, seq<nat>>, n: NodeId)
    requires Closed(g) && root < |g| && TextOf(g, root, at) && n in at && at[n] != []
    ensures var m := End(g, root, at[n][..|at[n]| - 1]); m.Some? && m.value in at && at[m.value] == at[n][..|at[n]| - 1]
  {
    hide Out, Closed, InText, End;
    assert WrittenOut(g, root, at, n);
  }

  lemma FirstDifference(at: map<NodeId, seq<nat>>, other: map<NodeId, seq<nat>>, some: NodeId) returns (n: NodeId)
    requires at.Keys == other.Keys && some in at && at[some] != other[some]
    ensures FirstApart(at, other, n) || FirstApart(other, at, n)
  {
    hide Before;
    var differing := set n | n in at && at[n] != other[n];
    var places := (set n | n in differing :: at[n]) + (set n | n in differing :: other[n]);
    assert some in differing && at[some] in places;
    var p := Earliest(places);
    n :| n in differing && (p == at[n] || p == other[n]);
    forall m | m in differing
      ensures NotAfter(p, at[m]) && NotAfter(p, other[m])
    {
      assert at[m] in places && other[m] in places;
    }
    hide NotAfter;
  }

  /** The graph alone determines where its text writes each node. */
  lemma OneText(g: Graph, root: NodeId, at: map<NodeId, seq<nat>>, other: map<NodeId, seq<nat>>)
    requires Closed(g) && root < |g| && TextOf(g, root, at) && TextOf(g, root, other)
    ensures at == other
  {
    SameNodes(g, root, at, other);
    SameNodes(g, root, other, at);
    hide *;
    assert at.Keys == other.Keys;
    forall some | some in at
      ensures at[some] == other[some]
    {
      if at[some] != other[some] {
        var n := FirstDifference(at, other, some);
        NoFirstApart(g, root, at, other, n);
        NoFirstApart(g, root, other, at, n);
      }
    }
  }

  lemma SameNodes(g: Graph, root: NodeId, at: map<NodeId, seq<nat>>, other: map<NodeId, seq<nat>>)
    requires Closed(g) && root < |g| && TextOf(g, root, at) && TextOf(g, root, other)
    ensures at.Keys <= other.Keys
  {
    hide End, Out, Closed, Written, InText;
    forall n | n in at
      ensures n in other
    {
      assert WrittenOut(g, root, at, n);
      AllWritten(g, root, other, at[n]);
    }
  }

  // ---- Anchors that come first --------------------------------------------

  /** No alias less deep than the limit is shallow. */
  ghost predicate DeepTo(g: Graph, root: NodeId, at: map<NodeId, seq<nat>>, limit: nat)
    requires Closed(g) && root < |g|
  {
    forall p {:trigger Shallow(g, root, at, p)} | |p| < limit :: !Shallow(g, root, at, p)
  }

  lemma {:induction false} AllWritten(g: Graph, root: NodeId, at: map<NodeId, seq<nat>>, q: seq<nat>)
    requires Closed(g) && root < |g| && TextOf(g, root, at) && End(g, root, q).Some?
    ensures End(g, root, q).value in at
  {
    hide *;
    if q == [] {
      NoPath(g, root);
      RootWritten(g, root, at);
    } else {
      var init, i := q[..|q| - 1], q[|q| - 1];
      PathInit(g, root, q);
      AllWritten(g, root, at, init);
      var m := End(g, root, init).value;
      Place(g, root, at, m, i);
      EndStep(g, root, init, m, i);
      assert init + [i] == q;
    }
  }

  /** One edge inside a node that is written out: where it leads, and that its node's own place comes before it. */
  lemma Place(g: Graph, root: NodeId, at: map<NodeId, seq<nat>>, m: NodeId, i: nat)
    requires Closed(g) && root < |g| && TextOf(g, root, at) && m in at && m < |g| && i < |Out(g, m)|
    ensures var p, n := at[m] + [i], Out(g, m)[i].node;
            && End(g, root, p) == Some(n) && Written(g, root, at, p) && n in at
            && (at[n] == p || (IsUse(g, root, at, p) && Before(at[n], p)))
  {
    var p := at[m] + [i];
    assert WrittenOut(g, root, at, m);
    EndStep(g, root, at[m], m, i);
    assert p[..|p| - 1] == at[m];
    assert InText(g, at, m, i);
    hide End, Out, Closed;
  }

  /** A path that is not deeper than the limit comes no sooner than its node's own place. */
  lemma {:induction false} WrittenFirst(g: Graph, root: NodeId, at: map<NodeId, seq<nat>>, q: seq<nat>, limit: nat)
    requires Closed(g) && root < |g| && TextOf(g, root, at) && DeepTo(g, root, at, limit) && End(g, root, q).Some?
    requires End(g, root, q).value in at && |q| <= limit && (|q| < limit || |at[End(g, root, q).value]| <= limit)
    ensures NoLater(at[End(g, root, q).value], q)
  {
    hide *;
    if q == [] {
      NoPath(g, root);
      RootWritten(g, root, at);
      NoLaterOrder([], [], []);
    } else {
      var init, i, n := q[..|q| - 1], q[|q| - 1], End(g, root, q).value;
      assert init + [i] == q;
      PathInit(g, root, q);
      AllWritten(g, root, at, init);
      var m := End(g, root, init).value;
      WrittenFirst(g, root, at, init, limit);
      var place := at[m] + [i];
      Place(g, root, at, m, i);
      EndStep(g, root, init, m, i);
      SoonerTotal(at[m], init);
      DeepEnough(g, root, at, place, limit);
      if at[n] == place {
        NoLaterOrder(place, place, place);
      } else {
        BeforeIsSooner(at[n], place);
      }
      NoLaterChain(at[n], at[m], init, i);
    }
  }

  lemma RootWritten(g: Graph, root: NodeId, at: map<NodeId, seq<nat>>)
    requires Closed(g) && root < |g| && TextOf(g, root, at)
    ensures root in at && at[root] == []
  {
    hide End, Out, Written, Closed;
  }

  lemma DeepEnough(g: Graph, root: NodeId, at: map<NodeId, seq<nat>>, p: seq<nat>, limit: nat)
    requires Closed(g) && root < |g| && DeepTo(g, root, at, limit)
    ensures IsUse(g, root, at, p) && End(g, root, p).Some? && End(g, root, p).value in at && |p| < limit
            ==> |at[End(g, root, p).value]| <= |p|
  {
    hide IsUse, End;
    assert Shallow(g, root, at, p) || !Shallow(g, root, at, p);
  }

  ghost predicate AllFirstWritten(g: Graph, root: NodeId, at: map<NodeId, seq<nat>>)
    requires Closed(g) && root < |g|
  {
    forall n {:trigger IsFirst(g, root, at[n])} | n in at :: IsFirst(g, root, at[n])
  }

  ghost predicate NoneShallow(g: Graph, root: NodeId, at: map<NodeId, seq<nat>>)
    requires Closed(g) && root < |g|
  {
    forall p | p in Uses(g, root, at) :: !Shallow(g, root, at, p)
  }

  /** Every node is written out where the walk first comes to it exactly when no alias is less deep than its anchor. */
  lemma FirstIffNoneShallow(g: Graph, root: NodeId, at: map<NodeId, seq<nat>>)
    requires Closed(g) && root < |g| && TextOf(g, root, at)
    ensures NoneShallow(g, root, at) <==> AllFirstWritten(g, root, at)
  {
    if NoneShallow(g, root, at) {
      forall n | n in at
        ensures IsFirst(g, root, at[n])
      {
        NoneShallowFirst(g, root, at, n);
      }
    }
    if AllFirstWritten(g, root, at) {
      forall p | p in Uses(g, root, at)
        ensures !Shallow(g, root, at, p)
      {
        FirstNotShallow(g, root, at, p);
      }
    }
  }

  lemma NoneShallowFirst(g: Graph, root: NodeId, at: map<NodeId, seq<nat>>, n: NodeId)
    requires Closed(g) && root < |g| && TextOf(g, root, at) && NoneShallow(g, root, at) && n in at
    ensures IsFirst(g, root, at[n])
  {
    hide Uses, Out, NoLater, Written, Closed;
    forall p
      ensures !Shallow(g, root, at, p)
    {
      UsesAre(g, root, at, p);
    }
    hide Shallow, End;
    WrittenEnds(g, root, at, n);
    forall q
      ensures ComesFirst(g, root, at[n], q)
    {
      if End(g, root, q) == End(g, root, at[n]) {
        WrittenFirst(g, root, at, q, |q| + 1);
      }
    }
  }

  lemma FirstNotShallow(g: Graph, root: NodeId, at: map<NodeId, seq<nat>>, p: seq<nat>)
    requires Closed(g) && root < |g| && TextOf(g, root, at) && AllFirstWritten(g, root, at)
    ensures !Shallow(g, root, at, p)
  {
    hide Out, NoLater, End, Closed, Uses;
    if Shallow(g, root, at, p) {
      var n := End(g, root, p).value;
      WrittenEnds(g, root, at, n);
      FirstIs(g, root, at[n], p);
      SoonerTotal(at[n], p);
    }
  }

  // ---- What is reported ---------------------------------------------------

  /** A path the walk comes to after another one to the same node. */
  ghost predicate Repeats(g: Graph, root: NodeId, p: seq<nat>)
    requires Closed(g) && root < |g|
  {
    Visited(g, root, p) && !IsFirst(g, root, p)
  }

  ghost function RepeatsAt(g: Graph, root: NodeId, paths: seq<seq<nat>>, loc: Loc): set<seq<nat>>
    requires Closed(g) && root < |g|
  {
    set p | p in paths && End(g, root, p).Some? && !IsFirst(g, root, p) && LocOf(g, root, p) == loc
  }

  lemma RepeatsNext(g: Graph, root: NodeId, paths: seq<seq<nat>>, loc: Loc)
    requires Closed(g) && root < |g| && paths != [] && InOrder(paths) && End(g, root, paths[|paths| - 1]).Some?
    ensures |RepeatsAt(g, root, paths, loc)|
         == |RepeatsAt(g, root, paths[..|paths| - 1], loc)|
            + (var p := paths[|paths| - 1]; if !IsFirst(g, root, p) && LocOf(g, root, p) == loc then 1 else 0)
  {
    hide End, IsFirst, LocOf, InOrder;
    WithoutLast(paths);
    var init, p := paths[..|paths| - 1], paths[|paths| - 1];
    var before := RepeatsAt(g, root, init, loc);
    assert p in paths && p !in init;
    assert RepeatsAt(g, root, paths, loc)
        == before + (if !IsFirst(g, root, p) && LocOf(g, root, p) == loc then {p} else {});
  }

  lemma AddsAlias(g: Graph, root: NodeId, p: seq<nat>, first: bool, loc: Loc)
    requires Closed(g) && root < |g| && End(g, root, p).Some?
    ensures multiset(Adds(g, root, p, first))[Problem(loc, YamlAlias)] == if !first && LocOf(g, root, p) == loc then 1 else 0
  {
    hide End, LocOf, OwnProblems;
    if first {
      OwnProblemsCount(g, End(g, root, p).value, LocOf(g, root, p));
      assert Problem(loc, YamlAlias) !in Adds(g, root, p, first);
    }
  }

  /** At each place as many aliases are reported as paths the walk repeats a node by. */
  lemma {:induction false} ReportedAliases(g: Graph, root: NodeId, paths: seq<seq<nat>>, loc: Loc)
    requires Closed(g) && root < |g| && InOrder(paths) && forall p | p in paths :: End(g, root, p).Some?
    ensures multiset(ReportOf(g, root, paths))[Problem(loc, YamlAlias)] == |RepeatsAt(g, root, paths, loc)|
  {
    hide End, IsFirst, LocOf, InOrder, Adds;
    if paths != [] {
      var init, p := paths[..|paths| - 1], paths[|paths| - 1];
      WithoutLast(paths);
      ReportedAliases(g, root, init, loc);
      RepeatsNext(g, root, paths, loc);
      AddsAlias(g, root, p, IsFirst(g, root, p), loc);
      assert ReportOf(g, root, paths) == ReportOf(g, root, init) + Adds(g, root, p, IsFirst(g, root, p));
      hide RepeatsAt;
    }
  }

  // ---- Reported where used ------------------------------------------------

  /** At each place as many aliases are reported as the text has there. */
  ghost predicate ReportedWhereUsed(g: Graph, root: NodeId, at: map<NodeId, seq<nat>>, problems: seq<Problem>)
    requires Closed(g) && root < |g|
  {
    forall loc :: multiset(problems)[Problem(loc, YamlAlias)] == |UsesAt(g, root, at, loc)|
  }

  lemma WrittenIsFirst(g: Graph, root: NodeId, at: map<NodeId, seq<nat>>, n: NodeId, limit: nat)
    requires Closed(g) && root < |g| && TextOf(g, root, at) && DeepTo(g, root, at, limit) && n in at && |at[n]| <= limit
    ensures End(g, root, at[n]) == Some(n) && IsFirst(g, root, at[n])
  {
    hide DeepTo, Out, Written, End, NoLater, Closed;
    WrittenEnds(g, root, at, n);
    forall q
      ensures ComesFirst(g, root, at[n], q)
    {
      if |q| > limit {
        LongerLater(at[n], q);
      } else if End(g, root, q) == End(g, root, at[n]) {
        WrittenFirst(g, root, at, q, limit);
      }
    }
  }

  lemma LongerLater(p: seq<nat>, q: seq<nat>)
    requires |p| < |q|
    ensures NoLater(p, q)
  {
  }

  /** Down to the limit, the walk repeats a node only where the text has an alias. */
  lemma RepeatIsUse(g: Graph, root: NodeId, at: map<NodeId, seq<nat>>, p: seq<nat>, limit: nat)
    requires Closed(g) && root < |g| && TextOf(g, root, at) && DeepTo(g, root, at, limit) && Repeats(g, root, p) && |p| <= limit
    ensures IsUse(g, root, at, p)
  {
    hide DeepTo, Out, End, NoLater, Closed, TextOf, IsFirst;
    AllWritten(g, root, at, p);
    var n := End(g, root, p).value;
    if at[n] == p {
      WrittenIsFirst(g, root, at, n, limit);
    }
    if p != [] {
      var init := p[..|p| - 1];
      PathInit(g, root, p);
      AllWritten(g, root, at, init);
      var m := End(g, root, init).value;
      WrittenFirst(g, root, at, init, limit);
      WrittenEnds(g, root, at, m);
      FirstIs(g, root, init, at[m]);
      NoLaterOrder(at[m], init, at[m]);
    }
  }

  lemma WrittenEnds(g: Graph, root: NodeId, at: map<NodeId, seq<nat>>, n: NodeId)
    requires Closed(g) && root < |g| && TextOf(g, root, at) && n in at
    ensures n < |g| && End(g, root, at[n]) == Some(n)
  {
    hide Out, End, Closed, Written;
    assert WrittenOut(g, root, at, n);
  }

  lemma UseIsRepeat(g: Graph, root: NodeId, at: map<NodeId, seq<nat>>, p: seq<nat>)
    requires Closed(g) && root < |g| && TextOf(g, root, at) && AllFirstWritten(g, root, at) && IsUse(g, root, at, p)
    ensures Repeats(g, root, p)
  {
    hide Out, End, NoLater, Closed, TextOf, IsFirst;
    var n := End(g, root, p).value;
    WrittenEnds(g, root, at, n);
    if p == [] {
      NoPath(g, root);
      RootWritten(g, root, at);
    }
    if IsFirst(g, root, p) {
      FirstIs(g, root, p, at[n]);
      FirstIs(g, root, at[n], p);
      NoLaterOrder(p, at[n], p);
    }
  }

  lemma FirstsReported(g: Graph, root: NodeId, at: map<NodeId, seq<nat>>, paths: seq<seq<nat>>, problems: seq<Problem>)
    requires Closed(g) && root < |g| && TextOf(g, root, at) && IsReport(g, root, paths, problems)
    requires NoneShallow(g, root, at) && AllFirstWritten(g, root, at)
    ensures ReportedWhereUsed(g, root, at, problems)
  {
    forall loc
      ensures multiset(problems)[Problem(loc, YamlAlias)] == |UsesAt(g, root, at, loc)|
    {
      ReportedAliases(g, root, paths, loc);
      forall p
        ensures p in RepeatsAt(g, root, paths, loc) <==> p in UsesAt(g, root, at, loc)
      {
        UsesAre(g, root, at, p);
        SamePlace(g, root, at, paths, problems, p);
      }
      hide *;
      assert RepeatsAt(g, root, paths, loc) == UsesAt(g, root, at, loc);
    }
  }

  lemma SamePlace(g: Graph, root: NodeId, at: map<NodeId, seq<nat>>, paths: seq<seq<nat>>, problems: seq<Problem>, p: seq<nat>)
    requires Closed(g) && root < |g| && TextOf(g, root, at) && IsReport(g, root, paths, problems)
    requires NoneShallow(g, root, at) && AllFirstWritten(g, root, at)
    ensures p in paths && !IsFirst(g, root, p) <==> IsUse(g, root, at, p)
  {
    hide End, IsFirst, Out, Closed, TextOf, IsUse, AllFirstWritten, Visited, InOrder, ReportOf;
    forall q
      ensures !Shallow(g, root, at, q)
    {
      UsesAre(g, root, at, q);
    }
    assert Repeats(g, root, p) <==> p in paths && !IsFirst(g, root, p);
    if Repeats(g, root, p) {
      RepeatIsUse(g, root, at, p, |p|);
    }
    if IsUse(g, root, at, p) {
      UseIsRepeat(g, root, at, p);
    }
  }

  lemma {:induction false} LocLength(g: Graph, root: NodeId, p: seq<nat>)
    requires Closed(g) && root < |g| && End(g, root, p).Some?
    ensures |LocOf(g, root, p)| == |p|
  {
    if p != [] {
      LocLength(g, root, p[..|p| - 1]);
    }
  }

  lemma UseEnds(g: Graph, root: NodeId, at: map<NodeId, seq<nat>>, p: seq<nat>)
    requires Closed(g) && root < |g| && IsUse(g, root, at, p)
    ensures End(g, root, p).Some? && End(g, root, p).value in at
    ensures Shallow(g, root, at, p) <==> |p| < |at[End(g, root, p).value]|
  {
    hide End, Closed;
  }

  /** The first shallow alias is the first path to its node: the walk takes it for the place where the node is written. */
  lemma ShallowIsFirst(g: Graph, root: NodeId, at: map<NodeId, seq<nat>>, u: seq<nat>)
    requires Closed(g) && root < |g| && TextOf(g, root, at) && DeepTo(g, root, at, |u|)
    requires Shallow(g, root, at, u) && forall p | Shallow(g, root, at, p) :: NoLater(u, p)
    ensures End(g, root, u).Some? && IsFirst(g, root, u)
  {
    hide DeepTo, NoLater, Out, End, Closed, TextOf, IsUse;
    assert IsUse(g, root, at, u);
    UseEnds(g, root, at, u);
    var n := End(g, root, u).value;
    forall q
      ensures ComesFirst(g, root, u, q)
    {
      if |q| > |u| {
        LongerLater(u, q);
      } else if End(g, root, q) == End(g, root, u) {
        if |q| < |u| {
          WrittenFirst(g, root, at, q, |u|);
          SoonerTotal(at[n], q);
        } else {
          SameDepthLater(g, root, at, u, q);
        }
      }
    }
  }

  lemma SameDepthLater(g: Graph, root: NodeId, at: map<NodeId, seq<nat>>, u: seq<nat>, q: seq<nat>)
    requires Closed(g) && root < |g| && TextOf(g, root, at) && DeepTo(g, root, at, |u|)
    requires Shallow(g, root, at, u) && forall p | Shallow(g, root, at, p) :: NoLater(u, p)
    requires |q| == |u| && End(g, root, q) == End(g, root, u)
    ensures NoLater(u, q)
  {
    hide DeepTo, NoLater, Out, End, Closed, TextOf, IsUse;
    assert IsUse(g, root, at, u);
    UseEnds(g, root, at, u);
    if q == [] {
      NoLaterOrder(u, u, u);
    } else {
      var init, i := q[..|q| - 1], q[|q| - 1];
      assert init + [i] == q;
      PathInit(g, root, q);
      AllWritten(g, root, at, init);
      var m := End(g, root, init).value;
      WrittenFirst(g, root, at, init, |u|);
      SoonerTotal(at[m], init);
      Place(g, root, at, m, i);
      EndStep(g, root, init, m, i);
      NoLaterChain(u, at[m], init, i);
    }
  }

  lemma RepeatsAmongUses(g: Graph, root: NodeId, at: map<NodeId, seq<nat>>, paths: seq<seq<nat>>, problems: seq<Problem>, loc: Loc)
    requires Closed(g) && root < |g| && TextOf(g, root, at) && IsReport(g, root, paths, problems) && DeepTo(g, root, at, |loc|)
    ensures RepeatsAt(g, root, paths, loc) <= UsesAt(g, root, at, loc)
  {
    hide End, IsFirst, Out, Closed, TextOf, IsUse, Uses, DeepTo, Visited, InOrder, ReportOf, LocOf;
    forall p | p in RepeatsAt(g, root, paths, loc)
      ensures p in UsesAt(g, root, at, loc)
    {
      assert Repeats(g, root, p);
      LocLength(g, root, p);
      RepeatIsUse(g, root, at, p, |loc|);
      UsesAre(g, root, at, p);
    }
  }

  /** The first shallow alias of all is not reported, and nothing else is in its stead. */
  lemma ShallowMissed(g: Graph, root: NodeId, at: map<NodeId, seq<nat>>, paths: seq<seq<nat>>, problems: seq<Problem>, u: seq<nat>)
    requires Closed(g) && root < |g| && TextOf(g, root, at) && IsReport(g, root, paths, problems)
    requires Shallow(g, root, at, u) && forall p | Shallow(g, root, at, p) :: NoLater(u, p)
    ensures !ReportedWhereUsed(g, root, at, problems)
  {
    hide Shallow, NoLater, End, IsFirst, LocOf, TextOf, Out, Closed, Visited, InOrder, ReportOf, Uses;
    forall p | Shallow(g, root, at, p)
      ensures |u| <= |p|
    {
      SoonerTotal(u, p);
    }
    assert DeepTo(g, root, at, |u|);
    ShallowIsFirst(g, root, at, u);
    LocLength(g, root, u);
    var loc := LocOf(g, root, u);
    ReportedAliases(g, root, paths, loc);
    RepeatsAmongUses(g, root, at, paths, problems, loc);
    ShallowUse(g, root, at, u);
    Fewer(RepeatsAt(g, root, paths, loc), UsesAt(g, root, at, loc), u);
  }

  lemma ShallowUse(g: Graph, root: NodeId, at: map<NodeId, seq<nat>>, u: seq<nat>)
    requires Closed(g) && root < |g| && TextOf(g, root, at) && Shallow(g, root, at, u)
    ensures u in Uses(g, root, at)
  {
    UsesAre(g, root, at, u);
    hide *;
    ShallowIsUse(g, root, at, u);
  }

  lemma ShallowIsUse(g: Graph, root: NodeId, at: map<NodeId, seq<nat>>, u: seq<nat>)
    requires Closed(g) && root < |g| && Shallow(g, root, at, u)
    ensures IsUse(g, root, at, u)
  {
    hide IsUse, End;
  }

  lemma Fewer(a: set<seq<nat>>, b: set<seq<nat>>, x: seq<nat>)
    requires a <= b && x in b && x !in a
    ensures |a| < |b|
  {
    SubsetSize(a, b - {x});
  }

  /** Aliases are reported where the text uses them exactly when none stands less deep than its anchor, and that is when
      every node is written out at the place the walk first comes to it. */
  lemma AliasesWhereUsed(g: Graph, root: NodeId, at: map<NodeId, seq<nat>>, paths: seq<seq<nat>>, problems: seq<Problem>)
    requires Closed(g) && root < |g| && TextOf(g, root, at) && IsReport(g, root, paths, problems)
    ensures ReportedWhereUsed(g, root, at, problems) <==> NoneShallow(g, root, at)
    ensures NoneShallow(g, root, at) <==> AllFirstWritten(g, root, at)
  {
    hide *;
    FirstIffNoneShallow(g, root, at);
    if NoneShallow(g, root, at) {
      FirstsReported(g, root, at, paths, problems);
    } else {
      var u := FirstShallow(g, root, at);
      ShallowMissed(g, root, at, paths, problems, u);
    }
  }

  lemma FirstShallow(g: Graph, root: NodeId, at: map<NodeId, seq<nat>>) returns (u: seq<nat>)
    requires Closed(g) && root < |g| && TextOf(g, root, at) && !NoneShallow(g, root, at)
    ensures Shallow(g, root, at, u) && forall p | Shallow(g, root, at, p) :: NoLater(u, p)
  {
    hide Shallow, TextOf, NoLater, Uses, Closed;
    var shallow := set p | p in Uses(g, root, at) && Shallow(g, root, at, p);
    var p :| p in Uses(g, root, at) && Shallow(g, root, at, p);
    assert p in shallow;
    u := Soonest(shallow);
    forall p | Shallow(g, root, at, p)
      ensures NoLater(u, p)
    {
      ShallowUse(g, root, at, p);
    }
  }

  // ---- A text with an alias less deep than its anchor ---------------------

  /** The document {a: [&x v], b: *x}: the alias stands less deep than its anchor, and the anchor's own place is reported. */
  lemma AnchorReported(g: Graph, paths: seq<seq<nat>>, problems: seq<Problem>)
    requires g == [Mapping("map", [Entry(1, 2), Entry(3, 4)], 1), Scalar("str", "a", 1), Sequence("seq", [4], 1),
                   Scalar("str", "b", 2), Scalar("str", "v", 1)]
    requires Closed(g) && IsReport(g, 0, paths, problems)
    ensures var at := map[0 := [], 2 := [0], 4 := [0, 0]];
            TextOf(g, 0, at) && Shallow(g, 0, at, [1]) && !ReportedWhereUsed(g, 0, at, problems)
    ensures Problem([Name("a"), Index(0)], YamlAlias) in problems
  {
    var p, use := [0, 0], [1];
    AnchorPaths(g);
    assert Sooner(use, p) && !NoLater(p, use) by {
      SoonerOrder(p, use, p);
    }
    assert !ComesFirst(g, 0, p, use);
    assert !IsFirst(g, 0, p);
    AnchorFirst(g);
    assert p[..1] == [0];
    assert Visited(g, 0, p);
    hide Visited, IsFirst, Sooner, NoLater;
    var loc := [Name("a"), Index(0)];
    ReportedAliases(g, 0, paths, loc);
    assert p in RepeatsAt(g, 0, paths, loc);
    AnchorText(g);
    var at := map[0 := [], 2 := [0], 4 := [0, 0]];
    UsesAre(g, 0, at, use);
    AliasesWhereUsed(g, 0, at, paths, problems);
  }

  lemma AnchorText(g: Graph)
    requires g == [Mapping("map", [Entry(1, 2), Entry(3, 4)], 1), Scalar("str", "a", 1), Sequence("seq", [4], 1),
                   Scalar("str", "b", 2), Scalar("str", "v", 1)]
    requires Closed(g)
    ensures var at := map[0 := [], 2 := [0], 4 := [0, 0]]; TextOf(g, 0, at) && Shallow(g, 0, at, [1])
  {
    hide End, Out, Before;
    var at := map[0 := [], 2 := [0], 4 := [0, 0]];
    AnchorPaths(g);
    NoPath(g, 0);
    assert [0][..0] == [] && [1][..0] == [] && [0, 0][..1] == [0];
    assert Written(g, 0, at, []) && Written(g, 0, at, [0]) && Written(g, 0, at, [1]) && Written(g, 0, at, [0, 0]);
    hide Written;
    assert [] + [0] == [0] && [] + [1] == [1] && [0] + [0] == [0, 0];
    AnchorBefore();
    assert InText(g, at, 0, 0) && InText(g, at, 0, 1) && InText(g, at, 2, 0);
  }

  lemma AnchorBefore()
    ensures Before([0, 0], [1])
  {
  }

  lemma AnchorFirst(g: Graph)
    requires g == [Mapping("map", [Entry(1, 2), Entry(3, 4)], 1), Scalar("str", "a", 1), Sequence("seq", [4], 1),
                   Scalar("str", "b", 2), Scalar("str", "v", 1)]
    requires Closed(g)
    ensures IsFirst(g, 0, [0])
  {
    AnchorPaths(g);
    assert End(g, 0, []) == Some(0);
    hide End;
    forall q
      ensures ComesFirst(g, 0, [0], q)
    {
      if End(g, 0, q) == End(g, 0, [0]) && |q| == 1 {
        assert [0][..0] == q[..0];
        assert q == [0] || q[0] > 0;
      }
    }
  }

  lemma AnchorPaths(g: Graph)
    requires g == [Mapping("map", [Entry(1, 2), Entry(3, 4)], 1), Scalar("str", "a", 1), Sequence("seq", [4], 1),
                   Scalar("str", "b", 2), Scalar("str", "v", 1)]
    requires Closed(g)
    ensures End(g, 0, [0]) == Some(2) && End(g, 0, [1]) == Some(4) && End(g, 0, [0, 0]) == Some(4)
    ensures LocOf(g, 0, [0, 0]) == [Name("a"), Index(0)]
    ensures Out(g, 0) == [Edge(2, Name("a")), Edge(4, Name("b"))] && Out(g, 2) == [Edge(4, Index(0))] && Out(g, 4) == []
  {
    var entries := g[0].entries;
    assert entries[..1] == [Entry(1, 2)] && [Entry(1, 2)][..0] == [];
    assert EntryEdges(g, entries[..1]) == [Edge(2, Name("a"))];
    assert Out(g, 0) == [Edge(2, Name("a")), Edge(4, Name("b"))];
    assert [0][..0] == [] && [1][..0] == [] && [0, 0][..1] == [0];
    assert Out(g, 2) == [Edge(4, Index(0))];
    assert LocOf(g, 0, [0]) == LocOf(g, 0, []) + [Name("a")] == [Name("a")];
    assert [Name("a")] + [Index(0)] == [Name("a"), Index(0)];
    assert End(g, 0, [0, 0][..1]) == Some(2);
    assert LocOf(g, 0, [0, 0]) == LocOf(g, 0, [0]) + [Index(0)];
  }
}
