/** Removing a QA image's references from the daemon, and only those. */
module ImageRefs {
  import opened Prelude

  /** A repository on the daemon: its registry host, and the name after it. */
  datatype Repository = Repository(host: string, name: string)

  datatype Ref = Tag(repo: Repository, tag: string) | Digest(repo: Repository, digest: string)

  const QA_IMAGE_PREFIX := "embry0-qa-"

  predicate IsQa(ref: Ref) {
    QA_IMAGE_PREFIX <= ref.repo.name
  }

  // ---- The QA view of an image --------------------------------------------

  datatype DaemonImage = DaemonImage(id: string, repoTags: seq<Ref>, repoDigests: seq<Ref>)

  /** The tags carry no registry host: the name and the tag alone. */
  datatype QAImage = QAImage(id: string, name: string, tags: set<(string, string)>, digests: set<string>, refs: seq<Ref>)

  /** The order Python sorts texts in. */
  predicate Less(a: string, b: string) {
    b != [] && (a == [] || a[0] < b[0] || (a[0] == b[0] && Less(a[1..], b[1..])))
  }

  lemma {:induction false} LessOrder(a: string, b: string, c: string)
    ensures !Less(a, a)
    ensures Less(a, b) && Less(b, c) ==> Less(a, c)
  {
    if a != [] && b != [] && c != [] {
      LessOrder(a[1..], b[1..], c[1..]);
    } else if a != [] {
      LessOrder(a[1..], [], []);
    }
  }

  function TagsIn(refs: seq<Ref>): set<(string, string)> {
    set t | t in refs && t.Tag? :: (t.repo.name, t.tag)
  }

  function DigestsIn(refs: seq<Ref>): set<string> {
    set d | d in refs && d.Digest? :: d.digest
  }

  lemma OneMoreRef(refs: seq<Ref>, ref: Ref)
    ensures TagsIn(refs + [ref]) == TagsIn(refs) + (if ref.Tag? then {(ref.repo.name, ref.tag)} else {})
    ensures DigestsIn(refs + [ref]) == DigestsIn(refs) + (if ref.Digest? then {ref.digest} else {})
  {
    assert forall r :: r in refs + [ref] <==> r in refs || r == ref;
  }

  lemma NoRefs()
    ensures TagsIn([]) == {} && DigestsIn([]) == {}
  {
  }

  predicate IsFirstName(name: string, refs: seq<Ref>) {
    (exists r | r in refs :: r.repo.name == name) && forall r | r in refs :: !Less(r.repo.name, name)
  }

  function QaOnly(refs: seq<Ref>): seq<Ref> {
    if refs == [] then [] else
      QaOnly(refs[..|refs| - 1]) + (if IsQa(refs[|refs| - 1]) then [refs[|refs| - 1]] else [])
  }

  lemma {:induction false} QaOnlyMembers(refs: seq<Ref>)
    ensures forall r :: r in QaOnly(refs) <==> r in refs && IsQa(r)
    ensures Distinct(refs) ==> Distinct(QaOnly(refs))
  {
    if refs != [] {
      var init, last := refs[..|refs| - 1], refs[|refs| - 1];
      assert refs == init + [last];
      QaOnlyMembers(init);
      if Distinct(refs) && IsQa(last) {
        assert last !in QaOnly(init);
      }
    }
  }

  ghost predicate Distinct(refs: seq<Ref>) {
    forall i, j | 0 <= i < j < |refs| :: refs[i] != refs[j]
  }

  lemma QaOnlyStart(refs: seq<Ref>)
    ensures QaOnly(refs[..0]) == []
  {
  }

  lemma QaOnlyStep(refs: seq<Ref>, i: nat)
    requires i < |refs|
    ensures QaOnly(refs[..i + 1]) == if IsQa(refs[i]) then QaOnly(refs[..i]) + [refs[i]] else QaOnly(refs[..i])
  {
    assert refs[..i + 1][..i] == refs[..i];
    assert QaOnly(refs[..i]) + [] == QaOnly(refs[..i]);
  }

  lemma QaOnlyEnd(refs: seq<Ref>)
    ensures QaOnly(refs[..|refs|]) == QaOnly(refs)
  {
    assert refs[..|refs|] == refs;
  }

  /** An image's QA view, or None when no reference of it is a QA image's; under its first name, should it have several. */
  method QaImage(image: DaemonImage) returns (r: Option<QAImage>)
    ensures var refs := QaOnly(image.repoTags + image.repoDigests);
            && (r.None? <==> refs == [])
            && (r.Some? ==>
                  && r.value.id == image.id && r.value.refs == refs && IsFirstName(r.value.name, refs)
                  && r.value.tags == TagsIn(refs) && r.value.digests == DigestsIn(refs))
  {
    hide *;
    var all := image.repoTags + image.repoDigests;
    var name, tags: set<(string, string)>, digests: set<string>, refs: seq<Ref> := "", {}, {}, [];
    NoRefs();
    QaOnlyStart(all);
    for i := 0 to |all|
      invariant refs == QaOnly(all[..i]) && (refs != [] ==> IsFirstName(name, refs))
      invariant tags == TagsIn(refs) && digests == DigestsIn(refs)
    {
      QaOnlyStep(all, i);
      if IsQa(all[i]) {
        FirstNameStep(name, refs, all[i]);
        OneMoreRef(refs, all[i]);
        if all[i].Tag? {
          tags := tags + {(all[i].repo.name, all[i].tag)};
        } else {
          digests := digests + {all[i].digest};
        }
        if refs == [] || Less(all[i].repo.name, name) {
          name := all[i].repo.name;
        }
        refs := refs + [all[i]];
      }
    }
    QaOnlyEnd(all);
    r := if refs == [] then None else Some(QAImage(image.id, name, tags, digests, refs));
  }

  lemma FirstNameStep(name: string, refs: seq<Ref>, ref: Ref)
    requires refs != [] ==> IsFirstName(name, refs)
    ensures IsFirstName(if refs == [] || Less(ref.repo.name, name) then ref.repo.name else name, refs + [ref])
  {
    var new_ := ref.repo.name;
    LessOrder(new_, new_, new_);
    assert ref in refs + [ref];
    forall r | r in refs
      ensures Less(r.repo.name, new_) && Less(new_, name) ==> Less(r.repo.name, name)
    {
      LessOrder(r.repo.name, new_, name);
    }
    if refs != [] {
      var r :| r in refs && r.repo.name == name;
      assert r in refs + [ref];
    }
  }

  // ---- rmi ----------------------------------------------------------------

  predicate LastTag(held: set<Ref>, ref: Ref) {
    ref.Tag? && forall r | r in held && r.Tag? && r.repo == ref.repo :: r == ref
  }

  /** The references an image still has after rmi of one: the last tag of a repository takes its digests with it. */
  function Rmi(held: set<Ref>, ref: Ref): set<Ref> {
    if LastTag(held, ref) then set r | r in held && r.repo != ref.repo else held - {ref}
  }

  /** rmi of each reference in turn; the second result is false once one named was already gone. */
  function RmiAll(held: set<Ref>, refs: seq<Ref>): (set<Ref>, bool) {
    if refs == [] then (held, true) else
      var before := RmiAll(held, refs[..|refs| - 1]);
      var ref := refs[|refs| - 1];
      (Rmi(before.0, ref), before.1 && ref in before.0)
  }

  predicate Tagged(refs: seq<Ref>, repo: Repository) {
    exists i | 0 <= i < |refs| :: refs[i].Tag? && refs[i].repo == repo
  }

  /** A reference is named unless it is a digest of a repository that one of the tags names. */
  predicate Named(refs: seq<Ref>, ref: Ref) {
    ref.Tag? || !Tagged(refs, ref.repo)
  }

  function FilterNamed(refs: seq<Ref>, all: seq<Ref>): seq<Ref> {
    if refs == [] then [] else
      FilterNamed(refs[..|refs| - 1], all) + (if Named(all, refs[|refs| - 1]) then [refs[|refs| - 1]] else [])
  }

  function RemovalRefs(refs: seq<Ref>): seq<Ref> {
    FilterNamed(refs, refs)
  }

  lemma {:induction false} FilterNamedMembers(refs: seq<Ref>, all: seq<Ref>)
    ensures forall r :: r in FilterNamed(refs, all) <==> r in refs && Named(all, r)
    ensures Distinct(refs) ==> Distinct(FilterNamed(refs, all))
  {
    if refs != [] {
      var init, last := refs[..|refs| - 1], refs[|refs| - 1];
      assert refs == init + [last];
      FilterNamedMembers(init, all);
      if Distinct(refs) && Named(all, last) {
        assert last !in FilterNamed(init, all);
      }
    }
  }

  /** Every tag the repository has on the image is among some references, and it has one. */
  predicate TagsAmong(image: set<Ref>, refs: seq<Ref>, repo: Repository) {
    && (exists r | r in image :: r.Tag? && r.repo == repo)
    && (forall r | r in image && r.Tag? && r.repo == repo :: r in refs)
  }

  /** What is left of the image once some references were named to rmi. */
  function Left(image: set<Ref>, named: seq<Ref>): set<Ref> {
    set r | r in image && r !in named && !(r.Digest? && TagsAmong(image, named, r.repo))
  }

  lemma RmiStep(image: set<Ref>, named: seq<Ref>, ref: Ref)
    requires ref in Left(image, named)
    ensures Rmi(Left(image, named), ref) == Left(image, named + [ref])
  {
    var held, after := Left(image, named), Left(image, named + [ref]);
    if LastTag(held, ref) {
      forall r | r in image && r.Tag? && r.repo == ref.repo
        ensures r in named + [ref]
      {
        if r !in named {
          assert r in held;
        }
      }
      assert TagsAmong(image, named + [ref], ref.repo);
      forall r | r in image && r.repo != ref.repo
        ensures TagsAmong(image, named + [ref], r.repo) <==> TagsAmong(image, named, r.repo)
      {
      }
    } else if ref.Tag? {
      var other :| other in held && other.Tag? && other.repo == ref.repo && other != ref;
      assert other !in named + [ref];
      forall r | r in image
        ensures TagsAmong(image, named + [ref], r.repo) <==> TagsAmong(image, named, r.repo)
      {
        assert r.repo == ref.repo ==> !TagsAmong(image, named + [ref], r.repo) && !TagsAmong(image, named, r.repo);
      }
    } else {
      forall r | r in image
        ensures TagsAmong(image, named + [ref], r.repo) <==> TagsAmong(image, named, r.repo)
      {
      }
    }
  }

  lemma AmongTagged(image: set<Ref>, named: seq<Ref>, refs: seq<Ref>, repo: Repository)
    requires forall r | r in named :: r in refs
    ensures TagsAmong(image, named, repo) ==> Tagged(refs, repo)
  {
    if TagsAmong(image, named, repo) {
      var t :| t in image && t.Tag? && t.repo == repo;
      assert t in named;
      var i :| 0 <= i < |refs| && refs[i] == t;
    }
  }

  lemma {:induction false} RmiPrefix(image: set<Ref>, refs: seq<Ref>, named: seq<Ref>, n: nat)
    requires n <= |named| && Distinct(named) && (forall r | r in refs :: r in image)
    requires forall r | r in named :: r in refs && Named(refs, r)
    ensures RmiAll(image, named[..n]) == (Left(image, named[..n]), true)
  {
    if n > 0 {
      RmiPrefix(image, refs, named, n - 1);
      var before, ref := named[..n - 1], named[n - 1];
      assert named[..n][..n - 1] == before && named[..n] == before + [ref];
      assert ref in named && ref !in before;
      assert forall r | r in before :: r in named;
      AmongTagged(image, before, refs, ref.repo);
      RmiStep(image, before, ref);
    } else {
      assert named[..0] == [];
      assert Left(image, []) == image;
    }
  }

  /** The references of a repository go together: with one of its tags in refs, all it has on the image is. */
  ghost predicate WholeRepositories(image: set<Ref>, refs: seq<Ref>) {
    forall r | r in image && Tagged(refs, r.repo) :: r in refs
  }

  /** Naming the removal references one by one never names one already gone, and leaves exactly the other references. */
  lemma RemovalExact(image: set<Ref>, refs: seq<Ref>)
    requires Distinct(refs) && (forall r | r in refs :: r in image) && WholeRepositories(image, refs)
    ensures RmiAll(image, RemovalRefs(refs)) == ((set r | r in image && r !in refs), true)
  {
    var named := RemovalRefs(refs);
    FilterNamedMembers(refs, refs);
    RmiPrefix(image, refs, named, |named|);
    assert named[..|named|] == named;
    forall r | r in image
      ensures r in Left(image, named) <==> r !in refs
    {
      LeftExact(image, refs, named, r);
    }
    assert Left(image, named) == set r | r in image && r !in refs;
  }

  lemma LeftExact(image: set<Ref>, refs: seq<Ref>, named: seq<Ref>, r: Ref)
    requires r in image && (forall q | q in refs :: q in image) && WholeRepositories(image, refs)
    requires forall q :: q in named <==> q in refs && Named(refs, q)
    ensures r in Left(image, named) <==> r !in refs
  {
    AmongTagged(image, named, refs, r.repo);
    if r in refs && Tagged(refs, r.repo) {
      var i :| 0 <= i < |refs| && refs[i].Tag? && refs[i].repo == r.repo;
      assert refs[i] in image;
      assert TagsAmong(image, named, r.repo);
    }
  }

  /** So a QA image loses its QA references and keeps every other one. */
  lemma QaRemovalExact(image: DaemonImage)
    requires Distinct(image.repoTags + image.repoDigests)
    ensures var all := image.repoTags + image.repoDigests;
            RmiAll((set r | r in all), RemovalRefs(QaOnly(all))) == ((set r | r in all && !IsQa(r)), true)
  {
    var all := image.repoTags + image.repoDigests;
    QaOnlyMembers(all);
    var held := set r | r in all;
    var refs := QaOnly(all);
    forall r | r in held && Tagged(refs, r.repo)
      ensures r in refs
    {
      var i :| 0 <= i < |refs| && refs[i].Tag? && refs[i].repo == r.repo;
      assert IsQa(refs[i]) by {
        assert refs[i] in refs;
      }
    }
    RemovalExact(held, refs);
    assert (set r | r in held && r !in refs) == set r | r in all && !IsQa(r);
  }

  /** Naming every reference instead fails: after a repository's only tag its digest is gone before it is named. */
  lemma NamingAllFails(repo: Repository, tag: string, digest: string)
    ensures !RmiAll({Tag(repo, tag), Digest(repo, digest)}, [Tag(repo, tag), Digest(repo, digest)]).1
  {
    var held, t, d := {Tag(repo, tag), Digest(repo, digest)}, Tag(repo, tag), Digest(repo, digest);
    assert [t, d][..1] == [t] && [t][..0] == [];
    assert LastTag(held, t);
    assert RmiAll(held, [t]).0 == Rmi(held, t);
    assert d !in Rmi(held, t);
  }
}
