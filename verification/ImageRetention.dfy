/** Which pre-built QA images the retention sweep removes, against the history of recorded builds. */
module ImageRetention {
  import opened Prelude

  /** A qa_image_tags row: the repository it is for (under its one image name), and the reference it recorded. */
  datatype Row = Row(name: string, lockfile: string, nameTag: string, digest: string, builtAt: int, active: bool)

  datatype QAImage = QAImage(name: string, tags: set<string>, digests: set<string>, createdAt: Option<int>)

  predicate Names(r: Row, image: QAImage) {
    r.nameTag in image.tags || (r.digest != "" && r.digest in image.digests)
  }

  // ---- The decision -------------------------------------------------------

  datatype Reason = Pinned | Recent | Unused
  datatype Decision = Decision(remove: bool, reason: Reason, lastUsed: Option<int>)

  predicate IsPinned(rows: seq<Row>, image: QAImage) {
    exists i | 0 <= i < |rows| :: Names(rows[i], image) && rows[i].active
  }

  function Later(a: Option<int>, t: int): Option<int> {
    if a.None? || a.value < t then Some(t) else a
  }

  function Earlier(a: Option<int>, t: int): Option<int> {
    if a.None? || t < a.value then Some(t) else a
  }

  /** The latest of the image's own times: its creation, and the builds of the rows that name it. */
  function Floor(rows: seq<Row>, image: QAImage): Option<int> {
    if rows == [] then image.createdAt else
      var before := Floor(rows[..|rows| - 1], image);
      if Names(rows[|rows| - 1], image) then Later(before, rows[|rows| - 1].builtAt) else before
  }

  predicate IsNewer(r: Row, image: QAImage, floor: int) {
    r.name == image.name && !Names(r, image) && r.builtAt > floor
  }

  /** The earliest build of another image of the name after the floor. */
  function Replaced(rows: seq<Row>, image: QAImage, floor: int): Option<int> {
    if rows == [] then None else
      var before := Replaced(rows[..|rows| - 1], image, floor);
      if IsNewer(rows[|rows| - 1], image, floor) then Earlier(before, rows[|rows| - 1].builtAt) else before
  }

  function LastUsed(rows: seq<Row>, image: QAImage): Option<int> {
    var floor := Floor(rows, image);
    if floor.None? then None else
      var replaced := Replaced(rows, image, floor.value);
      if replaced.Some? then replaced else floor
  }

  function DecideImage(image: QAImage, rows: seq<Row>, cutoff: int): Decision {
    if IsPinned(rows, image) then Decision(false, Pinned, None)
    else
      var lastUsed := LastUsed(rows, image);
      if lastUsed.None? then Decision(false, Recent, None)
      else if lastUsed.value >= cutoff then Decision(false, Recent, lastUsed)
      else Decision(true, Unused, lastUsed)
  }

  lemma {:induction false} FloorExact(rows: seq<Row>, image: QAImage)
    ensures forall i | 0 <= i < |rows| && Names(rows[i], image) ::
              Floor(rows, image).Some? && rows[i].builtAt <= Floor(rows, image).value
    ensures image.createdAt.Some? ==> Floor(rows, image).Some? && image.createdAt.value <= Floor(rows, image).value
    ensures Floor(rows, image).Some? ==>
              image.createdAt == Floor(rows, image)
              || exists i | 0 <= i < |rows| :: Names(rows[i], image) && rows[i].builtAt == Floor(rows, image).value
  {
    if rows != [] {
      var init, last := rows[..|rows| - 1], rows[|rows| - 1];
      FloorExact(init, image);
      assert rows == init + [last];
      if Names(last, image) {
        assert rows[|rows| - 1] == last;
      }
      if i :| 0 <= i < |init| && Names(init[i], image) && Floor(init, image) == Some(init[i].builtAt) {
        assert rows[i] == init[i];
      }
    }
  }

  lemma {:induction false} ReplacedExact(rows: seq<Row>, image: QAImage, floor: int)
    ensures forall i | 0 <= i < |rows| && IsNewer(rows[i], image, floor) ::
              Replaced(rows, image, floor).Some? && Replaced(rows, image, floor).value <= rows[i].builtAt
    ensures Replaced(rows, image, floor).Some? ==>
              exists i | 0 <= i < |rows| :: IsNewer(rows[i], image, floor) && rows[i].builtAt == Replaced(rows, image, floor).value
  {
    if rows != [] {
      var init, last := rows[..|rows| - 1], rows[|rows| - 1];
      ReplacedExact(init, image, floor);
      assert rows == init + [last];
      if IsNewer(last, image, floor) {
        assert rows[|rows| - 1] == last;
      }
      if i :| 0 <= i < |init| && IsNewer(init[i], image, floor) && Replaced(init, image, floor) == Some(init[i].builtAt) {
        assert rows[i] == init[i];
      }
    }
  }

  // ---- The history behind the rows ----------------------------------------

  /** One recorded bake: its row's key and reference, and when it was recorded. */
  datatype Build = Build(name: string, lockfile: string, nameTag: string, digest: string, at: int)

  /** record: the row of this lockfile is replaced, every other row of the repository deactivated. */
  function Record(rows: seq<Row>, b: Build): seq<Row> {
    Others(rows, b) + [Row(b.name, b.lockfile, b.nameTag, b.digest, b.at, true)]
  }

  function Others(rows: seq<Row>, b: Build): seq<Row> {
    if rows == [] then [] else
      var last := rows[|rows| - 1];
      Others(rows[..|rows| - 1], b)
      + (if last.name != b.name then [last] else if last.lockfile == b.lockfile then [] else [last.(active := false)])
  }

  function Rows(h: seq<Build>): seq<Row> {
    if h == [] then [] else Record(Rows(h[..|h| - 1]), h[|h| - 1])
  }

  predicate Survives(h: seq<Build>, k: int) {
    0 <= k < |h| && forall j | k < j < |h| :: !(h[j].name == h[k].name && h[j].lockfile == h[k].lockfile)
  }

  predicate IsLatest(h: seq<Build>, k: int) {
    0 <= k < |h| && forall j | k < j < |h| :: h[j].name != h[k].name
  }

  function RowOf(h: seq<Build>, k: int): Row
    requires 0 <= k < |h|
  {
    Row(h[k].name, h[k].lockfile, h[k].nameTag, h[k].digest, h[k].at, IsLatest(h, k))
  }

  lemma {:induction false} OthersMembers(rows: seq<Row>, b: Build, r: Row)
    ensures r in Others(rows, b) <==>
              if r.name != b.name then r in rows
              else !r.active && r.lockfile != b.lockfile && (r in rows || r.(active := true) in rows)
  {
    if rows != [] {
      OthersMembers(rows[..|rows| - 1], b, r);
      assert rows == rows[..|rows| - 1] + [rows[|rows| - 1]];
    }
  }

  /** Every row of the table is the row of a build no later build of its lockfile replaced; it is active for each name's
      latest build. */
  lemma {:induction false} RowHasBuild(h: seq<Build>, r: Row) returns (k: int)
    requires r in Rows(h)
    ensures Survives(h, k) && r == RowOf(h, k)
  {
    var init, b, n := h[..|h| - 1], h[|h| - 1], |h| - 1;
    if r == RowOf(h, n) {
      k := n;
    } else {
      OthersMembers(Rows(init), b, r);
      if r in Rows(init) {
        k := RowHasBuild(init, r);
      } else {
        k := RowHasBuild(init, r.(active := true));
      }
      SurvivesLater(h, k);
    }
  }

  /** A build that survives the builds before the last survives the last too, unless the last has its key. */
  lemma SurvivesLater(h: seq<Build>, k: int)
    requires h != [] && 0 <= k < |h| - 1
    ensures Survives(h, k) <==> Survives(h[..|h| - 1], k) && !(h[|h| - 1].name == h[k].name && h[|h| - 1].lockfile == h[k].lockfile)
    ensures IsLatest(h, k) <==> IsLatest(h[..|h| - 1], k) && h[|h| - 1].name != h[k].name
  {
    var init := h[..|h| - 1];
    assert forall j | 0 <= j < |init| :: init[j] == h[j];
  }

  lemma {:induction false} BuildHasRow(h: seq<Build>, k: int)
    requires Survives(h, k)
    ensures RowOf(h, k) in Rows(h)
  {
    var init, b, n := h[..|h| - 1], h[|h| - 1], |h| - 1;
    if k < n {
      SurvivesLater(h, k);
      BuildHasRow(init, k);
      OthersMembers(Rows(init), b, RowOf(h, k));
    }
  }

  // ---- When an image could be selected ------------------------------------

  ghost predicate Increasing(h: seq<Build>) {
    forall i, j | 0 <= i < j < |h| :: h[i].at < h[j].at
  }

  /** At time t the image of build k is the one its repository's jobs select. */
  predicate Selected(h: seq<Build>, k: int, t: int) {
    0 <= k < |h| && h[k].at <= t && forall j | k < j < |h| && h[j].name == h[k].name :: t < h[j].at
  }

  /** The daemon's image of build k: it holds that build's digest and no other's; a tag it holds is of its own name. */
  predicate IsImageOf(h: seq<Build>, k: int, image: QAImage) {
    && 0 <= k < |h| && image.name == h[k].name && h[k].digest != "" && h[k].digest in image.digests
    && (forall j | 0 <= j < |h| && j != k :: h[j].digest !in image.digests)
    && (forall j | 0 <= j < |h| && h[j].nameTag in image.tags :: h[j].name == image.name)
    && (image.createdAt.Some? ==> image.createdAt.value <= h[k].at)
  }

  /** Build n is the first of the name after build k. */
  predicate IsNext(h: seq<Build>, k: int, n: int) {
    0 <= k < n < |h| && h[n].name == h[k].name && forall j | k < j < n :: h[j].name != h[k].name
  }

  lemma FindNext(h: seq<Build>, k: int) returns (n: int)
    requires 0 <= k < |h| && !IsLatest(h, k)
    ensures IsNext(h, k, n)
  {
    n := k + 1;
    while h[n].name != h[k].name
      invariant k < n < |h| && forall j | k < j < n :: h[j].name != h[k].name
      decreases |h| - n
    {
      if n + 1 == |h| {
        assert false;
      }
      n := n + 1;
    }
  }

  lemma RowIn(h: seq<Build>, k: int) returns (i: int)
    requires Survives(h, k)
    ensures 0 <= i < |Rows(h)| && Rows(h)[i] == RowOf(h, k)
  {
    BuildHasRow(h, k);
    i :| 0 <= i < |Rows(h)| && Rows(h)[i] == RowOf(h, k);
  }

  /** An image no later build replaced is pinned, so it is never removed. */
  lemma LatestIsPinned(h: seq<Build>, k: int, image: QAImage)
    requires IsImageOf(h, k, image) && IsLatest(h, k)
    ensures IsPinned(Rows(h), image)
  {
    var i := RowIn(h, k);
    assert Names(Rows(h)[i], image) && Rows(h)[i].active;
  }

  /** A row that misleads the decision: an older build's, still in the table and not the image's own, that was recorded
      after every time known for the image itself. */
  predicate Misleads(h: seq<Build>, k: int, image: QAImage, j: int) {
    && 0 <= j < k < |h| && Survives(h, j)
    && Floor(Rows(h), image).Some? && IsNewer(RowOf(h, j), image, Floor(Rows(h), image).value)
  }

  lemma {:induction false} LastOfName(h: seq<Build>, k: int) returns (m: int)
    requires 0 <= k < |h|
    ensures k <= m < |h| && h[m].name == h[k].name && IsLatest(h, m)
    decreases |h| - k
  {
    if IsLatest(h, k) {
      m := k;
    } else {
      var n := FindNext(h, k);
      m := LastOfName(h, n);
    }
  }

  /** Unless a row misleads, what the decision takes as the image's last use is no earlier than its replacement. */
  lemma LastUsedNotEarly(h: seq<Build>, k: int, image: QAImage, n: int)
    requires Increasing(h) && IsImageOf(h, k, image) && IsNext(h, k, n)
    requires LastUsed(Rows(h), image).Some?
    requires forall j :: !Misleads(h, k, image, j)
    ensures LastUsed(Rows(h), image).value >= h[n].at
  {
    var rows := Rows(h);
    var floor := Floor(rows, image).value;
    if floor < h[n].at {
      LaterRowCounts(h, k, image, n);
      ReplacedExact(rows, image, floor);
      var s :| 0 <= s < |rows| && IsNewer(rows[s], image, floor) && rows[s].builtAt == Replaced(rows, image, floor).value;
      NewerIsLater(h, k, image, n, rows[s]);
    } else {
      ReplacedExact(rows, image, floor);
    }
  }

  /** The latest build of the name is a replacement the decision sees. */
  lemma LaterRowCounts(h: seq<Build>, k: int, image: QAImage, n: int)
    requires Increasing(h) && IsImageOf(h, k, image) && IsNext(h, k, n)
    requires Floor(Rows(h), image).Some? && Floor(Rows(h), image).value < h[n].at
    ensures Replaced(Rows(h), image, Floor(Rows(h), image).value).Some?
  {
    var rows := Rows(h);
    FloorExact(rows, image);
    var m := LastOfName(h, n);
    var i := RowIn(h, m);
    assert h[m].at >= h[n].at;
    assert !Names(rows[i], image);
    ReplacedExact(rows, image, Floor(rows, image).value);
  }

  lemma NewerIsLater(h: seq<Build>, k: int, image: QAImage, n: int, r: Row)
    requires Increasing(h) && IsImageOf(h, k, image) && IsNext(h, k, n) && r in Rows(h)
    requires Floor(Rows(h), image).Some? && IsNewer(r, image, Floor(Rows(h), image).value)
    requires forall j :: !Misleads(h, k, image, j)
    ensures r.builtAt >= h[n].at
  {
    var j := RowHasBuild(h, r);
    assert !Misleads(h, k, image, j);
  }

  /** The sweep may remove the image although it was selected at a time not before the cutoff. */
  ghost predicate RemovedEarly(h: seq<Build>, k: int, image: QAImage, cutoff: int, t: int) {
    DecideImage(image, Rows(h), cutoff).remove && cutoff <= t && Selected(h, k, t)
  }

  /** The exact condition: some cutoff removes an image that was selected since, if and only if the image is not pinned
      and a row misleads. */
  lemma RemovedEarlyIff(h: seq<Build>, k: int, image: QAImage)
    requires Increasing(h) && IsImageOf(h, k, image)
    ensures (exists cutoff, t :: RemovedEarly(h, k, image, cutoff, t))
       <==> !IsPinned(Rows(h), image) && exists j :: Misleads(h, k, image, j)
  {
    if IsLatest(h, k) {
      LatestIsPinned(h, k, image);
    } else {
      var n := FindNext(h, k);
      if cutoff, t :| RemovedEarly(h, k, image, cutoff, t) {
        if forall j :: !Misleads(h, k, image, j) {
          LastUsedNotEarly(h, k, image, n);
        }
      }
      if j :| Misleads(h, k, image, j) && !IsPinned(Rows(h), image) {
        MisledEarly(h, k, image, j);
      }
    }
  }

  lemma MisledEarly(h: seq<Build>, k: int, image: QAImage, j: int)
    requires Increasing(h) && IsImageOf(h, k, image) && Misleads(h, k, image, j) && !IsPinned(Rows(h), image)
    ensures RemovedEarly(h, k, image, LastUsed(Rows(h), image).value + 1, h[k].at)
  {
    var rows := Rows(h);
    var i := RowIn(h, j);
    ReplacedExact(rows, image, Floor(rows, image).value);
    assert IsNewer(rows[i], image, Floor(rows, image).value);
  }

  /** The image was created after every earlier recorded build of its name: the bakes of a repository do not overlap. */
  predicate Sequential(h: seq<Build>, k: int, image: QAImage) {
    image.createdAt.Some? && forall j | 0 <= j < k && j < |h| && h[j].name == image.name :: h[j].at <= image.createdAt.value
  }

  /** With bakes that do not overlap, an image the sweep removes was selected at no time since the cutoff. */
  lemma RemovedWasUnselected(h: seq<Build>, k: int, image: QAImage, cutoff: int, t: int)
    requires Increasing(h) && IsImageOf(h, k, image) && Sequential(h, k, image)
    requires DecideImage(image, Rows(h), cutoff).remove && cutoff <= t
    ensures !Selected(h, k, t)
  {
    FloorExact(Rows(h), image);
    assert forall j :: !Misleads(h, k, image, j);
    RemovedEarlyIff(h, k, image);
    assert !RemovedEarly(h, k, image, cutoff, t);
  }

  /** Overlapping bakes do mislead it: image "i" was created at 5 and recorded at 8, after "j" was at 6, and its row was
      replaced at 10 by a bake of the same lockfile. It was selected until 10, but counts as last used at 6. */
  lemma OverlappedBakes(h: seq<Build>, image: QAImage)
    requires image == QAImage("embry0-qa-x", {}, {"i"}, Some(5))
    requires h == [Build("embry0-qa-x", "b", "embry0-qa-x:1", "j", 6), Build("embry0-qa-x", "a", "embry0-qa-x:2", "i", 8),
                   Build("embry0-qa-x", "a", "embry0-qa-x:3", "k", 10)]
    ensures Increasing(h) && IsImageOf(h, 1, image)
    ensures exists cutoff :: RemovedEarly(h, 1, image, cutoff, 8)
  {
    var rows := Rows(h);
    forall i | 0 <= i < |rows|
      ensures !Names(rows[i], image)
    {
      var k := RowHasBuild(h, rows[i]);
      assert !Survives(h, 1) by {
        assert h[2].name == h[1].name && h[2].lockfile == h[1].lockfile;
      }
    }
    FloorExact(rows, image);
    assert Survives(h, 0);
    assert Misleads(h, 1, image, 0);
    MisledEarly(h, 1, image, 0);
  }
}
