/** Resuming an interrupted release ends where an uninterrupted one does. */
module ReleaseResume {
  import opened Ordering
  import opened Words
  import opened Fragments
  import opened Wrappers
  import opened Release
  import opened ReleaseSafety

  type Files = map<OutputPath, Document>
  type GeneratedFiles = seq<(OutputPath, Document)>

  // ---- The outputs a run puts in place ----

  /** `o` after the first `j` generated files have been put in place. */
  function Put(o: Files, gen: GeneratedFiles, j: nat): Files
    requires j <= |gen|
  {
    if j == 0 then o else Put(o, gen, j - 1)[gen[j - 1].0 := gen[j - 1].1]
  }

  ghost predicate DistinctPaths(gen: GeneratedFiles) {
    forall i, j :: 0 <= i < j < |gen| ==> gen[i].0 != gen[j].0
  }

  lemma {:induction false} PutIn(o: Files, gen: GeneratedFiles, j: nat, i: nat)
    requires i < j <= |gen| && DistinctPaths(gen)
    ensures gen[i].0 in Put(o, gen, j) && Put(o, gen, j)[gen[i].0] == gen[i].1
  {
    if i < j - 1 {
      PutIn(o, gen, j - 1, i);
    }
  }

  lemma {:induction false} PutElsewhere(o: Files, gen: GeneratedFiles, j: nat, p: OutputPath)
    requires j <= |gen| && forall i :: 0 <= i < j ==> gen[i].0 != p
    ensures p in Put(o, gen, j) <==> p in o
    ensures p in o ==> Put(o, gen, j)[p] == o[p]
  {
    if j > 0 {
      PutElsewhere(o, gen, j - 1, p);
    }
  }

  lemma {:induction false} PutTwice(o: Files, gen: GeneratedFiles, j: nat, k: nat)
    requires j <= |gen| && k <= |gen| && DistinctPaths(gen)
    ensures Put(Put(o, gen, j), gen, k) == Put(o, gen, if j < k then k else j)
  {
    if k > 0 {
      PutTwice(o, gen, j, k - 1);
      if k <= j {
        PutIn(o, gen, j, k - 1);
      }
    }
  }

  lemma {:induction false} PublishIsPut(t: Tree, gen: GeneratedFiles, k: nat)
    requires k <= |gen|
    ensures ApplyAll(t, Publishes(gen)[..k]) == t.(outputs := Put(t.outputs, gen, k))
  {
    var xs := Publishes(gen);
    if k > 0 {
      PublishIsPut(t, gen, k - 1);
      assert xs[..k] == xs[..k - 1] + [xs[k - 1]];
      ApplyAllAppend(t, xs[..k - 1], [xs[k - 1]]);
      var last := [xs[k - 1]];
      assert last[1..] == [];
    }
  }

  // ---- Stored manifests ----

  ghost predicate SameManifestsExcept(o: Files, o': Files, v: Version) {
    forall u :: u != v ==> SameAt(o, o', ManifestAt(u))
  }

  ghost predicate SameAt(o: Files, o': Files, p: OutputPath) {
    (p in o <==> p in o') && (p in o ==> o[p] == o'[p])
  }

  lemma AddAgree(acc: map<Version, Manifest>, acc': map<Version, Manifest>, x: Manifest, m: Manifest)
    requires acc[m.version := m] == acc'[m.version := m]
    ensures acc[x.version := x][m.version := m] == acc'[x.version := x][m.version := m]
  {
    if x.version != m.version {
      assert acc[x.version := x][m.version := m] == acc[m.version := m][x.version := x];
      assert acc'[x.version := x][m.version := m] == acc'[m.version := m][x.version := x];
    } else {
      assert acc[x.version := x][m.version := m] == acc[m.version := m];
      assert acc'[x.version := x][m.version := m] == acc'[m.version := m];
    }
  }

  lemma {:induction false} FileManifestsSkip(acc: map<Version, Manifest>, acc': map<Version, Manifest>, paths: seq<Version>,
                                             o: Files, o': Files, m: Manifest)
    requires ManifestAt(m.version) in o' && o'[ManifestAt(m.version)] == ManifestYaml(m)
    requires SameManifestsExcept(o, o', m.version)
    requires acc[m.version := m] == acc'[m.version := m]
    ensures var r, r' := FileManifests(acc, Without(paths, m.version), o), FileManifests(acc', paths, o');
      && (r.Ok? <==> r'.Ok?) && (r.Refused? ==> r == r')
      && (r.Ok? ==> r.value[m.version := m] == r'.value[m.version := m])
    decreases paths
  {
    if paths != [] {
      var u := paths[0];
      var rest := Without(paths[1..], m.version);
      if u == m.version {
        assert Without(paths, m.version) == rest;
        assert acc'[m.version := m][m.version := m] == acc'[m.version := m];
        FileManifestsSkip(acc, acc'[m.version := m], paths[1..], o, o', m);
      } else {
        assert SameAt(o, o', ManifestAt(u));
        assert Without(paths, m.version) == [u] + rest && ([u] + rest)[1..] == rest;
        if ManifestAt(u) in o && o[ManifestAt(u)].ManifestYaml? {
          var x := o[ManifestAt(u)].manifest;
          AddAgree(acc, acc', x, m);
          FileManifestsSkip(acc[x.version := x], acc'[x.version := x], paths[1..], o, o', m);
        }
      }
    }
  }

  /** Loading the manifests with `m` as the extra one does not depend on whether `m` is already on disk. */
  lemma LoadManifestsStable(o: Files, o': Files, m: Manifest)
    requires ManifestAt(m.version) !in o
    requires ManifestAt(m.version) in o' && o'[ManifestAt(m.version)] == ManifestYaml(m)
    requires SameManifestsExcept(o, o', m.version)
    ensures LoadManifests(o', Some(m)) == LoadManifests(o, Some(m))
  {
    ReleasePathsWithout(o, o', m.version);
    FileManifestsSkip(map[], map[], ReleasePaths(o'), o, o', m);
  }

  lemma ReleasePathsWithout(o: Files, o': Files, v: Version)
    requires ManifestAt(v) !in o && SameManifestsExcept(o, o', v)
    ensures ReleasePaths(o) == Without(ReleasePaths(o'), v)
  {
    VersionOrder();
    var rs, rs' := ReleasedVersions(o), ReleasedVersions(o');
    assert rs == rs' - {v} by {
      forall u ensures u in rs <==> u in rs' - {v} {
        if u != v { assert SameAt(o, o', ManifestAt(u)); }
      }
    }
    ListingWithout(VersionGe, rs', v);
  }

  // ---- The states an interrupted release can leave ----

  /** No trace of a release of `a`, and something to release. */
  ghost predicate Untouched(t0: Tree, a: Args) {
    a.version !in t0.markers && ArchiveOf(t0, a.version) == map[] && t0.pending != map[]
  }

  ghost predicate Part(some: map<Name, File>, whole: map<Name, File>) {
    some.Keys <= whole.Keys && forall n :: n in some ==> some[n] == whole[n]
  }

  /** What the tree looks like while the release of `a`, generating `gen`, is under way with `j` outputs in place. */
  ghost predicate Midway(t0: Tree, a: Args, gen: GeneratedFiles, j: nat, t: Tree) {
    && j <= |gen|
    && t.markers == t0.markers[a.version := Holds(Payload(a, t0.pending))]
    && t.archives - {a.version} == t0.archives - {a.version}
    && Part(ArchiveOf(t, a.version), t0.pending)
    && t.outputs == Put(t0.outputs, gen, j)
    && (j > 0 ==> ArchiveOf(t, a.version) == t0.pending)
    && Part(t.pending, t0.pending)
    && (t.pending != t0.pending ==> j == |gen| > 0)
  }

  ghost predicate SomeMidway(t0: Tree, a: Args, gen: GeneratedFiles, t: Tree) {
    exists j :: Midway(t0, a, gen, j, t)
  }

  /** What the tree looks like when the release of `a` is complete. */
  ghost predicate Released(t0: Tree, a: Args, gen: GeneratedFiles, t: Tree) {
    && t.pending == map[]
    && t.archives == t0.archives[a.version := t0.pending]
    && t.markers == t0.markers
    && t.outputs == Put(t0.outputs, gen, |gen|)
  }

  /** A torn copy left a file in the archive that is not the fragment it was copied from. */
  ghost predicate Broken(t0: Tree, a: Args, t: Tree) {
    && t.markers == t0.markers[a.version := Holds(Payload(a, t0.pending))]
    && t.archives - {a.version} == t0.archives - {a.version}
    && t.pending == t0.pending
    && !Intact(t, t0, a.version)
  }

  /** Nothing in the archive of the release differs from the fragment of that name. */
  ghost predicate Intact(t: Tree, t0: Tree, v: Version) {
    forall n :: n in ArchiveOf(t, v) && n in t0.pending ==> ArchiveOf(t, v)[n] == t0.pending[n]
  }

  ghost predicate Sound(t0: Tree, a: Args, gen: GeneratedFiles, t: Tree) {
    t == t0 || SomeMidway(t0, a, gen, t) || Released(t0, a, gen, t)
  }

  // ---- Executing a run from such a state, whole or in part ----

  lemma MidwayCovers(t0: Tree, a: Args, gen: GeneratedFiles, j: nat, t: Tree)
    requires Midway(t0, a, gen, j, t)
    ensures forall n :: n in t0.pending ==> n in ArchiveOf(t, a.version) || n in t.pending
  {
    if t.pending != t0.pending {
      assert ArchiveOf(t, a.version) == t0.pending;
    }
  }

  lemma MidwayInventoried(t0: Tree, a: Args, gen: GeneratedFiles, j: nat, t: Tree)
    requires Midway(t0, a, gen, j, t)
    ensures Inventoried(t, a)
  {
    assert Expected(t, a) == Digests(t0.pending);
    MidwayCovers(t0, a, gen, j, t);
  }

  /** Part of the copy phase leaves the release midway; all of it leaves the archive equal to the original fragments. */
  lemma MidwayCopied(t0: Tree, a: Args, gen: GeneratedFiles, j: nat, t: Tree, copies: seq<Action>, k: nat)
    requires Midway(t0, a, gen, j, t) && Covers(t, a.version, copies) && k <= |copies|
    ensures var r := ApplyAll(t, copies[..k]);
      && Midway(t0, a, gen, j, r) && r.pending == t.pending
      && (k == |copies| ==> ArchiveOf(r, a.version) == t0.pending)
  {
    var v := a.version;
    CopyingGrows(t, v, copies, k);
    MidwayCovers(t0, a, gen, j, t);
    var r := ApplyAll(t, copies[..k]);
    var before, after := ArchiveOf(t, v), ArchiveOf(r, v);
    forall n | n in before ensures n in after && after[n] == before[n] {
      assert InArchive(r, v, n, before[n]);
    }
    assert Part(after, t0.pending);
    if k == |copies| {
      forall n | n in t0.pending ensures n in after {
        if n !in before { assert InArchive(r, v, n, t.pending[n]); }
      }
      assert after == t0.pending;
    }
    if j > 0 {
      assert after == t0.pending;
    }
  }

  lemma UnlinkedNames(names: seq<Name>, k: nat)
    requires k <= |names|
    ensures (set i | 0 <= i < |Unlinks(names)[..k]| :: Unlinks(names)[..k][i].name) == set i | 0 <= i < k :: names[i]
  {
    var a, b := (set i | 0 <= i < |Unlinks(names)[..k]| :: Unlinks(names)[..k][i].name), set i | 0 <= i < k :: names[i];
    forall n | n in b ensures n in a {
      var i :| 0 <= i < k && names[i] == n;
      assert Unlinks(names)[..k][i].name == n;
    }
  }

  lemma AllUnlinked(pending: map<Name, File>, names: seq<Name>)
    requires forall n :: n in names <==> n in pending
    ensures pending - (set i | 0 <= i < |names| :: names[i]) == map[]
  {
    forall n | n in pending ensures n in (set i | 0 <= i < |names| :: names[i]) {
      var i :| 0 <= i < |names| && names[i] == n;
    }
  }

  lemma ArchivesAgree(t: Tree, t0: Tree, v: Version)
    requires t.archives - {v} == t0.archives - {v}
    requires ArchiveOf(t, v) == t0.pending && t0.pending != map[]
    ensures t.archives == t0.archives[v := t0.pending]
  {
    var a, b := t.archives, t0.archives[v := t0.pending];
    assert v in a;
    forall u ensures (u in a <==> u in b) && (u in a ==> a[u] == b[u]) {
      if u != v {
        assert u in a <==> u in a - {v};
        assert u in b <==> u in t0.archives - {v};
        if u in a { assert (a - {v})[u] == (t0.archives - {v})[u]; }
      }
    }
  }

  /** Publishing, all or part, from a full archive. */
  lemma MidwayPublished(t0: Tree, a: Args, gen: GeneratedFiles, j: nat, t: Tree, k: nat)
    requires Midway(t0, a, gen, j, t) && ArchiveOf(t, a.version) == t0.pending
    requires DistinctPaths(gen) && k <= |gen|
    ensures Midway(t0, a, gen, if j < k then k else j, ApplyAll(t, Publishes(gen)[..k]))
    ensures k == |gen| ==> Midway(t0, a, gen, |gen|, ApplyAll(t, Publishes(gen)[..k]))
    ensures ApplyAll(t, Publishes(gen)[..k]).pending == t.pending
    ensures ArchiveOf(ApplyAll(t, Publishes(gen)[..k]), a.version) == t0.pending
  {
    PublishIsPut(t, gen, k);
    PutTwice(t0.outputs, gen, j, k);
  }

  /** Unlinking, all or part, once everything is archived and published. */
  lemma MidwayUnlinked(t0: Tree, a: Args, gen: GeneratedFiles, t: Tree, k: nat)
    requires Midway(t0, a, gen, |gen|, t) && |gen| > 0
    requires k <= |UnlinkPhase(t)|
    ensures var r := ApplyAll(t, UnlinkPhase(t)[..k]);
      && Midway(t0, a, gen, |gen|, r)
      && (k == |UnlinkPhase(t)| ==> r.pending == map[])
  {
    var names := SortedNames(t.pending.Keys);
    UnlinkEffect(t, Unlinks(names)[..k]);
    UnlinkedNames(names, k);
    if k == |names| {
      AllUnlinked(t.pending, names);
    }
  }

  lemma MidwayDropped(t0: Tree, a: Args, gen: GeneratedFiles, t: Tree)
    requires Untouched(t0, a) && Midway(t0, a, gen, |gen|, t) && |gen| > 0 && t.pending == map[]
    ensures Released(t0, a, gen, ApplyAll(t, [DropMarker(a.version)]))
  {
    DropEffect(t, a.version);
    ArchivesAgree(t, t0, a.version);
    assert t0.markers[a.version := Holds(Payload(a, t0.pending))] - {a.version} == t0.markers;
  }

  ghost function DropPhase(a: Args): Program {
    Phase([DropMarker(a.version)], Done)
  }

  /** What follows the publish phase: unlinking, then dropping the marker. */
  lemma AfterPublishing(t0: Tree, a: Args, gen: GeneratedFiles, t: Tree, us: seq<Action>, k: nat)
    requires Untouched(t0, a) && |gen| > 0 && Midway(t0, a, gen, |gen|, t)
    requires us == UnlinkPhase(t) && k <= |us| + 1
    ensures var r := Exec(t, Phase(us, DropPhase(a)), k);
      && (k <= |us| ==> Midway(t0, a, gen, |gen|, r))
      && (k == |us| + 1 ==> Released(t0, a, gen, r))
  {
    hide Midway, Released, Untouched, ApplyAll, UnlinkPhase;
    if k <= |us| {
      MidwayUnlinked(t0, a, gen, t, k);
    } else {
      MidwayUnlinked(t0, a, gen, t, |us|);
      var drop := [DropMarker(a.version)];
      assert us[..|us|] == us && drop[..1] == drop;
      MidwayDropped(t0, a, gen, ApplyAll(t, us));
    }
  }

  /** What follows the copy phase: part of it stays midway, all of it completes the release. */
  lemma AfterCopying(t0: Tree, a: Args, gen: GeneratedFiles, j: nat, t: Tree, us: seq<Action>, k: nat)
    requires Untouched(t0, a) && DistinctPaths(gen) && |gen| > 0
    requires Midway(t0, a, gen, j, t) && ArchiveOf(t, a.version) == t0.pending
    requires us == UnlinkPhase(t) && k <= |gen| + |us| + 1
    ensures var r := Exec(t, Phase(Publishes(gen), Phase(us, DropPhase(a))), k);
      && (k <= |gen| + |us| ==> SomeMidway(t0, a, gen, r))
      && (k == |gen| + |us| + 1 ==> Released(t0, a, gen, r))
  {
    hide Midway, Released, ArchiveOf, Untouched, ApplyAll, DistinctPaths;
    var n, ps := |gen|, Publishes(gen);
    if k <= n {
      MidwayPublished(t0, a, gen, j, t, k);
    } else {
      MidwayPublished(t0, a, gen, j, t, n);
      assert ps[..n] == ps;
      AfterPublishing(t0, a, gen, ApplyAll(t, ps), us, k - n);
    }
  }

  /** From midway: part of the copies and the rest stays midway, all of it completes the release. */
  lemma AfterMarking(t0: Tree, a: Args, gen: GeneratedFiles, j: nat, t: Tree, copies: seq<Action>, us: seq<Action>, k: nat)
    requires Untouched(t0, a) && DistinctPaths(gen) && |gen| > 0
    requires Midway(t0, a, gen, j, t) && Covers(t, a.version, copies)
    requires us == UnlinkPhase(t) && k <= |copies| + (|gen| + |us| + 1)
    ensures var r := Exec(t, Phase(copies, Phase(Publishes(gen), Phase(us, DropPhase(a)))), k);
      && (k <= |copies| + (|gen| + |us|) ==> SomeMidway(t0, a, gen, r))
      && (k == |copies| + (|gen| + |us| + 1) ==> Released(t0, a, gen, r))
  {
    hide Midway, Released, ArchiveOf, Untouched, ApplyAll, Covers, DistinctPaths;
    if k <= |copies| {
      MidwayCopied(t0, a, gen, j, t, copies, k);
    } else {
      MidwayCopied(t0, a, gen, j, t, copies, |copies|);
      assert copies[..|copies|] == copies;
      AfterCopying(t0, a, gen, j, ApplyAll(t, copies), us, k - |copies|);
    }
  }

  /** The operations of a run that come after the marker is written. */
  ghost function Unmarked(t: Tree, a: Args, gen: GeneratedFiles): Program {
    Phase(CopyPhase(t, a), Phase(Publishes(gen), Phase(UnlinkPhase(t), DropPhase(a))))
  }

  lemma UnmarkedLength(t: Tree, a: Args, gen: GeneratedFiles)
    ensures Length(Unmarked(t, a, gen)) == |CopyPhase(t, a)| + (|gen| + |UnlinkPhase(t)| + 1)
  {
    assert Length(DropPhase(a)) == 1;
    assert Length(Phase(UnlinkPhase(t), DropPhase(a))) == |UnlinkPhase(t)| + 1;
  }

  /** Any part of a rerun from midway leaves the release midway; the whole rerun completes it. */
  lemma MidwayRuns(t0: Tree, a: Args, gen: GeneratedFiles, j: nat, t: Tree, k: nat)
    requires Untouched(t0, a) && DistinctPaths(gen) && |gen| > 0
    requires Midway(t0, a, gen, j, t) && k <= Length(Unmarked(t, a, gen))
    ensures var r := Exec(t, Unmarked(t, a, gen), k);
      && (k < Length(Unmarked(t, a, gen)) ==> SomeMidway(t0, a, gen, r))
      && (k == Length(Unmarked(t, a, gen)) ==> Released(t0, a, gen, r))
  {
    MidwayInventoried(t0, a, gen, j, t);
    CopyPhaseCovers(t, a);
    UnmarkedLength(t, a, gen);
    AfterMarking(t0, a, gen, j, t, CopyPhase(t, a), UnlinkPhase(t), k);
  }

  lemma MidwayProgram(t0: Tree, a: Args, gen: GeneratedFiles, j: nat, t: Tree)
    requires Midway(t0, a, gen, j, t)
    ensures ProgramOf(t, a, gen) == Phase([], Unmarked(t, a, gen))
  {
  }

  /** Writing the marker on the untouched tree puts the release midway, and the rest of the program is the same. */
  lemma FreshMarks(t0: Tree, a: Args, gen: GeneratedFiles)
    requires Untouched(t0, a)
    ensures var x := WriteMarker(a.version, Payload(a, t0.pending));
      && ProgramOf(t0, a, gen) == Phase([x], Unmarked(ApplyAll(t0, [x]), a, gen))
      && Midway(t0, a, gen, 0, ApplyAll(t0, [x]))
  {
    hide SortedNames, Copies, Publishes, Unlinks, Digests;
    var x := WriteMarker(a.version, Payload(a, t0.pending));
    MarkEffect(t0, [x]);
    var t1 := ApplyAll(t0, [x]);
    assert Expected(t1, a) == Expected(t0, a);
    assert ArchiveOf(t1, a.version) == ArchiveOf(t0, a.version);
  }

  /** On a completed release every operation of a rerun changes nothing. */
  lemma ReleasedRuns(t0: Tree, a: Args, gen: GeneratedFiles, t: Tree, k: nat)
    requires Untouched(t0, a) && DistinctPaths(gen)
    requires Released(t0, a, gen, t)
    ensures Exec(t, ProgramOf(t, a, gen), k) == t
    ensures CopyFree(ProgramOf(t, a, gen))
  {
    assert t.pending.Keys == {};
    assert MarkPhase(t, a) == [] && CopyPhase(t, a) == [] && UnlinkPhase(t) == [];
    LateCopyFree(Publishes(gen), [], a.version);
    var late := Phase(Publishes(gen), Phase([], DropPhase(a)));
    assert CopyFree(Phase([], late));
    EmptyPhases(t, late, k);
    ReleasedRepublishes(t0, a, gen, t, k);
  }

  lemma EmptyPhases(t: Tree, p: Program, k: nat)
    ensures Exec(t, Phase([], Phase([], p)), k) == Exec(t, p, k)
  {
    if k == 0 { ExecNothing(t, p); ExecNothing(t, Phase([], p)); }
  }

  lemma ReleasedRepublishes(t0: Tree, a: Args, gen: GeneratedFiles, t: Tree, k: nat)
    requires Untouched(t0, a) && DistinctPaths(gen)
    requires Released(t0, a, gen, t)
    ensures Exec(t, Phase(Publishes(gen), Phase([], DropPhase(a))), k) == t
  {
    var n, ps, drop := |gen|, Publishes(gen), [DropMarker(a.version)];
    var i := if k <= n then k else n;
    PublishIsPut(t, gen, i);
    PutTwice(t0.outputs, gen, n, i);
    assert ApplyAll(t, ps[..i]) == t;
    if k > n {
      assert ps[..n] == ps && drop[..1] == drop;
      DropEffect(t, a.version);
      EmptyPhase(t, DropPhase(a), k - n);
      assert Exec(t, DropPhase(a), k - n) == t;
      assert Exec(t, Phase(ps, Phase([], DropPhase(a))), k) == Exec(t, Phase([], DropPhase(a)), k - n);
    }
  }

  /** Part of a run from a sound state ends in a sound state; a whole run ends released. */
  lemma SoundRuns(t0: Tree, a: Args, gen: GeneratedFiles, t: Tree, k: nat)
    requires Untouched(t0, a) && DistinctPaths(gen) && |gen| > 0
    requires Sound(t0, a, gen, t) && k <= Length(ProgramOf(t, a, gen))
    ensures Sound(t0, a, gen, Exec(t, ProgramOf(t, a, gen), k))
    ensures k == Length(ProgramOf(t, a, gen)) ==> Released(t0, a, gen, Exec(t, ProgramOf(t, a, gen), k))
    ensures k < Length(ProgramOf(t, a, gen)) && Operation(ProgramOf(t, a, gen), k).CopyIn? ==>
              SomeMidway(t0, a, gen, Exec(t, ProgramOf(t, a, gen), k))
  {
    if t == t0 {
      FreshRuns(t0, a, gen, k);
    } else if SomeMidway(t0, a, gen, t) {
      var j :| Midway(t0, a, gen, j, t);
      MidwayProgram(t0, a, gen, j, t);
      MidwayRuns(t0, a, gen, j, t, k);
      EmptyPhase(t, Unmarked(t, a, gen), k);
    } else {
      ReleasedRuns(t0, a, gen, t, k);
      CopyFreeKeepsArchives(t, ProgramOf(t, a, gen), k);
    }
  }

  lemma EmptyPhase(t: Tree, p: Program, k: nat)
    ensures Exec(t, Phase([], p), k) == Exec(t, p, k)
    ensures Length(Phase([], p)) == Length(p)
  {
    if k == 0 { ExecNothing(t, p); }
  }

  lemma FreshRuns(t0: Tree, a: Args, gen: GeneratedFiles, k: nat)
    requires Untouched(t0, a) && DistinctPaths(gen) && |gen| > 0
    requires k <= Length(ProgramOf(t0, a, gen))
    ensures var r := Exec(t0, ProgramOf(t0, a, gen), k);
      && (k == 0 ==> r == t0 && !Operation(ProgramOf(t0, a, gen), k).CopyIn?)
      && (0 < k < Length(ProgramOf(t0, a, gen)) ==> SomeMidway(t0, a, gen, r))
      && (k == Length(ProgramOf(t0, a, gen)) ==> Released(t0, a, gen, r))
  {
    hide Midway, Released, Untouched, Payload, Unmarked, ProgramOf, DistinctPaths;
    FreshMarks(t0, a, gen);
    var x := WriteMarker(a.version, Payload(a, t0.pending));
    var t1 := ApplyAll(t0, [x]);
    if k == 0 {
      assert [x][..0] == [];
    } else {
      MidwayRuns(t0, a, gen, 0, t1, k - 1);
      assert [x][..1] == [x];
      if k == 1 { ExecNothing(t1, Unmarked(t1, a, gen)); }
    }
  }

  // ---- Torn copies ----

  lemma {:induction false} CopyNamesDistinct(v: Version, names: seq<Name>, pending: map<Name, File>, i: nat, k: nat)
    requires Distinct(names) && i < k < |Copies(v, names, pending)|
    ensures var xs := Copies(v, names, pending); xs[i].CopyIn? && xs[k].CopyIn? && xs[i].name != xs[k].name
  {
    var head := if names[0] in pending then [CopyIn(v, names[0], pending[names[0]])] else [];
    var rest := Copies(v, names[1..], pending);
    var xs := Copies(v, names, pending);
    assert xs == head + rest && |head| <= 1;
    CopiesAreCopies(v, names[1..], pending);
    assert rest[k - |head|].CopyIn?;
    assert rest[k - |head|].name in CopiedNames(rest);
    assert names[0] !in names[1..];
    hide Copies, CopiedNames, AllCopies;
    if i >= |head| {
      CopyNamesDistinct(v, names[1..], pending, i - |head|, k - |head|);
    }
  }

  lemma CopiesDistinct(v: Version, names: seq<Name>, pending: map<Name, File>, k: nat)
    requires Distinct(names) && k < |Copies(v, names, pending)|
    ensures var xs := Copies(v, names, pending); xs[k].CopyIn? && xs[k].name !in CopiedNames(xs[..k])
  {
    var xs := Copies(v, names, pending);
    CopiesAreCopies(v, names, pending);
    forall i | 0 <= i < k ensures xs[..k][i].CopyIn? && xs[..k][i].name != xs[k].name {
      CopyNamesDistinct(v, names, pending, i, k);
    }
  }

  /** The copy a run would perform next is of a pending file that the state reached has not archived. */
  lemma NotYetCopied(t: Tree, v: Version, copies: seq<Action>, k: nat)
    requires Covers(t, v, copies) && k < |copies|
    requires copies[k].CopyIn? && copies[k].name !in CopiedNames(copies[..k])
    ensures var x, r := copies[k], ApplyAll(t, copies[..k]);
      && x.v == v && x.name in t.pending && r.pending == t.pending
      && x.name !in ArchiveOf(r, v)
  {
    assert AllCopies(copies[..k], v, t.pending);
    CopyEffect(t, copies[..k], v, t.pending);
    assert copies[k].name in CopiedNames(copies);
  }

  lemma TornMidway(t0: Tree, a: Args, gen: GeneratedFiles, j: nat, t: Tree, n: Name, torn: File)
    requires Midway(t0, a, gen, j, t)
    requires n in t.pending && n !in ArchiveOf(t, a.version)
    ensures var r := Apply(t, CopyIn(a.version, n, torn));
      SomeMidway(t0, a, gen, r) || Broken(t0, a, r)
  {
    var v := a.version;
    var r := Apply(t, CopyIn(v, n, torn));
    assert ArchiveOf(r, v) == ArchiveOf(t, v)[n := torn];
    assert r.archives - {v} == t.archives - {v};
    assert n in t0.pending && ArchiveOf(t, v) != t0.pending;
    assert j == 0 && t.pending == t0.pending;
    if torn == t0.pending[n] {
      assert Midway(t0, a, gen, j, r);
    } else {
      assert n in ArchiveOf(r, v) && ArchiveOf(r, v)[n] != t0.pending[n];
    }
  }

  // ---- Whether a rerun is accepted, and what it generates ----

  lemma FreshSelects(env: Env, w: World, a: Args)
    requires a.version !in w.tree.markers && ArchiveOf(w.tree, a.version) == map[]
    ensures Select(env, w, a).Ok? ==> Select(env, w, a).value == DirectoryListing(w.tree.pending)
    ensures Select(env, w, a).Ok? <==>
      && ManifestAt(a.version) !in w.tree.outputs && w.tree.pending != map[]
      && CleanWorktree(env, w) && FreshGate(w.tree.outputs, a).Ok?
  {
  }

  lemma MidwaySelects(env: Env, t0: Tree, a: Args, gen: GeneratedFiles, j: nat, t: Tree, litter: nat)
    requires Untouched(t0, a) && Midway(t0, a, gen, j, t)
    ensures Select(env, World(t, litter), a) == Ok(DirectoryListing(t0.pending))
  {
    var archived := ArchiveOf(t, a.version);
    var tx := Payload(a, t0.pending);
    assert tx.fragments.Keys == t0.pending.Keys;
    assert tx.fragments != map[] by { var n :| n in t0.pending; assert n in tx.fragments; }
    MidwayCovers(t0, a, gen, j, t);
    PartSelection(t0.pending, t.pending, archived);
    assert ResumeSelection(tx, a, t.pending, archived) == Ok(DirectoryListing(t0.pending));
  }

  lemma PartSelection(whole: map<Name, File>, pending: map<Name, File>, archived: map<Name, File>)
    requires Part(pending, whole) && Part(archived, whole)
    requires forall n :: n in whole ==> n in archived || n in pending
    ensures Digests(whole).Keys == whole.Keys
    ensures SelectNames(SortedNames(whole.Keys), Digests(whole), pending, archived) == Ok(DirectoryListing(whole))
  {
    var names, expected := SortedNames(whole.Keys), Digests(whole);
    hide SortedNames, SelectNames;
    SelectNamesChecks(names, expected, pending, archived);
    assert SelectNames(names, expected, pending, archived).value == InOrder(names, whole);
  }

  lemma ReleasedSelects(env: Env, t0: Tree, a: Args, gen: GeneratedFiles, t: Tree, litter: nat)
    requires Untouched(t0, a) && Released(t0, a, gen, t)
    ensures Select(env, World(t, litter), a) == Ok(DirectoryListing(t0.pending))
  {
    assert ArchiveOf(t, a.version) == t0.pending;
    assert a.version !in t.markers;
  }

  lemma BrokenRefused(env: Env, t0: Tree, a: Args, w: World)
    requires Broken(t0, a, w.tree)
    ensures Select(env, w, a).Refused?
  {
    hide SortedNames, DirectoryListing, CleanWorktree, FreshGate;
    var archived := ArchiveOf(w.tree, a.version);
    var tx := Payload(a, t0.pending);
    var names := SortedNames(tx.fragments.Keys);
    SelectNamesChecks(names, tx.fragments, t0.pending, archived);
    var n :| n in archived && n in t0.pending && archived[n] != t0.pending[n];
    assert n in names;
    assert ResumeSelection(tx, a, t0.pending, archived).Refused?;
  }

  /** The manifest a release of the fragments of `t0` produces. */
  ghost function TheManifest(env: Env, t0: Tree, a: Args): Manifest
    requires Loadable(DirectoryListing(t0.pending))
  {
    ManifestFor(env, a, ParsedAll(DirectoryListing(t0.pending)))
  }

  lemma GeneratedShape(env: Env, m: Manifest, all: seq<Manifest>, fs: seq<Fragment>)
    ensures var gen := Generated(env, m, all, fs);
      && |gen| == 5 && DistinctPaths(gen)
      && gen[0] == (ManifestAt(m.version), ManifestYaml(m)) && gen[1] == (Changelog, ChangelogText(env.render(all)))
      && forall i :: 0 < i < 5 ==> !gen[i].0.ManifestAt?
  {
  }

  /** What `GenerateFrom` accepting a first run says. */
  lemma FirstGeneration(env: Env, t0: Tree, a: Args)
    requires ManifestAt(a.version) !in t0.outputs
    requires GenerateFrom(env, t0.outputs, a, DirectoryListing(t0.pending)).Ok?
    ensures Loadable(DirectoryListing(t0.pending))
    ensures ManifestValid(TheManifest(env, t0, a)) && LoadManifests(t0.outputs, Some(TheManifest(env, t0, a))).Ok?
    ensures TheManifest(env, t0, a).version == a.version
    ensures var m := TheManifest(env, t0, a);
      GenerateFrom(env, t0.outputs, a, DirectoryListing(t0.pending)).value ==
        Generated(env, m, LoadManifests(t0.outputs, Some(m)).value, ParsedAll(DirectoryListing(t0.pending)))
  {
  }

  ghost predicate FiveFiles(env: Env, t0: Tree, a: Args, gen: GeneratedFiles)
    requires Loadable(DirectoryListing(t0.pending))
  {
    var m := TheManifest(env, t0, a);
    && |gen| == 5 && DistinctPaths(gen)
    && gen[0] == (ManifestAt(a.version), ManifestYaml(m))
    && LoadManifests(t0.outputs, Some(m)).Ok?
    && gen[1] == (Changelog, ChangelogText(env.render(LoadManifests(t0.outputs, Some(m)).value)))
    && forall i :: 0 < i < 5 ==> !gen[i].0.ManifestAt?
  }

  lemma FirstFiles(env: Env, t0: Tree, a: Args)
    requires ManifestAt(a.version) !in t0.outputs
    requires GenerateFrom(env, t0.outputs, a, DirectoryListing(t0.pending)).Ok?
    ensures Loadable(DirectoryListing(t0.pending))
    ensures FiveFiles(env, t0, a, GenerateFrom(env, t0.outputs, a, DirectoryListing(t0.pending)).value)
  {
    FirstGeneration(env, t0, a);
    var m := TheManifest(env, t0, a);
    GeneratedShape(env, m, LoadManifests(t0.outputs, Some(m)).value, ParsedAll(DirectoryListing(t0.pending)));
  }

  lemma PutManifests(o: Files, gen: GeneratedFiles, j: nat, v: Version)
    requires j <= |gen| && DistinctPaths(gen) && |gen| > 0 && gen[0].0 == ManifestAt(v)
    requires forall i :: 0 < i < |gen| ==> !gen[i].0.ManifestAt?
    ensures SameManifestsExcept(o, Put(o, gen, j), v)
    ensures j > 0 ==> ManifestAt(v) in Put(o, gen, j) && Put(o, gen, j)[ManifestAt(v)] == gen[0].1
  {
    forall u | u != v ensures SameAt(o, Put(o, gen, j), ManifestAt(u)) {
      PutElsewhere(o, gen, j, ManifestAt(u));
    }
    if j > 0 { PutIn(o, gen, j, 0); }
  }

  /** With some of the outputs in place, the same fragments generate the same files. */
  lemma RegeneratesSame(env: Env, t0: Tree, a: Args, j: nat)
    requires ManifestAt(a.version) !in t0.outputs
    requires GenerateFrom(env, t0.outputs, a, DirectoryListing(t0.pending)).Ok?
    requires j <= |GenerateFrom(env, t0.outputs, a, DirectoryListing(t0.pending)).value|
    ensures var gen := GenerateFrom(env, t0.outputs, a, DirectoryListing(t0.pending)).value;
      GenerateFrom(env, Put(t0.outputs, gen, j), a, DirectoryListing(t0.pending)) == Ok(gen)
  {
    var gen := GenerateFrom(env, t0.outputs, a, DirectoryListing(t0.pending)).value;
    FirstGeneration(env, t0, a);
    FirstFiles(env, t0, a);
    if j > 0 {
      var m := TheManifest(env, t0, a);
      var o, o' := t0.outputs, Put(t0.outputs, gen, j);
      PutManifests(o, gen, j, a.version);
      assert ImmutableMatch(m, a) by { CanonicalIdempotent(a.summary); }
      LoadManifestsStable(o, o', m);
    }
  }

  /** A tree on which a first run of `a` is accepted. */
  ghost predicate Fresh(env: Env, t0: Tree, a: Args) {
    Untouched(t0, a) && Plan(env, World(t0, 0), a).Ok?
  }

  /** The files a first run generates. */
  ghost function Gen(env: Env, t0: Tree, a: Args): GeneratedFiles
    requires Fresh(env, t0, a)
  {
    Prepare(env, World(t0, 0), a).value
  }

  lemma FreshFacts(env: Env, t0: Tree, a: Args)
    requires Fresh(env, t0, a)
    ensures ManifestAt(a.version) !in t0.outputs && FreshGate(t0.outputs, a).Ok? && CleanWorktree(env, World(t0, 0))
    ensures GenerateFrom(env, t0.outputs, a, DirectoryListing(t0.pending)) == Ok(Gen(env, t0, a))
    ensures |Gen(env, t0, a)| == 5 && DistinctPaths(Gen(env, t0, a))
  {
    FreshSelects(env, World(t0, 0), a);
    FirstFiles(env, t0, a);
  }

  lemma PlanFromSelection(env: Env, t0: Tree, a: Args, w: World, j: nat)
    requires Fresh(env, t0, a) && j <= |Gen(env, t0, a)|
    requires Select(env, w, a) == Ok(DirectoryListing(t0.pending))
    requires w.tree.outputs == Put(t0.outputs, Gen(env, t0, a), j)
    ensures Prepare(env, w, a) == Ok(Gen(env, t0, a))
  {
    FreshFacts(env, t0, a);
    RegeneratesSame(env, t0, a, j);
  }

  lemma UntouchedAccepted(env: Env, t0: Tree, a: Args, litter: nat)
    requires Fresh(env, t0, a)
    ensures Prepare(env, World(t0, litter), a) == Ok(Gen(env, t0, a)) || Prepare(env, World(t0, litter), a).Refused?
    ensures Prepare(env, World(t0, litter), a).Ok? <==> !(env.git && litter > 0)
  {
    hide GenerateFrom, FreshGate, DirectoryListing, Select;
    var w := World(t0, litter);
    FreshFacts(env, t0, a);
    FreshSelects(env, w, a);
    if !(env.git && litter > 0) {
      PlanFromSelection(env, t0, a, w, 0);
    }
  }

  lemma MidwayAccepted(env: Env, t0: Tree, a: Args, j: nat, w: World)
    requires Fresh(env, t0, a) && Midway(t0, a, Gen(env, t0, a), j, w.tree)
    ensures Prepare(env, w, a) == Ok(Gen(env, t0, a)) && w.tree != t0
  {
    hide Prepare, Plan, Select, DirectoryListing;
    MidwaySelects(env, t0, a, Gen(env, t0, a), j, w.tree, w.litter);
    PlanFromSelection(env, t0, a, w, j);
  }

  lemma ReleasedAccepted(env: Env, t0: Tree, a: Args, w: World)
    requires Fresh(env, t0, a) && Released(t0, a, Gen(env, t0, a), w.tree)
    ensures Prepare(env, w, a) == Ok(Gen(env, t0, a)) && w.tree != t0
  {
    hide Prepare, Plan, Select, DirectoryListing;
    ReleasedSelects(env, t0, a, Gen(env, t0, a), w.tree, w.litter);
    PlanFromSelection(env, t0, a, w, |Gen(env, t0, a)|);
  }

  /** Whether a rerun is accepted, state by state; an accepted one generates what the first run would. */
  lemma RerunAccepted(env: Env, t0: Tree, a: Args, w: World)
    requires Fresh(env, t0, a) && Sound(t0, a, Gen(env, t0, a), w.tree)
    ensures Plan(env, w, a).Ok? <==> !(env.git && w.litter > 0 && w.tree == t0)
    ensures Plan(env, w, a).Ok? ==> Plan(env, w, a) == Ok(ProgramOf(w.tree, a, Gen(env, t0, a)))
  {
    hide Fresh, Gen, Prepare, Midway, Released, ProgramOf;
    var gen := Gen(env, t0, a);
    if w.tree == t0 {
      UntouchedAccepted(env, t0, a, w.litter);
    } else if SomeMidway(t0, a, gen, w.tree) {
      var j :| Midway(t0, a, gen, j, w.tree);
      MidwayAccepted(env, t0, a, j, w);
    } else {
      ReleasedAccepted(env, t0, a, w);
    }
  }

  // ---- Any number of interrupted runs ----

  /** One more run, stopped anywhere, from any state an interrupted release can leave. */
  lemma {:induction false} RunReaches(env: Env, t0: Tree, a: Args, w: World, s: Stop)
    requires Fresh(env, t0, a)
    requires Sound(t0, a, Gen(env, t0, a), w.tree) || Broken(t0, a, w.tree)
    ensures Sound(t0, a, Gen(env, t0, a), Run(env, w, a, s).tree) || Broken(t0, a, Run(env, w, a, s).tree)
    ensures Sound(t0, a, Gen(env, t0, a), w.tree) && s.torn.None? ==> Sound(t0, a, Gen(env, t0, a), Run(env, w, a, s).tree)
  {
    var gen := Gen(env, t0, a);
    if Sound(t0, a, gen, w.tree) {
      RerunAccepted(env, t0, a, w);
      if Plan(env, w, a).Ok? {
        FreshFacts(env, t0, a);
        PlanReaches(t0, a, gen, w.tree, s);
      }
    } else {
      BrokenRefused(env, t0, a, w);
    }
  }

  lemma PlanReaches(t0: Tree, a: Args, gen: GeneratedFiles, t: Tree, s: Stop)
    requires Untouched(t0, a) && DistinctPaths(gen) && |gen| > 0 && Sound(t0, a, gen, t)
    ensures var r := Interrupted(t, ProgramOf(t, a, gen), s);
      && (Sound(t0, a, gen, r) || Broken(t0, a, r))
      && (s.torn.None? ==> Sound(t0, a, gen, r))
  {
    var p := ProgramOf(t, a, gen);
    var k := if s.after < Length(p) then s.after else Length(p);
    SoundRuns(t0, a, gen, t, k);
    if s.after < Length(p) && Operation(p, k).CopyIn? && s.torn.Some? {
      TornReaches(t0, a, gen, t, k, s.torn.value);
    }
  }

  /** Where a run is when its next operation is a copy: only copies since the marker, and that file not among them. */
  lemma AtACopy(t0: Tree, a: Args, gen: GeneratedFiles, t: Tree, k: nat)
    requires Untouched(t0, a) && Sound(t0, a, gen, t)
    requires k < Length(ProgramOf(t, a, gen)) && Operation(ProgramOf(t, a, gen), k).CopyIn?
    ensures var x, r := Operation(ProgramOf(t, a, gen), k), Exec(t, ProgramOf(t, a, gen), k);
      x.v == a.version && x.name in r.pending && x.name !in ArchiveOf(r, a.version)
  {
    var mark, copies := MarkPhase(t, a), CopyPhase(t, a);
    var late := Phase(Publishes(gen), Phase(UnlinkPhase(t), DropPhase(a)));
    assert ProgramOf(t, a, gen) == Phase(mark, Phase(copies, late));
    assert MarksOnly(mark);
    hide *;
    SoundInventoried(t0, a, gen, t);
    CopyPhaseCovers(t, a);
    LateIsCopyFree(t, a, gen);
    forall i | 0 <= i < |copies| ensures Once(copies, i) {
      CopiesOnce(t, a, i);
    }
    AtACopyOf(t, a.version, mark, copies, late, k);
  }

  ghost predicate MarksOnly(mark: seq<Action>) {
    |mark| <= 1 && forall i :: 0 <= i < |mark| ==> mark[i].WriteMarker?
  }

  ghost predicate Once(copies: seq<Action>, k: nat)
    requires k < |copies|
  {
    copies[k].CopyIn? && copies[k].name !in CopiedNames(copies[..k])
  }

  lemma AtACopyOf(t: Tree, v: Version, mark: seq<Action>, copies: seq<Action>, late: Program, k: nat)
    requires MarksOnly(mark) && Covers(t, v, copies) && CopyFree(late) && forall i :: 0 <= i < |copies| ==> Once(copies, i)
    requires k < Length(Phase(mark, Phase(copies, late))) && Operation(Phase(mark, Phase(copies, late)), k).CopyIn?
    ensures var p := Phase(mark, Phase(copies, late));
      var x, r := Operation(p, k), Exec(t, p, k);
      x.v == v && x.name in r.pending && x.name !in ArchiveOf(r, v)
  {
    hide *;
    MarkedFirst(t, mark, Phase(copies, late), k);
    MarkedCovers(t, mark, v, copies);
    CopyingHere(ApplyAll(t, mark), v, copies, late, k - |mark|);
  }

  lemma LateIsCopyFree(t: Tree, a: Args, gen: GeneratedFiles)
    ensures CopyFree(Phase(Publishes(gen), Phase(UnlinkPhase(t), DropPhase(a))))
  {
    LateCopyFree(Publishes(gen), UnlinkPhase(t), a.version);
  }

  /** Writing the marker leaves the copies to be made as they are. */
  lemma MarkedCovers(t: Tree, mark: seq<Action>, v: Version, copies: seq<Action>)
    requires Covers(t, v, copies) && MarksOnly(mark)
    ensures Covers(ApplyAll(t, mark), v, copies)
  {
    MarkingKeeps(t, mark);
  }

  lemma CopyingHere(t: Tree, v: Version, copies: seq<Action>, late: Program, k: nat)
    requires Covers(t, v, copies) && CopyFree(late)
    requires k < Length(Phase(copies, late)) && Operation(Phase(copies, late), k).CopyIn?
    requires k < |copies| ==> Once(copies, k)
    ensures var x, r := Operation(Phase(copies, late), k), Exec(t, Phase(copies, late), k);
      x.v == v && x.name in r.pending && x.name !in ArchiveOf(r, v)
  {
    hide Covers, CopyFree, CopiedNames, ApplyAll, ArchiveOf;
    CopyingNext(t, v, copies, late, k);
    NotYetCopied(t, v, copies, k);
  }

  lemma MarkedFirst(t: Tree, mark: seq<Action>, rest: Program, k: nat)
    requires MarksOnly(mark)
    requires k < Length(Phase(mark, rest)) && Operation(Phase(mark, rest), k).CopyIn?
    ensures k >= |mark| && k - |mark| < Length(rest) && Operation(Phase(mark, rest), k) == Operation(rest, k - |mark|)
    ensures Exec(t, Phase(mark, rest), k) == Exec(ApplyAll(t, mark), rest, k - |mark|)
  {
    assert mark[..|mark|] == mark;
    if k == |mark| { ExecNothing(ApplyAll(t, mark), rest); }
  }

  lemma TornReaches(t0: Tree, a: Args, gen: GeneratedFiles, t: Tree, k: nat, torn: File)
    requires Untouched(t0, a) && Sound(t0, a, gen, t)
    requires k < Length(ProgramOf(t, a, gen)) && Operation(ProgramOf(t, a, gen), k).CopyIn?
    requires SomeMidway(t0, a, gen, Exec(t, ProgramOf(t, a, gen), k))
    ensures var x := Operation(ProgramOf(t, a, gen), k);
      var r := Apply(Exec(t, ProgramOf(t, a, gen), k), CopyIn(x.v, x.name, torn));
      SomeMidway(t0, a, gen, r) || Broken(t0, a, r)
  {
    hide Midway, Sound, Untouched, ProgramOf, Exec, Operation, Length, Broken;
    AtACopy(t0, a, gen, t, k);
    var r := Exec(t, ProgramOf(t, a, gen), k);
    var j :| Midway(t0, a, gen, j, r);
    TornMidway(t0, a, gen, j, r, Operation(ProgramOf(t, a, gen), k).name, torn);
  }

  lemma SoundInventoried(t0: Tree, a: Args, gen: GeneratedFiles, t: Tree)
    requires Untouched(t0, a) && Sound(t0, a, gen, t)
    ensures t.pending != map[] ==> Inventoried(t, a)
  {
    if t != t0 && SomeMidway(t0, a, gen, t) {
      var j :| Midway(t0, a, gen, j, t);
      MidwayInventoried(t0, a, gen, j, t);
    }
  }

  lemma CopiesOnce(t: Tree, a: Args, k: nat)
    requires k < |CopyPhase(t, a)|
    ensures Once(CopyPhase(t, a), k)
  {
    CopiesDistinct(a.version, SortedNames(Expected(t, a).Keys), Unarchived(t, a.version), k);
  }

  ghost function Again(a: Args, stops: seq<Stop>): (r: seq<(Args, Stop)>)
    ensures |r| == |stops| && forall i :: 0 <= i < |r| ==> r[i] == (a, stops[i])
  {
    seq(|stops|, i requires 0 <= i < |stops| => (a, stops[i]))
  }

  lemma RunsAgain(env: Env, a: Args, w: World, stops: seq<Stop>)
    requires stops != []
    ensures Runs(env, w, Again(a, stops)) == Runs(env, Run(env, w, a, stops[0]), Again(a, stops[1..]))
  {
    assert Again(a, stops)[1..] == Again(a, stops[1..]);
  }

  lemma {:induction false} RunsReach(env: Env, t0: Tree, a: Args, w: World, stops: seq<Stop>)
    requires Fresh(env, t0, a)
    requires Sound(t0, a, Gen(env, t0, a), w.tree) || Broken(t0, a, w.tree)
    ensures var r := Runs(env, w, Again(a, stops)).tree;
      && (Sound(t0, a, Gen(env, t0, a), r) || Broken(t0, a, r))
      && (Sound(t0, a, Gen(env, t0, a), w.tree) && (forall i :: 0 <= i < |stops| ==> stops[i].torn.None?) ==>
            Sound(t0, a, Gen(env, t0, a), r))
    decreases stops
  {
    hide Run, Sound, Broken, Fresh, Gen;
    if stops != [] {
      var w' := Run(env, w, a, stops[0]);
      RunReaches(env, t0, a, w, stops[0]);
      RunsReach(env, t0, a, w', stops[1..]);
      RunsAgain(env, a, w, stops);
    }
  }

  lemma {:induction false} RunsLitter(env: Env, a: Args, w: World, stops: seq<Stop>)
    requires forall i :: 0 <= i < |stops| ==> !stops[i].leavesStaging
    ensures Runs(env, w, Again(a, stops)).litter == w.litter
    decreases stops
  {
    if stops != [] {
      assert Again(a, stops)[1..] == Again(a, stops[1..]);
      RunsLitter(env, a, Run(env, w, a, stops[0]), stops[1..]);
    }
  }

  lemma SoundIntact(t0: Tree, a: Args, gen: GeneratedFiles, t: Tree)
    requires Untouched(t0, a) && Sound(t0, a, gen, t)
    ensures Intact(t, t0, a.version)
  {
    if t != t0 && SomeMidway(t0, a, gen, t) {
      var j :| Midway(t0, a, gen, j, t);
    } else if t != t0 {
      assert ArchiveOf(t, a.version) == t0.pending;
    }
  }

  lemma CompleteIsReleased(env: Env, t0: Tree, a: Args, w: World)
    requires Fresh(env, t0, a) && Sound(t0, a, Gen(env, t0, a), w.tree)
    requires Plan(env, w, a).Ok?
    ensures Released(t0, a, Gen(env, t0, a), Complete(env, w, a).tree)
  {
    RerunAccepted(env, t0, a, w);
    FreshFacts(env, t0, a);
    SoundRuns(t0, a, Gen(env, t0, a), w.tree, Length(ProgramOf(w.tree, a, Gen(env, t0, a))));
  }

  /** The main result.  After any number of runs of one release, each stopped anywhere and perhaps inside a
      copy, the next identical run is accepted exactly when the archive holds no torn file and a killed run
      has not left staging files behind in a checkout the release had not yet started to change; and an
      accepted run ends in the state one uninterrupted run would have produced. */
  lemma ResumeCompletes(env: Env, t0: Tree, a: Args, stops: seq<Stop>)
    requires Fresh(env, t0, a)
    ensures var w := Runs(env, World(t0, 0), Again(a, stops));
      && (Plan(env, w, a).Ok? <==>
           Intact(w.tree, t0, a.version) && !(env.git && w.litter > 0 && w.tree == t0))
      && (Plan(env, w, a).Ok? ==>
           Complete(env, w, a).tree == Complete(env, World(t0, 0), a).tree)
  {
    var w := Runs(env, World(t0, 0), Again(a, stops));
    RunsReach(env, t0, a, World(t0, 0), stops);
    if Sound(t0, a, Gen(env, t0, a), w.tree) {
      RerunAccepted(env, t0, a, w);
      SoundIntact(t0, a, Gen(env, t0, a), w.tree);
      if Plan(env, w, a).Ok? {
        CompleteIsReleased(env, t0, a, w);
        CompleteIsReleased(env, t0, a, World(t0, 0));
      }
    } else {
      BrokenRefused(env, t0, a, w);
    }
  }

  /** When interruptions let the process clean up and copies are atomic, the rerun is always accepted, and it
      ends with the archive equal to the original fragments, nothing pending, no marker, and every output in place. */
  lemma CleanInterruptionsResume(env: Env, t0: Tree, a: Args, stops: seq<Stop>)
    requires Fresh(env, t0, a)
    requires forall i :: 0 <= i < |stops| ==> stops[i].torn.None? && !stops[i].leavesStaging
    ensures var w := Runs(env, World(t0, 0), Again(a, stops));
      && Plan(env, w, a).Ok?
      && Complete(env, w, a) == Complete(env, World(t0, 0), a)
      && Released(t0, a, Gen(env, t0, a), Complete(env, w, a).tree)
  {
    var w := Runs(env, World(t0, 0), Again(a, stops));
    RunsReach(env, t0, a, World(t0, 0), stops);
    RunsLitter(env, a, World(t0, 0), stops);
    RerunAccepted(env, t0, a, w);
    CompleteIsReleased(env, t0, a, w);
    CompleteIsReleased(env, t0, a, World(t0, 0));
  }

  /** All or nothing: the marker is on disk exactly while the release is half done. */
  lemma MarkerDetectsHalfDone(env: Env, t0: Tree, a: Args, stops: seq<Stop>)
    requires Fresh(env, t0, a)
    ensures var t := Runs(env, World(t0, 0), Again(a, stops)).tree;
      a.version !in t.markers <==> t == t0 || Released(t0, a, Gen(env, t0, a), t)
  {
    RunsReach(env, t0, a, World(t0, 0), stops);
  }

  // ---- validate_tag on a completed release ----

  ghost predicate Readable(paths: seq<Version>, o: Files) {
    forall i :: 0 <= i < |paths| ==> ManifestAt(paths[i]) in o && o[ManifestAt(paths[i])].ManifestYaml?
  }

  /** The manifest in the last of these files that states the version `v`. */
  ghost function LastClaim(paths: seq<Version>, o: Files, v: Version): Option<Manifest>
    requires Readable(paths, o)
  {
    if paths == [] then None else
      var rest := LastClaim(paths[1..], o, v);
      var m := o[ManifestAt(paths[0])].manifest;
      if rest.Some? then rest else if m.version == v then Some(m) else None
  }

  /** Loading succeeds only if every listed manifest is readable, and files under `v` the last that states `v`. */
  lemma {:induction false} FiledLast(acc: map<Version, Manifest>, paths: seq<Version>, o: Files, v: Version)
    ensures FileManifests(acc, paths, o).Ok? <==> Readable(paths, o)
    ensures Readable(paths, o) ==>
      var r, c := FileManifests(acc, paths, o).value, LastClaim(paths, o, v);
      if c.Some? then v in r && r[v] == c.value else (v in r <==> v in acc) && (v in acc ==> r[v] == acc[v])
    decreases paths
  {
    if paths != [] && ManifestAt(paths[0]) in o && o[ManifestAt(paths[0])].ManifestYaml? {
      var x := o[ManifestAt(paths[0])].manifest;
      FiledLast(acc[x.version := x], paths[1..], o, v);
      ReadableCons(paths, o);
    }
  }

  lemma ReadableCons(paths: seq<Version>, o: Files)
    requires paths != [] && ManifestAt(paths[0]) in o && o[ManifestAt(paths[0])].ManifestYaml?
    ensures Readable(paths, o) <==> Readable(paths[1..], o)
  {
    if Readable(paths[1..], o) {
      forall i | 0 <= i < |paths| ensures ManifestAt(paths[i]) in o && o[ManifestAt(paths[i])].ManifestYaml? {
        if i > 0 { assert paths[i] == paths[1..][i - 1]; }
      }
    }
  }

  lemma {:induction false} SameClaims(paths: seq<Version>, o: Files, o': Files, v: Version)
    requires SameManifestsExcept(o, o', v) && v !in paths
    ensures Readable(paths, o) <==> Readable(paths, o')
    ensures Readable(paths, o) ==> LastClaim(paths, o, v) == LastClaim(paths, o', v)
  {
    forall i | 0 <= i < |paths| ensures SameAt(o, o', ManifestAt(paths[i])) {}
    if paths != [] {
      SameClaims(paths[1..], o, o', v);
    }
  }

  lemma FirstOfSorted(ps: seq<Version>, v: Version, o: Files, o': Files)
    requires v in ps && Sorted(VersionGe, ps) && SameManifestsExcept(o, o', v)
    requires forall u :: u in ps ==> ManifestAt(u) in o'
    requires forall u :: ManifestAt(u) in o ==> !VersionLe(v, u)
    ensures ps[0] == v
  {
    var i :| 0 <= i < |ps| && ps[i] == v;
    assert ps[0] in ps;
    assert ps[0] != v ==> SameAt(o, o', ManifestAt(ps[0])) && i > 0 && VersionGe(ps[0], ps[i]);
  }

  /** A version newer than every release on disk comes first once it is released. */
  lemma NewestFirst(o: Files, o': Files, v: Version)
    requires ManifestAt(v) !in o && ManifestAt(v) in o' && SameManifestsExcept(o, o', v)
    requires forall u :: ManifestAt(u) in o ==> !VersionLe(v, u)
    ensures ReleasePaths(o') == [v] + ReleasePaths(o)
  {
    VersionOrder();
    ReleasePathsWithout(o, o', v);
    ListingSorted(VersionGe, ReleasedVersions(o'));
    var ps := ReleasePaths(o');
    assert ps == Listing(VersionGe, ReleasedVersions(o'));
    hide Listing, ReleasePaths, Without, ReleasedVersions;
    assert v in ps && Sorted(VersionGe, ps) && Distinct(ps);
    FirstOfSorted(ps, v, o, o');
    assert ps == [v] + ps[1..];
    WithoutCons(v, ps[1..], v);
    assert [] + Without(ps[1..], v) == Without(ps[1..], v);
    WithoutAbsent(ps[1..], v);
  }

  lemma NewestDiffer(ms: map<Version, Manifest>, m: Manifest)
    requires m.version in ms
    ensures Newest(ms) == Newest(ms[m.version := m]) <==> ms[m.version] == m
  {
    VersionOrder();
    var v, vs := m.version, Listing(VersionGe, ms.Keys);
    assert ms[v := m].Keys == ms.Keys;
    assert v in vs;
    var i :| 0 <= i < |vs| && vs[i] == v;
    assert Newest(ms)[i] == ms[v] && Newest(ms[v := m])[i] == m;
    if ms[v] == m { assert ms[v := m] == ms; }
  }

  /** No manifest already on disk states the version of `m`, or the last one that does is `m` itself. */
  ghost predicate Unclaimed(o: Files, m: Manifest) {
    Readable(ReleasePaths(o), o) && LastClaim(ReleasePaths(o), o, m.version) in {None, Some(m)}
  }

  /** The manifest that will be filed under the version of `m` once `m` is stored beside those on disk. */
  ghost function Filed(o: Files, m: Manifest): Manifest
    requires Readable(ReleasePaths(o), o)
  {
    var claim := LastClaim(ReleasePaths(o), o, m.version);
    if claim.Some? then claim.value else m
  }

  lemma {:induction false} LastClaimStates(paths: seq<Version>, o: Files, v: Version)
    requires Readable(paths, o)
    ensures LastClaim(paths, o, v).Some? ==> LastClaim(paths, o, v).value.version == v
  {
    if paths != [] {
      LastClaimStates(paths[1..], o, v);
    }
  }

  /** The manifest list that a completed release leaves. */
  lemma StoredManifests(o: Files, o': Files, m: Manifest)
    requires ManifestAt(m.version) !in o
    requires ManifestAt(m.version) in o' && o'[ManifestAt(m.version)] == ManifestYaml(m)
    requires SameManifestsExcept(o, o', m.version)
    requires LoadManifests(o, Some(m)).Ok?
    requires forall u :: ManifestAt(u) in o ==> !VersionLe(m.version, u)
    ensures Readable(ReleasePaths(o), o)
    ensures LoadManifests(o', None).Ok? && LoadManifests(o', None) == LoadManifests(o, Some(Filed(o, m)))
  {
    hide Newest, VersionLe, SameManifestsExcept;
    var v, ps := m.version, ReleasePaths(o);
    NewestFirst(o, o', v);
    SameClaims(ps, o, o', v);
    assert ([v] + ps)[1..] == ps;
    FiledLast(map[], ps, o, v);
    FiledLast(map[v := m], ps, o', v);
    LastClaimStates(ps, o, v);
    var ms0, ms, w := FileManifests(map[], ps, o).value, FileManifests(map[v := m], ps, o').value, Filed(o, m);
    assert FileManifests(map[], [v] + ps, o') == Ok(ms);
    WithoutAbsent(ps, v);
    FileManifestsSkip(map[], map[v := m], ps, o, o', m);
    assert ms0[v := w] == ms0[v := m][v := w] == ms[v := m][v := w] == ms[v := w] == ms;
  }

  /** Rendered with the manifest that will be filed in its place, the changelog would read the same. */
  ghost predicate RendersSame(env: Env, o: Files, m: Manifest) {
    && Readable(ReleasePaths(o), o)
    && LoadManifests(o, Some(m)).Ok? && LoadManifests(o, Some(Filed(o, m))).Ok?
    && env.render(LoadManifests(o, Some(Filed(o, m))).value) == env.render(LoadManifests(o, Some(m)).value)
  }

  /** Rebuilding from the archived fragments of a completed release always gives the stored manifest, and so the
      release passes tag validation exactly when the manifest that an older file states for its version, if any,
      would not change the changelog. */
  lemma CompletedReleaseIsTaggable(env: Env, t0: Tree, a: Args, t: Tree)
    requires Fresh(env, t0, a) && Released(t0, a, Gen(env, t0, a), t)
    ensures Loadable(DirectoryListing(t0.pending))
    ensures TagAccepted(env, t, a.version) <==> RendersSame(env, t0.outputs, TheManifest(env, t0, a))
  {
    FreshFacts(env, t0, a);
    FirstGeneration(env, t0, a);
    ReleasedIsTaggable(env, t0, a, Gen(env, t0, a), t);
  }

  /** In particular when no older file states the version with other contents; and only then, if different lists of
      manifests render to different changelogs. */
  lemma UnclaimedIsTaggable(env: Env, t0: Tree, a: Args, t: Tree)
    requires Fresh(env, t0, a) && Released(t0, a, Gen(env, t0, a), t)
    ensures Loadable(DirectoryListing(t0.pending))
    ensures Unclaimed(t0.outputs, TheManifest(env, t0, a)) ==> TagAccepted(env, t, a.version)
    ensures (forall xs, ys :: env.render(xs) == env.render(ys) ==> xs == ys) ==>
      (TagAccepted(env, t, a.version) <==> Unclaimed(t0.outputs, TheManifest(env, t0, a)))
  {
    hide TagAccepted, Released, Fresh;
    CompletedReleaseIsTaggable(env, t0, a, t);
    FreshFacts(env, t0, a);
    FirstGeneration(env, t0, a);
    ClaimShows(t0.outputs, TheManifest(env, t0, a));
  }

  /** Every stored manifest states the version of its own file, as `validate_all` demands. */
  ghost predicate OwnVersions(o: Files) {
    forall u :: ManifestAt(u) in o ==> o[ManifestAt(u)].ManifestYaml? && o[ManifestAt(u)].manifest.version == u
  }

  lemma {:induction false} OwnVersionsUnclaimed(paths: seq<Version>, o: Files, v: Version)
    requires OwnVersions(o) && v !in paths && forall u :: u in paths ==> ManifestAt(u) in o
    ensures Readable(paths, o) && LastClaim(paths, o, v) == None
  {
    forall i | 0 <= i < |paths| ensures ManifestAt(paths[i]) in o && o[ManifestAt(paths[i])].ManifestYaml? {
      assert paths[i] in paths;
    }
    if paths != [] {
      OwnVersionsUnclaimed(paths[1..], o, v);
    }
  }

  /** And in particular when every manifest on disk states the version of its own file. */
  lemma ValidatedIsTaggable(env: Env, t0: Tree, a: Args, t: Tree)
    requires Fresh(env, t0, a) && Released(t0, a, Gen(env, t0, a), t) && OwnVersions(t0.outputs)
    ensures TagAccepted(env, t, a.version)
  {
    hide TagAccepted, Released, Fresh, OwnVersions;
    FreshFacts(env, t0, a);
    FirstGeneration(env, t0, a);
    OwnVersionsUnclaimed(ReleasePaths(t0.outputs), t0.outputs, a.version);
    UnclaimedIsTaggable(env, t0, a, t);
  }

  /** A different manifest in its place shows in the list. */
  lemma ClaimShows(o: Files, m: Manifest)
    requires LoadManifests(o, Some(m)).Ok?
    ensures Readable(ReleasePaths(o), o) && LoadManifests(o, Some(Filed(o, m))).Ok?
    ensures LoadManifests(o, Some(Filed(o, m))) == LoadManifests(o, Some(m)) <==> Unclaimed(o, m)
  {
    hide Newest;
    var v, ps := m.version, ReleasePaths(o);
    FiledLast(map[], ps, o, v);
    LastClaimStates(ps, o, v);
    var ms := FileManifests(map[], ps, o).value[v := Filed(o, m)];
    assert ms[v := m] == FileManifests(map[], ps, o).value[v := m];
    NewestDiffer(ms, m);
  }

  lemma ReleasedIsTaggable(env: Env, t0: Tree, a: Args, gen: GeneratedFiles, t: Tree)
    requires Untouched(t0, a) && ManifestAt(a.version) !in t0.outputs && FreshGate(t0.outputs, a).Ok?
    requires GenerateFrom(env, t0.outputs, a, DirectoryListing(t0.pending)) == Ok(gen)
    requires Released(t0, a, gen, t)
    ensures Loadable(DirectoryListing(t0.pending))
    ensures TagAccepted(env, t, a.version) <==> RendersSame(env, t0.outputs, TheManifest(env, t0, a))
  {
    hide LoadManifests, BuildManifest, Loadable, DirectoryListing, ParsedAll, TagAccepted, GenerateFrom, Readable;
    FirstGeneration(env, t0, a);
    FirstFiles(env, t0, a);
    var m := TheManifest(env, t0, a);
    PutManifests(t0.outputs, gen, 5, a.version);
    PutIn(t0.outputs, gen, 5, 1);
    StoredManifests(t0.outputs, t.outputs, m);
    RebuildsSame(env, a, ParsedAll(DirectoryListing(t0.pending)));
    TagChecks(env, t, a.version, t0.pending, m);
  }

  /** With everything else in order, tag validation comes down to the changelog. */
  lemma TagChecks(env: Env, t: Tree, v: Version, fragments: map<Name, File>, m: Manifest)
    requires t.pending == map[] && v !in t.markers && ArchiveOf(t, v) == fragments && fragments != map[]
    requires Loadable(DirectoryListing(fragments))
    requires ManifestAt(v) in t.outputs && t.outputs[ManifestAt(v)] == ManifestYaml(m) && m.tag == v
    requires m == BuildManifest(env.fold, v, m.date, m.summary, ParsedAll(DirectoryListing(fragments)), HasLxc(m.artifacts))
    requires LoadManifests(t.outputs, None).Ok? && Changelog in t.outputs
    ensures TagAccepted(env, t, v) <==> t.outputs[Changelog] == ChangelogText(env.render(LoadManifests(t.outputs, None).value))
  {
  }

  /** Rebuilding with the values a manifest states gives that manifest. */
  lemma RebuildsSame(env: Env, a: Args, fs: seq<Fragment>)
    ensures var m := ManifestFor(env, a, fs);
      && m.tag == a.version
      && m == BuildManifest(env.fold, a.version, m.date, m.summary, fs, HasLxc(m.artifacts))
  {
  }
}
