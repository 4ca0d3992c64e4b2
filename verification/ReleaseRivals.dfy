/** Runs with other arguments between the runs of a release: refused in a git checkout, not outside one. */
module ReleaseRivals {
  import opened Ordering
  import opened Words
  import opened Fragments
  import opened Wrappers
  import opened Release
  import opened ReleaseSafety
  import opened ReleaseResume
  import opened ReleaseAcceptance

  // ---- A release that has begun ----

  /** The release of `a` has changed the tree. */
  ghost predicate Begun(t0: Tree, a: Args, gen: GeneratedFiles, t: Tree) {
    SomeMidway(t0, a, gen, t) || Released(t0, a, gen, t) || Broken(t0, a, t)
  }

  lemma BegunDiffers(t0: Tree, a: Args, gen: GeneratedFiles, t: Tree)
    requires Untouched(t0, a)
    ensures Begun(t0, a, gen, t) ==> t != t0
    ensures (Sound(t0, a, gen, t) || Broken(t0, a, t)) && t != t0 ==> Begun(t0, a, gen, t)
  {
  }

  /** Part of a run from a begun release leaves it begun. */
  lemma BegunRuns(t0: Tree, a: Args, gen: GeneratedFiles, t: Tree, k: nat)
    requires Untouched(t0, a) && DistinctPaths(gen) && |gen| > 0
    requires SomeMidway(t0, a, gen, t) || Released(t0, a, gen, t)
    requires k <= Length(ProgramOf(t, a, gen))
    ensures Begun(t0, a, gen, Exec(t, ProgramOf(t, a, gen), k))
  {
    hide Untouched, DistinctPaths, Midway, Released, ProgramOf, Unmarked, Broken;
    if SomeMidway(t0, a, gen, t) {
      var j :| Midway(t0, a, gen, j, t);
      MidwayProgram(t0, a, gen, j, t);
      EmptyPhase(t, Unmarked(t, a, gen), k);
      MidwayRuns(t0, a, gen, j, t, k);
    } else {
      ReleasedRuns(t0, a, gen, t, k);
    }
  }

  lemma InterruptedStaysBegun(t0: Tree, a: Args, gen: GeneratedFiles, t: Tree, s: Stop)
    requires Untouched(t0, a) && DistinctPaths(gen) && |gen| > 0
    requires SomeMidway(t0, a, gen, t) || Released(t0, a, gen, t)
    ensures Begun(t0, a, gen, Interrupted(t, ProgramOf(t, a, gen), s))
  {
    hide Untouched, DistinctPaths, SomeMidway, Released, ProgramOf, Broken, Exec, Length, Operation, Apply;
    var p := ProgramOf(t, a, gen);
    var k := if s.after < Length(p) then s.after else Length(p);
    BegunRuns(t0, a, gen, t, k);
    if s.after < Length(p) && Operation(p, k).CopyIn? && s.torn.Some? {
      SoundRuns(t0, a, gen, t, k);
      TornReaches(t0, a, gen, t, k, s.torn.value);
    }
  }

  lemma RunStaysBegun(env: Env, t0: Tree, a: Args, w: World, s: Stop)
    requires Fresh(env, t0, a) && Begun(t0, a, Gen(env, t0, a), w.tree)
    ensures Begun(t0, a, Gen(env, t0, a), Run(env, w, a, s).tree)
  {
    hide Untouched, DistinctPaths, SomeMidway, Released, ProgramOf, Broken, Select, Gen, GenerateFrom, Interrupted;
    var gen := Gen(env, t0, a);
    FreshFacts(env, t0, a);
    if Broken(t0, a, w.tree) {
      BrokenRefused(env, t0, a, w);
    } else {
      RerunAccepted(env, t0, a, w);
      if Plan(env, w, a).Ok? {
        InterruptedStaysBegun(t0, a, gen, w.tree, s);
      }
    }
  }

  // ---- Other arguments ----

  /** The same request, up to the spacing of the summary. */
  ghost predicate Alike(a: Args, b: Args) {
    a.version == b.version && a.date == b.date && a.withLxc == b.withLxc && Canonical(a.summary) == Canonical(b.summary)
  }

  lemma AlikeSelect(env: Env, w: World, a: Args, b: Args)
    requires Alike(a, b)
    ensures Select(env, w, a) == Select(env, w, b)
  {
    hide Canonical, FreshGate, DirectoryListing, SelectNames, SortedNames, CleanWorktree;
    SameGate(w.tree.outputs, a, b);
  }

  lemma AlikeGenerate(env: Env, o: Files, a: Args, b: Args, selected: Listed)
    requires Alike(a, b)
    ensures GenerateFrom(env, o, a, selected) == GenerateFrom(env, o, b, selected)
  {
    hide Canonical, Loadable, ManifestValid, LoadManifests, Generated, BuildManifest, HasLxc;
  }

  /** Requests that are alike are the same run. */
  lemma AlikePlans(env: Env, w: World, a: Args, b: Args)
    requires Alike(a, b)
    ensures Plan(env, w, a) == Plan(env, w, b)
  {
    hide Canonical, Select, GenerateFrom, SortedNames, Copies, Unlinks, Publishes, Digests;
    AlikeSelect(env, w, a, b);
    if Select(env, w, a).Ok? {
      AlikeGenerate(env, w.tree.outputs, a, b, Select(env, w, a).value);
    }
  }

  lemma SameGate(o: Files, a: Args, b: Args)
    requires a.version == b.version && a.date == b.date
    ensures FreshGate(o, a) == FreshGate(o, b)
  {
  }

  /** A request that is not that of the release: for its version with other values, or for a version of which the
      tree had no trace. */
  ghost predicate Rival(t0: Tree, a: Args, b: Args) {
    !Alike(a, b) && (b.version == a.version || (b.version !in t0.markers && ArchiveOf(t0, b.version) == map[]))
  }

  /** With the marker of the release on disk, a run for its version with other values is refused. */
  lemma MarkerRefuses(env: Env, t0: Tree, a: Args, w: World, b: Args)
    requires a.version in w.tree.markers && w.tree.markers[a.version] == Holds(Payload(a, t0.pending))
    requires b.version == a.version && !Alike(a, b)
    ensures Plan(env, w, b).Refused?
  {
    hide Canonical;
    assert !SameMetadata(Payload(a, t0.pending), b);
  }

  lemma StatesItsArgs(env: Env, a: Args, fs: seq<Fragment>, b: Args)
    ensures ImmutableMatch(ManifestFor(env, a, fs), b) ==> Alike(a, b)
  {
    hide Canonical;
    CanonicalIdempotent(a.summary);
  }

  /** Once the release is complete, its manifest refuses a run for its version with other values. */
  lemma ManifestRefuses(env: Env, t0: Tree, a: Args, w: World, b: Args)
    requires Fresh(env, t0, a) && Released(t0, a, Gen(env, t0, a), w.tree)
    requires b.version == a.version && !Alike(a, b)
    ensures Plan(env, w, b).Refused?
  {
    hide Canonical, Loadable, DirectoryListing, ParsedAll, LoadManifests, ManifestFor, ImmutableMatch, Plan, Select, Alike;
    var gen := Gen(env, t0, a);
    FreshFacts(env, t0, a);
    FirstFiles(env, t0, a);
    PutIn(t0.outputs, gen, 5, 0);
    assert w.tree.outputs[ManifestAt(a.version)] == ManifestYaml(TheManifest(env, t0, a));
    StatesItsArgs(env, a, ParsedAll(DirectoryListing(t0.pending)), b);
    StoredRefuses(env, w, b);
  }

  lemma StoredRefuses(env: Env, w: World, b: Args)
    requires ManifestAt(b.version) in w.tree.outputs && w.tree.outputs[ManifestAt(b.version)].ManifestYaml?
    requires !ImmutableMatch(w.tree.outputs[ManifestAt(b.version)].manifest, b)
    ensures Plan(env, w, b).Refused?
  {
    hide ImmutableMatch, Select;
  }

  /** With nothing of another version on disk, its run is refused if nothing is pending or the worktree is not clean. */
  lemma NothingToTake(env: Env, w: World, b: Args)
    requires b.version !in w.tree.markers && ArchiveOf(w.tree, b.version) == map[]
    requires w.tree.pending == map[] || !CleanWorktree(env, w)
    ensures Plan(env, w, b).Refused?
  {
    hide CleanWorktree, FreshGate, GenerateFrom;
  }

  lemma OtherArchives(t: Tree, t0: Tree, v: Version, u: Version)
    requires u != v && t.archives - {v} == t0.archives - {v}
    ensures ArchiveOf(t, u) == ArchiveOf(t0, u)
  {
    assert u in t.archives <==> u in t.archives - {v};
    assert u in t0.archives <==> u in t0.archives - {v};
    if u in t.archives { assert (t.archives - {v})[u] == (t0.archives - {v})[u]; }
  }

  /** In a git checkout, a release that has begun refuses every rival until it is complete, and leaves it nothing then. */
  lemma RivalsRefused(env: Env, t0: Tree, a: Args, w: World, b: Args)
    requires env.git && Fresh(env, t0, a) && Begun(t0, a, Gen(env, t0, a), w.tree) && Rival(t0, a, b)
    ensures Plan(env, w, b).Refused?
  {
    hide Fresh, Gen, Plan, Alike, Payload, DistinctPaths, Put, Part, Intact;
    var t, v, gen := w.tree, a.version, Gen(env, t0, a);
    FreshFacts(env, t0, a);
    FreshUntouched(env, t0, a);
    if Released(t0, a, gen, t) {
      if b.version == v {
        ManifestRefuses(env, t0, a, w, b);
      } else {
        NothingToTake(env, w, b);
      }
    } else {
      assert t.markers == t0.markers[v := Holds(Payload(a, t0.pending))] && t.archives - {v} == t0.archives - {v};
      if b.version == v {
        MarkerRefuses(env, t0, a, w, b);
      } else {
        OtherArchives(t, t0, v, b.version);
        assert v in t.markers && v !in env.head.markers;
        NothingToTake(env, w, b);
      }
    }
  }

  lemma FreshUntouched(env: Env, t0: Tree, a: Args)
    requires Fresh(env, t0, a)
    ensures Untouched(t0, a)
  {
  }

  // ---- Resuming with other runs in between ----

  /** Every run is of the release or of a rival. */
  ghost predicate FromBoth(t0: Tree, a: Args, runs: seq<(Args, Stop)>) {
    forall i :: 0 <= i < |runs| ==> Alike(a, runs[i].0) || Rival(t0, a, runs[i].0)
  }

  /** The stops of the runs of the release itself. */
  ghost function OwnStops(a: Args, runs: seq<(Args, Stop)>): seq<Stop>
    decreases runs
  {
    if runs == [] then []
    else (if Alike(a, runs[0].0) then [runs[0].1] else []) + OwnStops(a, runs[1..])
  }

  /** One more run, of either kind. */
  lemma RivalRun(env: Env, t0: Tree, a: Args, w: World, b: Args, s: Stop)
    requires env.git && Fresh(env, t0, a) && Begun(t0, a, Gen(env, t0, a), w.tree)
    requires Alike(a, b) || Rival(t0, a, b)
    ensures Run(env, w, b, s) == if Alike(a, b) then Run(env, w, a, s) else w
    ensures Begun(t0, a, Gen(env, t0, a), Run(env, w, b, s).tree)
  {
    hide Fresh, Gen, Begun, Plan, Alike, Rival, Interrupted;
    if Alike(a, b) {
      AlikePlans(env, w, a, b);
      RunStaysBegun(env, t0, a, w, s);
    } else {
      RivalsRefused(env, t0, a, w, b);
    }
  }

  /** In a git checkout, rivals between the runs of a begun release might as well not have been run. */
  lemma {:induction false} RivalsDoNotMatter(env: Env, t0: Tree, a: Args, w: World, runs: seq<(Args, Stop)>)
    requires env.git && Fresh(env, t0, a) && Begun(t0, a, Gen(env, t0, a), w.tree) && FromBoth(t0, a, runs)
    ensures Runs(env, w, runs) == Runs(env, w, Again(a, OwnStops(a, runs)))
    decreases runs
  {
    hide Fresh, Gen, Begun, Alike, Rival, Run;
    if runs != [] {
      var b, s := runs[0].0, runs[0].1;
      RivalRun(env, t0, a, w, b, s);
      RivalsDoNotMatter(env, t0, a, Run(env, w, b, s), runs[1..]);
      var rest := OwnStops(a, runs[1..]);
      if Alike(a, b) {
        assert ([s] + rest)[1..] == rest;
        RunsAgain(env, a, w, [s] + rest);
      } else {
        assert [] + rest == rest;
      }
    }
  }

  lemma {:induction false} RunsJoin(env: Env, a: Args, w: World, first: seq<Stop>, second: seq<Stop>)
    ensures Runs(env, Runs(env, w, Again(a, first)), Again(a, second)) == Runs(env, w, Again(a, first + second))
    decreases first
  {
    hide Run;
    if first == [] {
      assert first + second == second;
    } else {
      assert (first + second)[1..] == first[1..] + second && (first + second)[0] == first[0];
      RunsAgain(env, a, w, first);
      RunsAgain(env, a, w, first + second);
      RunsJoin(env, a, Run(env, w, a, first[0]), first[1..], second);
    }
  }

  /** The main result with other runs in between.  In a git checkout, once a release has changed the tree, then after
      any number of runs of it and of rivals, each stopped anywhere, the next run of it is accepted exactly when the
      archive holds no torn file, and an accepted run ends in the state one uninterrupted run would have produced. */
  lemma ResumeAmongRivals(env: Env, t0: Tree, a: Args, first: seq<Stop>, runs: seq<(Args, Stop)>)
    requires env.git && Fresh(env, t0, a) && FromBoth(t0, a, runs)
    requires Runs(env, World(t0, 0), Again(a, first)).tree != t0
    ensures var w := Runs(env, Runs(env, World(t0, 0), Again(a, first)), runs);
      && (Plan(env, w, a).Ok? <==> Intact(w.tree, t0, a.version))
      && (Plan(env, w, a).Ok? ==> Complete(env, w, a).tree == Complete(env, World(t0, 0), a).tree)
  {
    var w0 := Runs(env, World(t0, 0), Again(a, first));
    var own := OwnStops(a, runs);
    FreshUntouched(env, t0, a);
    hide Fresh, Gen, Intact, Plan, Complete, Runs, FromBoth, OwnStops, Untouched, Released, SomeMidway, Broken;
    SoundOrBroken(env, t0, a, first);
    BegunDiffers(t0, a, Gen(env, t0, a), w0.tree);
    RivalsDoNotMatter(env, t0, a, w0, runs);
    RunsJoin(env, a, World(t0, 0), first, own);
    StillBegun(env, t0, a, w0, own);
    BegunDiffers(t0, a, Gen(env, t0, a), Runs(env, w0, Again(a, own)).tree);
    ResumeCompletes(env, t0, a, first + own);
  }

  lemma SoundOrBroken(env: Env, t0: Tree, a: Args, stops: seq<Stop>)
    requires Fresh(env, t0, a)
    ensures var t := Runs(env, World(t0, 0), Again(a, stops)).tree; Sound(t0, a, Gen(env, t0, a), t) || Broken(t0, a, t)
  {
    hide Fresh, Gen, Broken, Released, SomeMidway;
    RunsReach(env, t0, a, World(t0, 0), stops);
  }

  lemma {:induction false} StillBegun(env: Env, t0: Tree, a: Args, w: World, stops: seq<Stop>)
    requires Fresh(env, t0, a) && Begun(t0, a, Gen(env, t0, a), w.tree)
    ensures Begun(t0, a, Gen(env, t0, a), Runs(env, w, Again(a, stops)).tree)
    decreases stops
  {
    hide Fresh, Gen, Begun, Run;
    if stops != [] {
      RunStaysBegun(env, t0, a, w, stops[0]);
      StillBegun(env, t0, a, Run(env, w, a, stops[0]), stops[1..]);
      RunsAgain(env, a, w, stops);
    }
  }

  // ---- Outside a git checkout ----

  /** The tree with only the marker of the release written. */
  ghost function Marked(t0: Tree, a: Args): Tree {
    t0.(markers := t0.markers[a.version := Holds(Payload(a, t0.pending))])
  }

  /** A first run stopped after its first operation. */
  lemma StoppedAfterMarker(env: Env, t0: Tree, a: Args)
    requires Fresh(env, t0, a)
    ensures Run(env, World(t0, 0), a, Stop(1, false, None)) == World(Marked(t0, a), 0)
  {
    var gen := Gen(env, t0, a);
    assert Plan(env, World(t0, 0), a) == Ok(ProgramOf(t0, a, gen));
    FreshUntouched(env, t0, a);
    hide Plan, Fresh, Gen, ProgramOf, Payload, Unmarked, Midway, Length, Operation, Untouched, Exec, ApplyAll;
    FreshMarks(t0, a, gen);
    SecondOperation(t0, a, gen);
    var x := WriteMarker(a.version, Payload(a, t0.pending));
    FirstOfPhase(t0, x, Unmarked(ApplyAll(t0, [x]), a, gen));
  }

  lemma FirstOfPhase(t: Tree, x: Action, rest: Program)
    ensures Exec(t, Phase([x], rest), 1) == Apply(t, x)
  {
    assert [x][..1] == [x] && [x][1..] == [];
    assert ApplyAll(t, [x]) == Apply(t, x);
  }

  /** A marker whose fragments are nowhere to be found refuses the release. */
  lemma EmptiedRefuses(env: Env, t0: Tree, a: Args, w: World)
    requires a.version in w.tree.markers && w.tree.markers[a.version] == Holds(Payload(a, t0.pending))
    requires t0.pending != map[] && w.tree.pending == map[] && ArchiveOf(w.tree, a.version) == map[]
    ensures Plan(env, w, a).Refused?
  {
    hide SortedNames;
    var tx := Payload(a, t0.pending);
    var n :| n in t0.pending;
    assert n in tx.fragments;
    assert n in SortedNames(tx.fragments.Keys);
    assert SelectNames(SortedNames(tx.fragments.Keys), tx.fragments, map[], map[]).Refused?;
  }

  /** A newer release, outside git, is accepted on the tree with the marker of the first. */
  lemma RivalAccepted(env: Env, t0: Tree, a: Args, b: Args)
    requires !env.git && Fresh(env, t0, a) && Rival(t0, a, b) && b.version != a.version
    requires FreshGate(t0.outputs, b).Ok? && NonBlank(b.summary) && ManifestAt(b.version) !in t0.outputs
    ensures Fresh(env, Marked(t0, a), b)
  {
    hide Plan, Payload, FreshGate, NonBlank, Loadable, DirectoryListing;
    FirstRunGates(env, World(t0, 0), a);
    FirstRunGates(env, World(Marked(t0, a), 0), b);
  }

  lemma {:induction false} RefusedStays(env: Env, a: Args, w: World, stops: seq<Stop>)
    requires Plan(env, w, a).Refused?
    ensures Runs(env, w, Again(a, stops)) == w
    decreases stops
  {
    hide Plan;
    if stops != [] {
      RunsAgain(env, a, w, stops);
      RefusedStays(env, a, w, stops[1..]);
    }
  }

  /** Outside a git checkout a newer release takes the fragments of one that was stopped after writing its marker, and
      from then on the first is refused, however often it is run. */
  lemma RivalTakesOver(env: Env, t0: Tree, a: Args, b: Args, stops: seq<Stop>)
    requires !env.git && Fresh(env, t0, a) && Rival(t0, a, b) && b.version != a.version
    requires FreshGate(t0.outputs, b).Ok? && NonBlank(b.summary) && ManifestAt(b.version) !in t0.outputs
    ensures var w1 := Run(env, World(t0, 0), a, Stop(1, false, None));
      && Plan(env, w1, b).Ok?
      && (var w2 := Complete(env, w1, b);
          && ArchiveOf(w2.tree, b.version) == t0.pending && w2.tree.pending == map[]
          && Plan(env, w2, a).Refused? && Runs(env, w2, Again(a, stops)) == w2)
  {
    StoppedAfterMarker(env, t0, a);
    RivalAccepted(env, t0, a, b);
    var t1 := Marked(t0, a);
    var w2 := Complete(env, World(t1, 0), b);
    FreshUntouched(env, t0, a);
    hide Plan, Complete, Gen, Rival, Payload, Run, Runs, NonBlank, FreshGate;
    assert Sound(t1, b, Gen(env, t1, b), t1) by { UntouchedIsSound(t1, b, Gen(env, t1, b)); }
    CompleteIsReleased(env, t1, b, World(t1, 0));
    assert t1.pending == t0.pending && w2.tree.archives == t1.archives[b.version := t0.pending];
    EmptiedRefuses(env, t0, a, w2);
    RefusedStays(env, a, w2, stops);
  }

  /** Such a pair of releases: 1.0.0 and 1.1.0 with the same fragment pending. */
  lemma RivalsExist(fold: string -> string, render: seq<Manifest> -> string)
    ensures var t0 := ExampleTree(map[]);
      var b := EXAMPLE_ARGS.(version := Version(1, 1, 0));
      && Fresh(Env(false, t0, fold, render), t0, EXAMPLE_ARGS) && Rival(t0, EXAMPLE_ARGS, b)
      && FreshGate(t0.outputs, b).Ok? && NonBlank(b.summary) && ManifestAt(b.version) !in t0.outputs
  {
    hide NonBlank, Fresh;
    SomeRunIsFresh(false, fold, render);
    StartsWithWord("summary");
    assert ReleasedVersions(map[]) == {};
  }
}
