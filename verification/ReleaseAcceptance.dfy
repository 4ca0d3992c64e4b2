/** Which first runs of a release are accepted. */
module ReleaseAcceptance {
  import opened Ordering
  import opened Words
  import opened Fragments
  import opened Wrappers
  import opened Release
  import opened ReleaseSafety
  import opened ReleaseResume

  lemma {:induction false} BreakingNonBlank(public: seq<Fragment>)
    requires forall i :: 0 <= i < |public| ==> NonBlank(public[i].title) && NonBlank(public[i].description)
    ensures forall i :: 0 <= i < |BreakingOf(public)| ==>
      NonBlank(BreakingOf(public)[i].title) && NonBlank(BreakingOf(public)[i].body)
  {
    hide NonBlank;
    if public != [] {
      BreakingNonBlank(public[1..]);
    }
  }

  lemma PublicNonBlank(fold: string -> string, files: Listed)
    requires Loadable(files)
    ensures var public := PublicFragments(fold, ParsedAll(files));
      forall i :: 0 <= i < |public| ==> NonBlank(public[i].title) && NonBlank(public[i].description)
  {
    hide NonBlank, Slug;
    var fs := ParsedAll(files);
    var public := PublicFragments(fold, fs);
    PublicFragmentsMembers(fold, fs);
    forall i | 0 <= i < |public| ensures NonBlank(public[i].title) && NonBlank(public[i].description) {
      assert public[i] in public && public[i] in fs;
    }
  }

  lemma NotesNonBlank(env: Env, a: Args, files: Listed)
    requires Loadable(files)
    ensures AllNonBlank(ManifestFor(env, a, ParsedAll(files)).upgradeNotes)
  {
    hide NonBlank, Canonical, Slug;
    var fs := ParsedAll(files);
    ManifestListsEachNoteOnce(env.fold, a.version, a.date, Canonical(a.summary), fs, a.withLxc);
    var notes := ManifestFor(env, a, fs).upgradeNotes;
    hide BuildManifest, IsPublic;
    forall i | 0 <= i < |notes| ensures NonBlank(notes[i]) {
      assert notes[i] in notes;
    }
  }

  /** Fragments that load give a manifest that validates, given a summary that is not blank. */
  lemma ManifestIsValid(env: Env, a: Args, files: Listed)
    requires Loadable(files)
    ensures ManifestValid(ManifestFor(env, a, ParsedAll(files))) <==> NonBlank(a.summary)
  {
    hide NonBlank, Canonical, Loadable, ParsedAll, AllNonBlank;
    CanonicalIdempotent(a.summary);
    PublicNonBlank(env.fold, files);
    BreakingNonBlank(PublicFragments(env.fold, ParsedAll(files)));
    NotesNonBlank(env, a, files);
  }

  lemma FirstRunGates(env: Env, w: World, a: Args)
    requires Untouched(w.tree, a)
    ensures Plan(env, w, a).Ok? <==>
      && ManifestAt(a.version) !in w.tree.outputs && CleanWorktree(env, w) && FreshGate(w.tree.outputs, a).Ok?
      && Loadable(DirectoryListing(w.tree.pending)) && NonBlank(a.summary)
  {
    hide NonBlank, Loadable, DirectoryListing, CleanWorktree, ManifestValid, ManifestFor, FreshGate, FileManifests;
    FreshSelects(env, w, a);
    var files := DirectoryListing(w.tree.pending);
    if Select(env, w, a).Ok? && Loadable(files) {
      ManifestIsValid(env, a, files);
      GateReads(w.tree.outputs, a);
    }
  }

  /** The release comes after every stored one: a higher version, and no earlier date. */
  ghost predicate ComesAfter(o: Files, a: Args) {
    forall u :: ManifestAt(u) in o ==>
      !VersionLe(a.version, u) && o[ManifestAt(u)].ManifestYaml? && o[ManifestAt(u)].manifest.date <= a.date
  }

  /** What is under version control is as in the last commit, and nothing lies beside it. */
  ghost predicate AsCommitted(head: Tree, w: World) {
    && w.litter == 0 && w.tree.pending == head.pending && w.tree.archives == head.archives && w.tree.markers == head.markers
    && forall p :: p == Changelog || p.ManifestAt? ==> SameAt(w.tree.outputs, head.outputs, p)
  }

  lemma GateMeans(o: Files, a: Args)
    ensures FreshGate(o, a).Ok? <==> ComesAfter(o, a)
  {
    var released := ReleasedVersions(o);
    if FreshGate(o, a).Ok? {
      forall u | ManifestAt(u) in o
        ensures !VersionLe(a.version, u) && o[ManifestAt(u)].ManifestYaml? && o[ManifestAt(u)].manifest.date <= a.date
      {
        assert u in released;
      }
    }
  }

  lemma CleanMeans(env: Env, w: World)
    ensures CleanWorktree(env, w) <==> (env.git ==> AsCommitted(env.head, w))
  {
    var x, y := w.tree.outputs, env.head.outputs;
    if Tracked(x) == Tracked(y) {
      forall p | p == Changelog || p.ManifestAt? ensures SameAt(x, y, p) {
        assert p in Tracked(x) <==> p in x;
        assert p in Tracked(y) <==> p in y;
        if p in x { assert Tracked(x)[p] == x[p] && Tracked(y)[p] == y[p]; }
      }
    }
    if forall p :: p == Changelog || p.ManifestAt? ==> SameAt(x, y, p) {
      forall p ensures (p in Tracked(x) <==> p in Tracked(y)) && (p in Tracked(x) ==> Tracked(x)[p] == Tracked(y)[p]) {
        assert p == Changelog || p.ManifestAt? ==> SameAt(x, y, p);
      }
    }
  }

  /** On a tree without a trace of the release, a run is accepted exactly if no manifest claims the version's
      file, in a git checkout everything is as committed, the release comes after those stored, every pending fragment
      loads, and the summary is not blank. */
  lemma FirstRunAccepted(env: Env, w: World, a: Args)
    requires Untouched(w.tree, a)
    ensures Plan(env, w, a).Ok? <==>
      && ManifestAt(a.version) !in w.tree.outputs && (env.git ==> AsCommitted(env.head, w)) && ComesAfter(w.tree.outputs, a)
      && Loadable(DirectoryListing(w.tree.pending)) && NonBlank(a.summary)
  {
    hide *;
    FirstRunGates(env, w, a);
    GateMeans(w.tree.outputs, a);
    CleanMeans(env, w);
  }

  /** Past the gates, every stored manifest can be read. */
  lemma GateReads(o: map<OutputPath, Document>, a: Args)
    requires FreshGate(o, a).Ok?
    ensures FileManifests(map[], ReleasePaths(o), o).Ok?
  {
    var paths := ReleasePaths(o);
    forall i | 0 <= i < |paths| ensures ManifestAt(paths[i]) in o && o[ManifestAt(paths[i])].ManifestYaml? {
      assert paths[i] in paths;
    }
    FiledLast(map[], paths, o, a.version);
  }

  const EXAMPLE := Fragment("first-change", Internal, "title", "text", ["relay"], [Developer], false, false, [], [], None, None)

  const EXAMPLE_ARGS := Args(Version(1, 0, 0), 0, "summary", false)

  /** A tree with that fragment pending, and these outputs. */
  ghost function ExampleTree(o: map<OutputPath, Document>): Tree {
    Tree(map["first-change.yml" := File("", Some(EXAMPLE))], map[], map[], o)
  }

  lemma StartsWithWord(s: string)
    requires s != [] && !IsSpace(s[0])
    ensures NonBlank(s)
  {
  }

  lemma ExampleSlugs()
    ensures Slug("first-change", 6, 80) && Slug("relay", 2, 40)
  {
  }

  lemma ExampleAcceptable()
    ensures Acceptable("first-change.yml", EXAMPLE)
  {
    hide NonBlank, Lower;
    StartsWithWord(EXAMPLE.title);
    StartsWithWord(EXAMPLE.description);
    ExampleSlugs();
    hide Slug;
    assert "first-change" + ".yml" == "first-change.yml";
  }

  lemma OneListed<T(!new)>(le: (T, T) -> bool, x: T)
    requires TotalOrder(le)
    ensures Listing(le, {x}) == [x]
  {
    var none: set<T> := {};
    assert {x} - {x} == none && Listing(le, none) == [];
    assert Listing(le, {x}) == [Least(le, {x})] + Listing(le, {x} - {Least(le, {x})});
  }

  lemma ExampleLoads(o: map<OutputPath, Document>)
    ensures Loadable(DirectoryListing(ExampleTree(o).pending))
  {
    hide Acceptable, TextLe;
    ExampleAcceptable();
    TextOrder();
    var files := ExampleTree(o).pending;
    assert files.Keys == {"first-change.yml"};
    OneListed(TextLe, "first-change.yml");
    assert SortedNames(files.Keys) == ["first-change.yml"];
    hide SortedNames;
    assert DirectoryListing(files) == [("first-change.yml", files["first-change.yml"])];
  }

  lemma ExampleUntouched(o: map<OutputPath, Document>, a: Args)
    ensures Untouched(ExampleTree(o), a)
  {
    assert "first-change.yml" in ExampleTree(o).pending;
  }

  lemma ExampleIsFresh(env: Env, o: map<OutputPath, Document>)
    requires env.head == ExampleTree(o) && FreshGate(o, EXAMPLE_ARGS).Ok? && ManifestAt(EXAMPLE_ARGS.version) !in o
    ensures Fresh(env, ExampleTree(o), EXAMPLE_ARGS)
  {
    assert ExampleTree(o).outputs == o;
    assert CleanWorktree(env, World(ExampleTree(o), 0));
    hide Plan, ExampleTree, NonBlank, Loadable, DirectoryListing, FreshGate, Untouched, CleanWorktree;
    ExampleUntouched(o, EXAMPLE_ARGS);
    ExampleLoads(o);
    StartsWithWord("summary");
    FirstRunGates(env, World(ExampleTree(o), 0), EXAMPLE_ARGS);
  }

  /** There is a tree on which a first run is accepted, in a git checkout and outside one. */
  lemma SomeRunIsFresh(git: bool, fold: string -> string, render: seq<Manifest> -> string)
    ensures Fresh(Env(git, ExampleTree(map[]), fold, render), ExampleTree(map[]), EXAMPLE_ARGS)
  {
    assert ReleasedVersions(map[]) == {};
    ExampleIsFresh(Env(git, ExampleTree(map[]), fold, render), map[]);
  }

  // ---- Reruns that are refused ----

  lemma OneRun(env: Env, w: World, a: Args, s: Stop)
    ensures Runs(env, w, Again(a, [s])) == Run(env, w, a, s)
  {
    hide Run;
    RunsAgain(env, a, w, [s]);
    assert [s][1..] == [] && Again(a, []) == [];
  }

  /** In a git checkout, a first run killed before its first operation, leaving its staging directory, cannot be
      repeated: the worktree is no longer clean. */
  lemma LitterIsRefused(env: Env, t0: Tree, a: Args)
    requires env.git && Fresh(env, t0, a)
    ensures Plan(env, Runs(env, World(t0, 0), Again(a, [Stop(0, true, None)])), a).Refused?
  {
    hide *;
    var s := Stop(0, true, None);
    OneRun(env, World(t0, 0), a, s);
    StoppedAtOnce(env, t0, a);
    ResumeCompletes(env, t0, a, [s]);
  }

  lemma StoppedAtOnce(env: Env, t0: Tree, a: Args)
    requires Fresh(env, t0, a)
    ensures Run(env, World(t0, 0), a, Stop(0, true, None)) == World(t0, 1)
  {
    hide Plan, Exec, Length, Operation;
    ExecNothing(t0, Plan(env, World(t0, 0), a).value);
  }

  /** With nothing archived yet, some pending file is copied first. */
  lemma SomethingIsCopied(t: Tree, v: Version, copies: seq<Action>)
    requires Covers(t, v, copies) && ArchiveOf(t, v) == map[] && t.pending != map[]
    ensures copies != [] && copies[0].CopyIn? && copies[0].v == v && copies[0].name in t.pending
  {
    var n :| n in t.pending;
    assert n in CopiedNames(copies);
  }

  lemma SecondOfTwo(x: Action, copies: seq<Action>, late: Program)
    requires copies != []
    ensures var p := Phase([x], Phase(copies, late)); Length(p) > 1 && Operation(p, 1) == copies[0]
  {
    assert Length(Phase(copies, late)) >= |copies|;
  }

  /** The second operation of a first run is a copy of a pending file. */
  lemma SecondOperation(t0: Tree, a: Args, gen: GeneratedFiles)
    requires Untouched(t0, a)
    ensures var p := ProgramOf(t0, a, gen);
      && Length(p) > 1 && Operation(p, 1).CopyIn? && Operation(p, 1).v == a.version && Operation(p, 1).name in t0.pending
  {
    hide CopyPhase, Midway, Covers, Inventoried, UnlinkPhase, Publishes, Length, Operation, ProgramOf, Payload;
    FreshMarks(t0, a, gen);
    var x := WriteMarker(a.version, Payload(a, t0.pending));
    var t1 := ApplyAll(t0, [x]);
    MarkEffect(t0, [x]);
    MidwayInventoried(t0, a, gen, 0, t1);
    CopyPhaseCovers(t1, a);
    SomethingIsCopied(t1, a.version, CopyPhase(t1, a));
    SecondOfTwo(x, CopyPhase(t1, a), Phase(Publishes(gen), Phase(UnlinkPhase(t1), DropPhase(a))));
  }

  lemma FreshProgram(env: Env, t0: Tree, a: Args)
    requires Fresh(env, t0, a)
    ensures Untouched(t0, a) && Plan(env, World(t0, 0), a) == Ok(ProgramOf(t0, a, Gen(env, t0, a)))
  {
  }

  lemma CutShort(t: Tree, p: Program, k: nat, torn: File)
    requires k < Length(p) && Operation(p, k).CopyIn?
    ensures var x, r := Operation(p, k), Interrupted(t, p, Stop(k, false, Some(torn)));
      x.name in ArchiveOf(r, x.v) && ArchiveOf(r, x.v)[x.name] == torn
  {
  }

  lemma FirstCopyCut(env: Env, t0: Tree, a: Args, torn: File) returns (n: Name)
    requires Fresh(env, t0, a)
    ensures var t := Run(env, World(t0, 0), a, Stop(1, false, Some(torn))).tree;
      n in t0.pending && n in ArchiveOf(t, a.version) && ArchiveOf(t, a.version)[n] == torn
  {
    hide Plan, Fresh, Gen, ProgramOf, Exec, Operation, Length, Untouched, ArchiveOf, Interrupted;
    FreshProgram(env, t0, a);
    var p := ProgramOf(t0, a, Gen(env, t0, a));
    SecondOperation(t0, a, Gen(env, t0, a));
    CutShort(t0, p, 1, torn);
    n := Operation(p, 1).name;
  }

  /** A first run whose first copy is cut short, leaving something other than a pending fragment, cannot be repeated. */
  lemma TornCopyIsRefused(env: Env, t0: Tree, a: Args, torn: File)
    requires Fresh(env, t0, a) && forall n :: n in t0.pending ==> t0.pending[n] != torn
    ensures Plan(env, Runs(env, World(t0, 0), Again(a, [Stop(1, false, Some(torn))])), a).Refused?
  {
    hide Plan, Fresh, Run, Runs, ArchiveOf;
    var s := Stop(1, false, Some(torn));
    OneRun(env, World(t0, 0), a, s);
    var n := FirstCopyCut(env, t0, a, torn);
    ResumeCompletes(env, t0, a, [s]);
  }

  // ---- A completed release that fails tag validation ----

  /** A manifest stored for 0.9.0 that states 1.0.0. */
  const CLAIM := Manifest(Version(1, 0, 0), 0, Version(1, 0, 0), "other", [], [], [], [], Version(1, 0, 0))

  const CLAIMED: map<OutputPath, Document> := map[ManifestAt(Version(0, 9, 0)) := ManifestYaml(CLAIM)]

  lemma ClaimedGate()
    ensures FreshGate(CLAIMED, EXAMPLE_ARGS).Ok? && ReleasedVersions(CLAIMED) == {Version(0, 9, 0)}
  {
    assert ReleasedVersions(CLAIMED) == {Version(0, 9, 0)};
  }

  /** The one stored manifest is filed under the version it states, and whatever is filed there instead is the list. */
  lemma ClaimedList(m: Manifest)
    requires m.version == CLAIM.version
    ensures Readable(ReleasePaths(CLAIMED), CLAIMED) && Filed(CLAIMED, m) == CLAIM
    ensures LoadManifests(CLAIMED, Some(m)) == Ok([m])
  {
    VersionOrder();
    ClaimedGate();
    OneListed(VersionGe, Version(0, 9, 0));
    var paths := ReleasePaths(CLAIMED);
    assert paths == [Version(0, 9, 0)] && paths[1..] == [];
    assert LastClaim(paths[1..], CLAIMED, m.version) == None && LastClaim(paths, CLAIMED, m.version) == Some(CLAIM);
    assert FileManifests(map[], paths, CLAIMED) == Ok(map[CLAIM.version := CLAIM]);
    var ms: map<Version, Manifest> := map[CLAIM.version := CLAIM][m.version := m];
    assert ms.Keys == {m.version};
    OneListed(VersionGe, m.version);
    assert Newest(ms) == [m];
  }

  lemma ClaimedChangelog(env: Env, t0: Tree, a: Args)
    requires t0.outputs == CLAIMED && a == EXAMPLE_ARGS && Loadable(DirectoryListing(t0.pending))
    ensures var m := TheManifest(env, t0, a);
      (RendersSame(env, CLAIMED, m) <==> env.render([CLAIM]) == env.render([m])) && m != CLAIM
  {
    hide LoadManifests, Filed, Readable, DirectoryListing, Loadable;
    var m := TheManifest(env, t0, a);
    ClaimedList(m);
    ClaimedList(CLAIM);
    SummaryIsCanonical();
  }

  lemma ClaimedFails(env: Env, t0: Tree, a: Args)
    requires Fresh(env, t0, a) && t0.outputs == CLAIMED && a == EXAMPLE_ARGS
    ensures Loadable(DirectoryListing(t0.pending))
    ensures var m := TheManifest(env, t0, a);
      && m != CLAIM
      && (TagAccepted(env, Complete(env, World(t0, 0), a).tree, a.version) <==> env.render([CLAIM]) == env.render([m]))
  {
    hide TagAccepted, Plan, Complete, Released, Gen, Sound, Loadable, DirectoryListing, RendersSame, TheManifest;
    assert Sound(t0, a, Gen(env, t0, a), t0) by { UntouchedIsSound(t0, a, Gen(env, t0, a)); }
    CompleteIsReleased(env, t0, a, World(t0, 0));
    CompletedReleaseIsTaggable(env, t0, a, Complete(env, World(t0, 0), a).tree);
    ClaimedChangelog(env, t0, a);
  }

  lemma UntouchedIsSound(t0: Tree, a: Args, gen: GeneratedFiles)
    ensures Sound(t0, a, gen, t0)
  {
  }

  /** With a manifest file for 0.9.0 that states 1.0.0, the release of 1.0.0 is accepted and completes, and then passes
      tag validation exactly if the changelog shows the same for the stated manifest and for the released one; the two
      manifests differ, and so it fails whenever the rendering tells them apart. */
  lemma ClaimedVersionFailsTag(git: bool, fold: string -> string, render: seq<Manifest> -> string)
    ensures Loadable(DirectoryListing(ExampleTree(CLAIMED).pending))
    ensures var t0 := ExampleTree(CLAIMED);
      var env := Env(git, t0, fold, render);
      var m := TheManifest(env, t0, EXAMPLE_ARGS);
      && Fresh(env, t0, EXAMPLE_ARGS) && m != CLAIM
      && (TagAccepted(env, Complete(env, World(t0, 0), EXAMPLE_ARGS).tree, EXAMPLE_ARGS.version) <==>
            render([CLAIM]) == render([m]))
  {
    var t0 := ExampleTree(CLAIMED);
    var env := Env(git, t0, fold, render);
    assert t0.outputs == CLAIMED && ManifestAt(EXAMPLE_ARGS.version) !in CLAIMED;
    hide *;
    ClaimedGate();
    ExampleIsFresh(env, CLAIMED);
    ClaimedFails(env, t0, EXAMPLE_ARGS);
  }

  lemma SummaryIsCanonical()
    ensures Canonical("summary") == "summary"
  {
    WordEndOfPrefix("summary", "");
    assert "summary" + "" == "summary" && "summary"[7..] == "";
    assert Split("summary") == ["summary"];
  }
}
