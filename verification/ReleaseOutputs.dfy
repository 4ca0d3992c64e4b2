/** What a release writes, and what the validation of a tag demands, in terms of fragments and manifests. */
module ReleaseOutputs {
  import opened Ordering
  import opened Words
  import opened Fragments
  import opened Wrappers
  import opened Release
  import opened ReleaseSafety
  import opened ReleaseResume

  // ---- The list of manifests ----

  /** The manifest is in the file of the lowest version among those that state its version. */
  ghost predicate Stands(o: Files, x: Manifest) {
    exists u :: ManifestAt(u) in o && o[ManifestAt(u)] == ManifestYaml(x) && forall w :: States(o, w, x.version) ==> VersionLe(u, w)
  }

  ghost predicate States(o: Files, w: Version, v: Version) {
    ManifestAt(w) in o && o[ManifestAt(w)].ManifestYaml? && o[ManifestAt(w)].manifest.version == v
  }

  /** One manifest for each version stated, the newest first; an extra one replaces that of its version. */
  ghost predicate ListsManifests(o: Files, extra: Option<Manifest>, all: seq<Manifest>) {
    && (forall i, j :: 0 <= i < j < |all| ==> VersionLe(all[j].version, all[i].version) && all[i].version != all[j].version)
    && forall x :: x in all <==> if extra.Some? && x.version == extra.value.version then x == extra.value else Stands(o, x)
  }

  ghost predicate AllReadable(o: Files) {
    forall u :: ManifestAt(u) in o ==> o[ManifestAt(u)].ManifestYaml?
  }

  lemma {:induction false} LastIsLowest(paths: seq<Version>, o: Files, v: Version)
    requires Readable(paths, o) && Sorted(VersionGe, paths)
    ensures match LastClaim(paths, o, v)
      case None => forall u :: u in paths ==> !States(o, u, v)
      case Some(m) => exists u :: u in paths && o[ManifestAt(u)] == ManifestYaml(m) && m.version == v
                                  && forall w :: w in paths && States(o, w, v) ==> VersionLe(u, w)
  {
    if paths != [] {
      var rest := paths[1..];
      assert forall i :: 0 <= i < |rest| ==> rest[i] == paths[i + 1];
      LastIsLowest(rest, o, v);
      assert forall u :: u in paths <==> u == paths[0] || u in rest;
      assert forall u :: u in rest ==> VersionLe(u, paths[0]);
    }
  }

  /** What is filed under a version when all files have been read. */
  lemma FiledStands(o: Files, v: Version)
    requires AllReadable(o)
    ensures var paths := ReleasePaths(o);
      && FileManifests(map[], paths, o).Ok?
      && (var ms := FileManifests(map[], paths, o).value;
          (v in ms ==> ms[v].version == v && Stands(o, ms[v]))
          && forall x :: Stands(o, x) && x.version == v ==> v in ms && ms[v] == x)
  {
    var paths := ReleasePaths(o);
    VersionOrder();
    ListingSorted(VersionGe, ReleasedVersions(o));
    assert Readable(paths, o) by {
      forall i | 0 <= i < |paths| ensures ManifestAt(paths[i]) in o && o[ManifestAt(paths[i])].ManifestYaml? {
        assert paths[i] in paths;
      }
    }
    FiledLast(map[], paths, o, v);
    LastIsLowest(paths, o, v);
    hide FileManifests, LastClaim, ReleasePaths;
    forall x | Stands(o, x) && x.version == v ensures LastClaim(paths, o, v) == Some(x) {
      var u :| ManifestAt(u) in o && o[ManifestAt(u)] == ManifestYaml(x) && forall w :: States(o, w, x.version) ==> VersionLe(u, w);
      assert u in paths && States(o, u, v);
    }
  }

  /** Loading the manifests fails exactly if one cannot be read, and otherwise gives that list. */
  lemma LoadedList(o: Files, extra: Option<Manifest>)
    ensures LoadManifests(o, extra).Ok? <==> AllReadable(o)
    ensures AllReadable(o) ==> ListsManifests(o, extra, LoadManifests(o, extra).value)
  {
    var paths := ReleasePaths(o);
    FiledLast(map[], paths, o, Version(0, 0, 0));
    assert Readable(paths, o) <==> AllReadable(o) by { ReadableMeans(o); }
    if AllReadable(o) {
      var ms := FileManifests(map[], paths, o).value;
      forall v ensures (v in ms ==> ms[v].version == v && Stands(o, ms[v])) && forall x :: Stands(o, x) && x.version == v ==> v in ms && ms[v] == x {
        FiledStands(o, v);
      }
      hide FileManifests, Stands, ReleasePaths;
      NewestLists(o, extra, ms);
    }
  }

  lemma ReadableMeans(o: Files)
    ensures Readable(ReleasePaths(o), o) <==> AllReadable(o)
  {
    var paths := ReleasePaths(o);
    if Readable(paths, o) {
      forall u | ManifestAt(u) in o ensures o[ManifestAt(u)].ManifestYaml? {
        assert u in paths;
      }
    }
    if AllReadable(o) {
      forall i | 0 <= i < |paths| ensures ManifestAt(paths[i]) in o && o[ManifestAt(paths[i])].ManifestYaml? {
        assert paths[i] in paths;
      }
    }
  }

  lemma NewestLists(o: Files, extra: Option<Manifest>, ms: map<Version, Manifest>)
    requires forall v :: v in ms ==> ms[v].version == v && Stands(o, ms[v])
    requires forall x :: Stands(o, x) ==> x.version in ms && ms[x.version] == x
    ensures ListsManifests(o, extra, Newest(if extra.Some? then ms[extra.value.version := extra.value] else ms))
  {
    hide Stands, Newest;
    NewestOf(if extra.Some? then ms[extra.value.version := extra.value] else ms);
  }

  lemma NewestOf(filed: map<Version, Manifest>)
    requires forall v :: v in filed ==> filed[v].version == v
    ensures var all := Newest(filed);
      && (forall i, j :: 0 <= i < j < |all| ==> VersionLe(all[j].version, all[i].version) && all[i].version != all[j].version)
      && forall x :: x in all <==> x.version in filed && filed[x.version] == x
  {
    VersionOrder();
    var vs, all := Listing(VersionGe, filed.Keys), Newest(filed);
    ListingSorted(VersionGe, filed.Keys);
    hide Listing, VersionLe, Newest;
    assert |all| == |vs| && forall i :: 0 <= i < |vs| ==> vs[i] in vs && all[i] == filed[vs[i]] && all[i].version == vs[i] by {
      NewestAt(filed);
    }
    forall i, j | 0 <= i < j < |all| ensures VersionLe(all[j].version, all[i].version) && all[i].version != all[j].version {
      assert VersionGe(vs[i], vs[j]);
    }
    forall x ensures x in all <==> x.version in filed && filed[x.version] == x {
      if x.version in filed && filed[x.version] == x {
        var i :| 0 <= i < |vs| && vs[i] == x.version;
        assert all[i] == x;
      }
    }
  }

  lemma NewestAt(filed: map<Version, Manifest>)
    ensures TotalOrder(VersionGe)
    ensures var vs := Listing(VersionGe, filed.Keys);
      |Newest(filed)| == |vs| && forall i :: 0 <= i < |vs| ==> vs[i] in vs && Newest(filed)[i] == filed[vs[i]]
  {
    VersionOrder();
  }

  // ---- What a completed release has written ----

  /** The fragments in the order of their file names. */
  ghost predicate ByName(files: map<Name, File>, fs: seq<Fragment>) {
    exists names :: NamesOf(files, names) && |fs| == |names| && forall i :: 0 <= i < |names| ==> files[names[i]].parsed == Some(fs[i])
  }

  ghost predicate NamesOf(files: map<Name, File>, names: seq<Name>) {
    && (forall n :: n in names <==> n in files)
    && forall i, j :: 0 <= i < j < |names| ==> TextLe(names[i], names[j]) && names[i] != names[j]
  }

  /** The manifest is for the version and tells what the fragments say. */
  ghost predicate ManifestFrom(env: Env, v: Version, withLxc: bool, fs: seq<Fragment>, m: Manifest) {
    && m.version == v && m.tag == v && m.archive == v
    && m.artifacts == [SourceArchives(v), SourceChecksums] + (if withLxc then [LxcTemplate(v), LxcNotes(v)] else [])
    && exists p :: Arranged(env.fold, fs, p) && Written(m, p)
  }

  /** The manifest of a request for these fragments. */
  ghost predicate ManifestOf(env: Env, a: Args, fs: seq<Fragment>, m: Manifest) {
    && ManifestFrom(env, a.version, a.withLxc, fs, m)
    && m.date == a.date && m.summary == Canonical(a.summary)
  }

  ghost predicate HasFile(o: Files, p: OutputPath, d: Document) {
    p in o && o[p] == d
  }

  /** The five files of a release, and nothing else changed. */
  ghost predicate Wrote(env: Env, o: Files, a: Args, fs: seq<Fragment>, m: Manifest, all: seq<Manifest>, o': Files) {
    var v := a.version;
    && HasFile(o', ManifestAt(v), ManifestYaml(m))
    && HasFile(o', Changelog, ChangelogText(env.render(all)))
    && HasFile(o', Asset(Snapshot, v), ChangelogText(env.render([m])))
    && HasFile(o', Asset(ReleaseNotes, v), NotesText(m))
    && (exists ids: seq<string> :: |ids| == |fs| && (forall i :: 0 <= i < |ids| ==> ids[i] == fs[i].id)
          && HasFile(o', Asset(ReleaseManifest, v), ManifestJson(v, a.date, ids, m.artifacts)))
    && forall p :: p !in {ManifestAt(v), Changelog, Asset(Snapshot, v), Asset(ReleaseNotes, v), Asset(ReleaseManifest, v)} ==>
         SameAt(o, o', p)
  }

  lemma ListedByName(files: map<Name, File>)
    requires Loadable(DirectoryListing(files))
    ensures ByName(files, ParsedAll(DirectoryListing(files)))
  {
    TextOrder();
    ListingSorted(TextLe, files.Keys);
    var names, fs := SortedNames(files.Keys), ParsedAll(DirectoryListing(files));
    hide Acceptable, TextLe;
    assert NamesOf(files, names);
    assert forall i :: 0 <= i < |names| ==> DirectoryListing(files)[i] == (names[i], files[names[i]]);
    hide SortedNames;
  }

  lemma BuiltIs(env: Env, a: Args, fs: seq<Fragment>)
    ensures ManifestOf(env, a, fs, ManifestFor(env, a, fs))
  {
    hide Canonical, Arranged, Written;
    ManifestHead(env.fold, a.version, a.date, Canonical(a.summary), fs, a.withLxc);
    ManifestIsWritten(env.fold, a.version, a.date, Canonical(a.summary), fs, a.withLxc);
    hide BuildManifest;
  }

  /** Putting the generated files in place. */
  lemma PutWrites(env: Env, o: Files, a: Args, fs: seq<Fragment>, m: Manifest, all: seq<Manifest>)
    requires m.version == a.version && m.date == a.date
    ensures var gen := Generated(env, m, all, fs);
      |gen| == 5 && Wrote(env, o, a, fs, m, all, Put(o, gen, 5))
  {
    var gen := Generated(env, m, all, fs);
    GeneratedShape(env, m, all, fs);
    PutIn(o, gen, 5, 0);
    PutIn(o, gen, 5, 1);
    PutIn(o, gen, 5, 2);
    PutIn(o, gen, 5, 3);
    PutIn(o, gen, 5, 4);
    forall p | p !in {ManifestAt(a.version), Changelog, Asset(Snapshot, a.version), Asset(ReleaseNotes, a.version),
                      Asset(ReleaseManifest, a.version)}
      ensures SameAt(o, Put(o, gen, 5), p)
    {
      PutElsewhere(o, gen, 5, p);
    }
    hide Put;
  }

  lemma ReleasedPlaces(t0: Tree, a: Args, gen: GeneratedFiles, t: Tree)
    requires Released(t0, a, gen, t)
    ensures t.pending == map[] && t.markers == t0.markers && ArchiveOf(t, a.version) == t0.pending
    ensures forall u :: u != a.version ==> ArchiveOf(t, u) == ArchiveOf(t0, u)
    ensures t.outputs == Put(t0.outputs, gen, |gen|)
  {
    hide Put;
  }

  lemma FreshGenerates(env: Env, t0: Tree, a: Args)
    requires Fresh(env, t0, a)
    ensures Loadable(DirectoryListing(t0.pending))
    ensures var m := TheManifest(env, t0, a);
      && m.version == a.version && m.date == a.date && LoadManifests(t0.outputs, Some(m)).Ok?
      && Gen(env, t0, a) == Generated(env, m, LoadManifests(t0.outputs, Some(m)).value, ParsedAll(DirectoryListing(t0.pending)))
  {
    hide Gen, Loadable, DirectoryListing, ParsedAll, LoadManifests, BuildManifest, FreshGate, CleanWorktree, GenerateFrom,
      ManifestValid, Generated;
    FreshFacts(env, t0, a);
    FirstGeneration(env, t0, a);
    hide Fresh, Plan, Untouched;
    assert TheManifest(env, t0, a).date == a.date by { BuiltIs(env, a, ParsedAll(DirectoryListing(t0.pending))); }
  }

  /** A completed release has moved the fragments to its archive, left every other archive and marker alone, and
      written its five files from them: the manifest, the changelog of all manifests, and the three assets. */
  lemma ReleaseWrites(env: Env, t0: Tree, a: Args, t: Tree) returns (fs: seq<Fragment>, m: Manifest, all: seq<Manifest>)
    requires Fresh(env, t0, a) && Released(t0, a, Gen(env, t0, a), t)
    ensures ByName(t0.pending, fs) && ManifestOf(env, a, fs, m) && ListsManifests(t0.outputs, Some(m), all)
    ensures Wrote(env, t0.outputs, a, fs, m, all, t.outputs)
    ensures t.pending == map[] && t.markers == t0.markers && ArchiveOf(t, a.version) == t0.pending
    ensures forall u :: u != a.version ==> ArchiveOf(t, u) == ArchiveOf(t0, u)
  {
    hide *;
    FreshGenerates(env, t0, a);
    ReleasedPlaces(t0, a, Gen(env, t0, a), t);
    fs := ParsedAll(DirectoryListing(t0.pending));
    m := TheManifest(env, t0, a);
    all := LoadManifests(t0.outputs, Some(m)).value;
    ListedByName(t0.pending);
    LoadedList(t0.outputs, Some(m));
    PutWrites(env, t0.outputs, a, fs, m, all);
    TheManifestIs(env, t0, a);
  }

  lemma TheManifestIs(env: Env, t0: Tree, a: Args)
    requires Loadable(DirectoryListing(t0.pending))
    ensures ManifestOf(env, a, ParsedAll(DirectoryListing(t0.pending)), TheManifest(env, t0, a))
  {
    hide ManifestOf, Loadable, DirectoryListing, ParsedAll, ManifestFor;
    BuiltIs(env, a, ParsedAll(DirectoryListing(t0.pending)));
  }

  // ---- What the validation of a tag demands ----

  lemma RebuiltIs(env: Env, v: Version, date: int, summary: string, withLxc: bool, fs: seq<Fragment>)
    ensures ManifestFrom(env, v, withLxc, fs, BuildManifest(env.fold, v, date, summary, fs, withLxc))
  {
    hide Arranged, Written;
    ManifestHead(env.fold, v, date, summary, fs, withLxc);
    ManifestIsWritten(env.fold, v, date, summary, fs, withLxc);
    hide BuildManifest;
  }

  /** A tag is accepted only if nothing is pending and no release is under way, the version's archive holds fragments
      that load, its manifest file states the version and tells exactly what those fragments say, and the changelog is
      rendered from the list of all stored manifests. */
  lemma TagMeans(env: Env, t: Tree, v: Version) returns (fs: seq<Fragment>, m: Manifest, all: seq<Manifest>)
    requires TagAccepted(env, t, v)
    ensures t.pending == map[] && v !in t.markers
    ensures ArchiveOf(t, v) != map[] && Loadable(DirectoryListing(ArchiveOf(t, v))) && ByName(ArchiveOf(t, v), fs)
    ensures HasFile(t.outputs, ManifestAt(v), ManifestYaml(m)) && ManifestFrom(env, v, HasLxc(m.artifacts), fs, m)
    ensures ListsManifests(t.outputs, None, all) && HasFile(t.outputs, Changelog, ChangelogText(env.render(all)))
  {
    hide Loadable, DirectoryListing, ParsedAll, LoadManifests, BuildManifest, ManifestFrom, ListsManifests, ByName;
    fs := ParsedAll(DirectoryListing(ArchiveOf(t, v)));
    m := t.outputs[ManifestAt(v)].manifest;
    all := LoadManifests(t.outputs, None).value;
    ListedByName(ArchiveOf(t, v));
    RebuiltIs(env, v, m.date, m.summary, HasLxc(m.artifacts), fs);
    LoadedList(t.outputs, None);
  }
}
