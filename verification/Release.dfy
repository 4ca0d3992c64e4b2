/** The release command of scripts/changes.py: what it accepts, and the file operations it performs in order. */
module Release {
  import opened Ordering
  import opened Words
  import opened Fragments
  import opened Wrappers

  datatype Refusal =
    | CorruptMarker | DifferentMetadata | EmptyInventory | UnexpectedFragments
    | MissingFragment(name: Name) | ContentChanged(name: Name)
    | ManifestWithoutArchive | PendingDiffers | NothingPending | DirtyWorktree
    | VersionNotNewer | DateGoesBack | UnreadableManifest | MetadataImmutable
    | InvalidFragments | InvalidManifest | CannotArchive(name: Name)

  datatype Result<+T> = Ok(value: T) | Refused(why: Refusal) {
    predicate IsFailure() { Refused? }
    function PropagateFailure<U>(): Result<U> requires Refused? { Refused(why) }
    function Extract(): T requires Ok? { value }
  }

  datatype Args = Args(version: Version, date: int, summary: string, withLxc: bool)

  /** The contents of `.release-transaction.json`. */
  datatype Transaction = Transaction(version: Version, date: int, summary: string, withLxc: bool,
                                     fragments: map<Name, Digest>)

  datatype MarkerFile = Corrupt | Holds(tx: Transaction)

  datatype AssetKind = Snapshot | ReleaseNotes | ReleaseManifest

  datatype OutputPath = ManifestAt(version: Version) | Changelog | Asset(kind: AssetKind, of: Version)

  /** A generated file, described by the values it is rendered from. */
  datatype Document =
    | ManifestYaml(manifest: Manifest)
    | ChangelogText(text: string)
    | NotesText(manifest: Manifest)
    | ManifestJson(version: Version, date: int, changes: seq<string>, artifacts: seq<Artifact>)
    | OtherText(other: string)

  /** The files the command reads and writes.  `archives` holds the non-empty version directories. */
  datatype Tree = Tree(
    pending: map<Name, File>,
    archives: map<Version, map<Name, File>>,
    markers: map<Version, MarkerFile>,
    outputs: map<OutputPath, Document>)

  /** `git`: the root is a git checkout; `head` is what its last commit holds; `fold` is case folding and `render`
      is `render_changelog`, both arbitrary functions. */
  datatype Env = Env(git: bool, head: Tree, fold: string -> string, render: seq<Manifest> -> string)

  /** `litter` counts staging directories that killed runs left in the root (they are not git-ignored). */
  datatype World = World(tree: Tree, litter: nat)

  function ArchiveOf(t: Tree, v: Version): map<Name, File> {
    if v in t.archives then t.archives[v] else map[]
  }

  /** Outputs under version control; `dist/` is ignored by git. */
  function Tracked(outputs: map<OutputPath, Document>): map<OutputPath, Document> {
    map p | p in outputs && !p.Asset? :: outputs[p]
  }

  /** `ensure_clean_release_worktree` raises nothing. */
  predicate CleanWorktree(env: Env, w: World) {
    env.git ==>
      && w.litter == 0
      && w.tree.pending == env.head.pending && w.tree.archives == env.head.archives
      && w.tree.markers == env.head.markers && Tracked(w.tree.outputs) == Tracked(env.head.outputs)
  }

  // ---- Which fragments a run works on ----

  function InOrder(names: seq<Name>, files: map<Name, File>): (r: Listed)
    requires forall n :: n in names ==> n in files
    ensures |r| == |names| && forall i :: 0 <= i < |r| ==> r[i] == (names[i], files[names[i]])
  {
    seq(|names|, i requires 0 <= i < |names| => (names[i], files[names[i]]))
  }

  /** The names in code-point order, each once. */
  function SortedNames(names: set<Name>): (r: seq<Name>)
    ensures forall n :: n in r <==> n in names
    ensures Distinct(r)
  {
    TextOrder();
    ListingSorted(TextLe, names);
    Listing(TextLe, names)
  }

  /** `sorted(dir.glob("*.yml"))`. */
  function DirectoryListing(files: map<Name, File>): Listed {
    InOrder(SortedNames(files.Keys), files)
  }

  predicate SameMetadata(tx: Transaction, a: Args) {
    tx.version == a.version && tx.date == a.date && tx.summary == Canonical(a.summary) && tx.withLxc == a.withLxc
  }

  function SelectNames(names: seq<Name>, expected: map<Name, Digest>,
                       pending: map<Name, File>, archived: map<Name, File>): Result<Listed>
    requires forall n :: n in names ==> n in expected
  {
    if names == [] then Ok([]) else
      var n := names[0];
      if n !in archived && n !in pending then Refused(MissingFragment(n))
      else if (n in archived && Sha256(archived[n]) != expected[n])
           || (n in pending && Sha256(pending[n]) != expected[n]) then Refused(ContentChanged(n))
      else
        var rest :- SelectNames(names[1..], expected, pending, archived);
        Ok([(n, if n in archived then archived[n] else pending[n])] + rest)
  }

  /** `_resume_release_paths`. */
  function ResumeSelection(tx: Transaction, a: Args, pending: map<Name, File>, archived: map<Name, File>): Result<Listed> {
    if !SameMetadata(tx, a) then Refused(DifferentMetadata)
    else if tx.fragments == map[] then Refused(EmptyInventory)
    else if !(pending.Keys + archived.Keys <= tx.fragments.Keys) then Refused(UnexpectedFragments)
    else SelectNames(SortedNames(tx.fragments.Keys), tx.fragments, pending, archived)
  }

  function ReleasedVersions(outputs: map<OutputPath, Document>): (r: set<Version>)
    ensures forall u :: u in r <==> ManifestAt(u) in outputs
  {
    var r := set p | p in outputs.Keys && p.ManifestAt? :: p.version;
    assert forall u :: ManifestAt(u) in outputs ==> ManifestAt(u).version in r;
    r
  }

  /** The gates of a first run: newer than every release, and not dated before any. */
  function FreshGate(outputs: map<OutputPath, Document>, a: Args): Result<()> {
    var released := ReleasedVersions(outputs);
    if exists u | u in released :: VersionLe(a.version, u) then Refused(VersionNotNewer)
    else if exists u | u in released :: !outputs[ManifestAt(u)].ManifestYaml? then Refused(UnreadableManifest)
    else if exists u | u in released :: a.date < outputs[ManifestAt(u)].manifest.date then Refused(DateGoesBack)
    else Ok(())
  }

  function Select(env: Env, w: World, a: Args): Result<Listed> {
    var t, v := w.tree, a.version;
    var archived := ArchiveOf(t, v);
    if v in t.markers then
      if t.markers[v].Corrupt? then Refused(CorruptMarker)
      else ResumeSelection(t.markers[v].tx, a, t.pending, archived)
    else if ManifestAt(v) in t.outputs && archived == map[] then Refused(ManifestWithoutArchive)
    else if archived != map[] then
      if t.pending != map[] && t.pending != archived then Refused(PendingDiffers)
      else Ok(DirectoryListing(archived))
    else if t.pending == map[] then Refused(NothingPending)
    else if !CleanWorktree(env, w) then Refused(DirtyWorktree)
    else
      var _ :- FreshGate(t.outputs, a);
      Ok(DirectoryListing(t.pending))
  }

  // ---- What a run generates ----

  predicate ManifestValid(m: Manifest) {
    && NonBlank(m.summary) && m.tag == m.version
    && (forall i :: 0 <= i < |m.entries| ==> NonBlank(m.entries[i].title) && NonBlank(m.entries[i].body))
    && (forall i :: 0 <= i < |m.breaking| ==> NonBlank(m.breaking[i].title) && NonBlank(m.breaking[i].body))
    && AllNonBlank(m.upgradeNotes)
  }

  /** A manifest on disk may only be regenerated with the values it was released with. */
  predicate ImmutableMatch(m: Manifest, a: Args) {
    && m.version == a.version && m.date == a.date
    && Canonical(m.summary) == Canonical(a.summary) && HasLxc(m.artifacts) == a.withLxc
  }

  /** The loop of `load_manifests`: each file is filed under the version it states. */
  function FileManifests(acc: map<Version, Manifest>, paths: seq<Version>,
                         outputs: map<OutputPath, Document>): Result<map<Version, Manifest>>
    decreases paths
  {
    if paths == [] then Ok(acc)
    else if ManifestAt(paths[0]) !in outputs || !outputs[ManifestAt(paths[0])].ManifestYaml? then Refused(UnreadableManifest)
    else
      var m := outputs[ManifestAt(paths[0])].manifest;
      FileManifests(acc[m.version := m], paths[1..], outputs)
  }

  function Newest(ms: map<Version, Manifest>): (r: seq<Manifest>) {
    VersionOrder();
    var vs := Listing(VersionGe, ms.Keys);
    seq(|vs|, i requires 0 <= i < |vs| => ms[vs[i]])
  }

  /** `release_paths`: the versions that have a manifest file, newest first. */
  function ReleasePaths(outputs: map<OutputPath, Document>): (r: seq<Version>)
    ensures forall u :: u in r <==> ManifestAt(u) in outputs
  {
    VersionOrder();
    Listing(VersionGe, ReleasedVersions(outputs))
  }

  /** `load_manifests`, newest first, with `extra` replacing any manifest of its version. */
  function LoadManifests(outputs: map<OutputPath, Document>, extra: Option<Manifest>): Result<seq<Manifest>> {
    var ms :- FileManifests(map[], ReleasePaths(outputs), outputs);
    Ok(Newest(if extra.Some? then ms[extra.value.version := extra.value] else ms))
  }

  function ChangeIds(fs: seq<Fragment>): (r: seq<string>)
    ensures |r| == |fs| && forall i :: 0 <= i < |r| ==> r[i] == fs[i].id
  {
    seq(|fs|, i requires 0 <= i < |fs| => fs[i].id)
  }

  /** The five generated files, in the order they are put in place. */
  function Generated(env: Env, m: Manifest, all: seq<Manifest>, fs: seq<Fragment>): seq<(OutputPath, Document)> {
    [ (ManifestAt(m.version), ManifestYaml(m)),
      (Changelog, ChangelogText(env.render(all))),
      (Asset(Snapshot, m.version), ChangelogText(env.render([m]))),
      (Asset(ReleaseNotes, m.version), NotesText(m)),
      (Asset(ReleaseManifest, m.version), ManifestJson(m.version, m.date, ChangeIds(fs), m.artifacts)) ]
  }

  function ManifestFor(env: Env, a: Args, fs: seq<Fragment>): Manifest {
    BuildManifest(env.fold, a.version, a.date, Canonical(a.summary), fs, a.withLxc)
  }

  /** What a run generates from the fragments it selected, given the outputs already on disk. */
  function GenerateFrom(env: Env, outputs: map<OutputPath, Document>, a: Args, selected: Listed): Result<seq<(OutputPath, Document)>> {
    var at := ManifestAt(a.version);
    if at in outputs && !outputs[at].ManifestYaml? then Refused(UnreadableManifest)
    else if at in outputs && !ImmutableMatch(outputs[at].manifest, a) then Refused(MetadataImmutable)
    else if !Loadable(selected) then Refused(InvalidFragments)
    else
      var fs := ParsedAll(selected);
      var m := ManifestFor(env, a, fs);
      if !ManifestValid(m) then Refused(InvalidManifest)
      else
        var all :- LoadManifests(outputs, Some(m));
        Ok(Generated(env, m, all, fs))
  }

  function Prepare(env: Env, w: World, a: Args): Result<seq<(OutputPath, Document)>> {
    var selected :- Select(env, w, a);
    GenerateFrom(env, w.tree.outputs, a, selected)
  }

  // ---- The file operations ----

  datatype Action =
    | WriteMarker(v: Version, tx: Transaction)
    | CopyIn(v: Version, name: Name, file: File)
    | Publish(path: OutputPath, doc: Document)
    | Unlink(name: Name)
    | DropMarker(v: Version)

  function Apply(t: Tree, x: Action): Tree {
    match x
    case WriteMarker(v, tx) => t.(markers := t.markers[v := Holds(tx)])
    case CopyIn(v, n, f) => t.(archives := t.archives[v := ArchiveOf(t, v)[n := f]])
    case Publish(p, d) => t.(outputs := t.outputs[p := d])
    case Unlink(n) => t.(pending := t.pending - {n})
    case DropMarker(v) => t.(markers := t.markers - {v})
  }

  function ApplyAll(t: Tree, xs: seq<Action>): Tree
    decreases xs
  {
    if xs == [] then t else ApplyAll(Apply(t, xs[0]), xs[1..])
  }

  function Digests(files: map<Name, File>): map<Name, Digest> {
    map n | n in files :: Sha256(files[n])
  }

  /** `_release_transaction_payload`. */
  function Payload(a: Args, pending: map<Name, File>): Transaction {
    Transaction(a.version, a.date, Canonical(a.summary), a.withLxc, Digests(pending))
  }

  /** The inventory a run archives: the one in the marker, or a new one. */
  function Expected(t: Tree, a: Args): map<Name, Digest> {
    if a.version in t.markers && t.markers[a.version].Holds? then t.markers[a.version].tx.fragments
    else Digests(t.pending)
  }

  /** The pending files that the archive of `v` does not hold yet. */
  function Unarchived(t: Tree, v: Version): map<Name, File> {
    t.pending - ArchiveOf(t, v).Keys
  }

  function Copies(v: Version, names: seq<Name>, pending: map<Name, File>): seq<Action> {
    if names == [] then []
    else (if names[0] in pending then [CopyIn(v, names[0], pending[names[0]])] else []) + Copies(v, names[1..], pending)
  }

  function Publishes(gen: seq<(OutputPath, Document)>): (r: seq<Action>)
    ensures |r| == |gen| && forall i :: 0 <= i < |r| ==> r[i] == Publish(gen[i].0, gen[i].1)
  {
    seq(|gen|, i requires 0 <= i < |gen| => Publish(gen[i].0, gen[i].1))
  }

  function Unlinks(names: seq<Name>): (r: seq<Action>)
    ensures |r| == |names| && forall i :: 0 <= i < |r| ==> r[i] == Unlink(names[i])
  {
    seq(|names|, i requires 0 <= i < |names| => Unlink(names[i]))
  }

  /** The operations of one run: phases executed one after the other. */
  datatype Program = Done | Phase(now: seq<Action>, next: Program)

  function Length(p: Program): nat {
    match p
    case Done => 0
    case Phase(now, next) => |now| + Length(next)
  }

  /** The operation at position `k`. */
  function Operation(p: Program, k: nat): Action
    requires k < Length(p)
  {
    if k < |p.now| then p.now[k] else Operation(p.next, k - |p.now|)
  }

  /** The tree after the first `k` operations. */
  function Exec(t: Tree, p: Program, k: nat): Tree
    decreases p
  {
    match p
    case Done => t
    case Phase(now, next) => if k <= |now| then ApplyAll(t, now[..k]) else Exec(ApplyAll(t, now), next, k - |now|)
  }

  function MarkPhase(t: Tree, a: Args): seq<Action> {
    if t.pending != map[] && a.version !in t.markers then [WriteMarker(a.version, Payload(a, t.pending))] else []
  }

  function CopyPhase(t: Tree, a: Args): seq<Action> {
    if t.pending != map[]
    then Copies(a.version, SortedNames(Expected(t, a).Keys), Unarchived(t, a.version)) else []
  }

  function UnlinkPhase(t: Tree): seq<Action> {
    Unlinks(SortedNames(t.pending.Keys))
  }

  /** Write the marker, archive, put the outputs in place, remove the pending files, remove the marker. */
  function ProgramOf(t: Tree, a: Args, gen: seq<(OutputPath, Document)>): Program {
    Phase(MarkPhase(t, a), Phase(CopyPhase(t, a),
      Phase(Publishes(gen), Phase(UnlinkPhase(t), Phase([DropMarker(a.version)], Done)))))
  }

  function Plan(env: Env, w: World, a: Args): Result<Program> {
    var gen :- Prepare(env, w, a);
    Ok(ProgramOf(w.tree, a, gen))
  }

  // ---- Interrupted runs ----

  /** A run stopped after `after` completed operations.  `torn` is what a copy cut short left behind,
      and `leavesStaging` says whether the killed process left its staging directory. */
  datatype Stop = Stop(after: nat, leavesStaging: bool, torn: Option<File>)

  function Interrupted(t: Tree, p: Program, s: Stop): Tree {
    if s.after >= Length(p) then Exec(t, p, Length(p))
    else
      var reached, x := Exec(t, p, s.after), Operation(p, s.after);
      if x.CopyIn? && s.torn.Some? then Apply(reached, CopyIn(x.v, x.name, s.torn.value)) else reached
  }

  function Run(env: Env, w: World, a: Args, s: Stop): World {
    match Plan(env, w, a)
    case Refused(_) => w
    case Ok(p) => World(Interrupted(w.tree, p, s),
                        if s.leavesStaging then w.litter + 1 else w.litter)
  }

  /** A run that is not interrupted. */
  function Complete(env: Env, w: World, a: Args): World
    requires Plan(env, w, a).Ok?
  {
    var p := Plan(env, w, a).value;
    World(Exec(w.tree, p, Length(p)), w.litter)
  }

  function Runs(env: Env, w: World, runs: seq<(Args, Stop)>): World
    decreases runs
  {
    if runs == [] then w else Runs(env, Run(env, w, runs[0].0, runs[0].1), runs[1..])
  }

  // ---- validate_tag ----

  /** `validate_tag` raises nothing. */
  predicate TagAccepted(env: Env, t: Tree, v: Version) {
    var at := ManifestAt(v);
    && at in t.outputs && t.outputs[at].ManifestYaml?
    && t.outputs[at].manifest.tag == v
    && t.pending == map[]
    && v !in t.markers
    && ArchiveOf(t, v) != map[]
    && Loadable(DirectoryListing(ArchiveOf(t, v)))
    && (var m := t.outputs[at].manifest;
        m == BuildManifest(env.fold, v, m.date, m.summary,
                           ParsedAll(DirectoryListing(ArchiveOf(t, v))), HasLxc(m.artifacts)))
    && (var all := LoadManifests(t.outputs, None);
        all.Ok? && Changelog in t.outputs && t.outputs[Changelog] == ChangelogText(env.render(all.value)))
  }
}
