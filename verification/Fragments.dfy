/** Change fragments, their validation, and the release manifest built from them
    (scripts/changes.py). */
module Fragments {
  import opened Ordering
  import opened Selection
  import opened Words
  import opened Wrappers

  datatype ChangeType =
    | Bugfix | Feature | NewVd | Change | Deprecation | Removal | Security | Internal | NoChange

  datatype Audience = User | Admin | Operator | Developer

  datatype Category = Added | NewVirtualDevices | Changed | Deprecated | Removed | Fixed | SecurityFix

  datatype VirtualDevice = VirtualDevice(vendor: string, platform: string)

  datatype Fragment = Fragment(
    id: string, kind: ChangeType, title: string, description: string,
    components: seq<string>, audience: seq<Audience>, public: bool, breaking: bool,
    upgradeNotes: seq<string>, references: seq<string>,
    vd: Option<VirtualDevice>, reason: Option<string>)

  type Name = string

  /** A file is its bytes together with what they parse to; `None` stands for text that is not a
      readable mapping of well-typed fragment fields. */
  datatype File = File(bytes: string, parsed: Option<Fragment>)

  /** SHA-256, taken to be injective. */
  datatype Digest = Sha256(of: File)

  // ---- validate_fragment ----

  predicate Lower(c: char) { 'a' <= c <= 'z' || '0' <= c <= '9' }

  predicate Slug(s: string, low: nat, high: nat) {
    && low <= |s| <= high && |s| > 0 && Lower(s[0])
    && forall i :: 0 < i < |s| ==> Lower(s[i]) || s[i] == '-'
  }

  predicate NoDuplicates<T(==)>(s: seq<T>) {
    forall i, j :: 0 <= i < j < |s| ==> s[i] != s[j]
  }

  predicate AllNonBlank(s: seq<string>) {
    forall i :: 0 <= i < |s| ==> NonBlank(s[i])
  }

  /** `validate_fragment` reports no error for `f` stored under `name`. */
  predicate Acceptable(name: Name, f: Fragment) {
    && Slug(f.id, 6, 80) && name == f.id + ".yml"
    && NonBlank(f.title) && NonBlank(f.description)
    && f.components != [] && NoDuplicates(f.components)
    && (forall i :: 0 <= i < |f.components| ==> Slug(f.components[i], 2, 40))
    && f.audience != [] && NoDuplicates(f.audience)
    && AllNonBlank(f.upgradeNotes) && NoDuplicates(f.upgradeNotes)
    && AllNonBlank(f.references) && NoDuplicates(f.references)
    && (f.breaking ==> f.upgradeNotes != [])
    && (f.kind in {Internal, NoChange} ==> !f.public)
    && (f.kind == NoChange ==> f.reason.Some? && NonBlank(f.reason.value) && !f.breaking)
    && (f.kind != NoChange ==> f.reason.None?)
    && (f.kind == NewVd ==> f.vd.Some? && NonBlank(f.vd.value.vendor) && NonBlank(f.vd.value.platform))
    && (f.kind != NewVd ==> f.vd.None?)
  }

  type Listed = seq<(Name, File)>

  /** What `load_fragments` needs to raise no error: every file parses and validates, and ids are distinct. */
  predicate Loadable(files: Listed) {
    && (forall i :: 0 <= i < |files| ==>
          files[i].1.parsed.Some? && Acceptable(files[i].0, files[i].1.parsed.value))
    && (forall i, j :: 0 <= i < j < |files| ==> files[i].1.parsed.value.id != files[j].1.parsed.value.id)
  }

  function ParsedAll(files: Listed): (r: seq<Fragment>)
    requires Loadable(files)
    ensures |r| == |files| && forall i :: 0 <= i < |r| ==> r[i] == files[i].1.parsed.value
  {
    seq(|files|, i requires 0 <= i < |files| => files[i].1.parsed.value)
  }

  datatype Problem = Unreadable(name: Name) | Invalid(name: Name) | DuplicateId(first: Name, second: Name)

  /** `load_fragments`: one pass that remembers the ids it has seen and collects every problem. */
  method LoadFragments(files: Listed) returns (loaded: seq<Fragment>, problems: seq<Problem>)
    ensures problems == [] <==> Loadable(files)
    ensures problems == [] ==> loaded == ParsedAll(files)
  {
    loaded, problems := [], [];
    var seen: map<string, Name> := map[];
    for i := 0 to |files|
      invariant problems == [] <==> Loadable(files[..i])
      invariant problems == [] ==> loaded == ParsedAll(files[..i])
      invariant problems == [] ==>
                  forall id :: id in seen <==> exists j :: 0 <= j < i && files[j].1.parsed.value.id == id
      invariant forall id :: id in seen ==>
                  exists j :: 0 <= j < i && files[j].1.parsed.Some? && files[j].1.parsed.value.id == id
    {
      var (name, file) := files[i];
      var before := files[..i];
      assert files[..i + 1] == before + [files[i]];
      match file.parsed {
        case None =>
          problems := problems + [Unreadable(name)];
          assert !Loadable(files[..i + 1]) by { assert files[..i + 1][i] == files[i]; }
        case Some(f) =>
          ghost var was := problems;
          if !Acceptable(name, f) {
            problems := problems + [Invalid(name)];
          }
          if f.id in seen {
            problems := problems + [DuplicateId(seen[f.id], name)];
          } else {
            seen := seen[f.id := name];
          }
          assert Loadable(files[..i + 1]) ==> Loadable(before) && Acceptable(name, f) by {
            if Loadable(files[..i + 1]) {
              assert files[..i + 1][i] == files[i];
              assert forall j :: 0 <= j < i ==> files[..i + 1][j] == before[j];
            }
          }
          loaded := loaded + [f];
      }
    }
    assert files[..|files|] == files;
  }

  // ---- public_fragments ----

  predicate IsPublic(f: Fragment) {
    f.public && f.kind !in {Internal, NoChange}
  }

  function CategoryOf(k: ChangeType): Category
    requires k !in {Internal, NoChange}
  {
    match k
    case Feature => Added
    case NewVd => NewVirtualDevices
    case Change => Changed
    case Deprecation => Deprecated
    case Removal => Removed
    case Bugfix => Fixed
    case Security => SecurityFix
  }

  function CategoryRank(c: Category): nat {
    match c
    case Added => 0
    case NewVirtualDevices => 1
    case Changed => 2
    case Deprecated => 3
    case Removed => 4
    case Fixed => 5
    case SecurityFix => 6
  }

  function Rank(f: Fragment): nat {
    if IsPublic(f) then CategoryRank(CategoryOf(f.kind)) else 7
  }

  /** The sort key is (category, case-folded title, id), compared left to right.  `fold` is the
      Unicode case folding of titles; nothing depends on which function it is. */
  function ByCategory(fold: string -> string): (Fragment, Fragment) -> bool {
    (x: Fragment, y: Fragment) =>
      Rank(x) < Rank(y) || (Rank(x) == Rank(y) &&
        (if fold(x.title) != fold(y.title) then TextLe(fold(x.title), fold(y.title)) else TextLe(x.id, y.id)))
  }

  function OnlyPublic(fs: seq<Fragment>): seq<Fragment> {
    if fs == [] then [] else (if IsPublic(fs[0]) then [fs[0]] else []) + OnlyPublic(fs[1..])
  }

  function PublicFragments(fold: string -> string, fs: seq<Fragment>): seq<Fragment> {
    Sort(ByCategory(fold), OnlyPublic(fs))
  }

  // ---- build_manifest ----

  /** A semantic version, compared component by component. */
  datatype Version = Version(major: nat, minor: nat, patch: nat)

  predicate VersionLe(a: Version, b: Version) {
    a.major < b.major || (a.major == b.major &&
      (a.minor < b.minor || (a.minor == b.minor && a.patch <= b.patch)))
  }

  predicate VersionGe(a: Version, b: Version) { VersionLe(b, a) }

  datatype Entry = Entry(category: Category, title: string, body: string, changeId: string,
                         components: seq<string>, audience: seq<Audience>,
                         references: seq<string>, vd: Option<VirtualDevice>)

  function FragmentEntry(f: Fragment): Entry
    requires IsPublic(f)
  {
    Entry(CategoryOf(f.kind), f.title, f.description, f.id, f.components, f.audience, f.references, f.vd)
  }

  datatype Artifact = SourceArchives(v: Version) | SourceChecksums | LxcTemplate(v: Version) | LxcNotes(v: Version)

  predicate IsLxc(a: Artifact) { a.LxcTemplate? || a.LxcNotes? }

  predicate HasLxc(artifacts: seq<Artifact>) {
    exists i :: 0 <= i < |artifacts| && IsLxc(artifacts[i])
  }

  function ArtifactsFor(v: Version, withLxc: bool): (r: seq<Artifact>)
    ensures HasLxc(r) == withLxc
  {
    var base := [SourceArchives(v), SourceChecksums];
    var r := if withLxc then base + [LxcTemplate(v), LxcNotes(v)] else base;
    assert withLxc ==> IsLxc(r[2]);
    r
  }

  datatype Breaking = Breaking(title: string, body: string)

  /** `tag` and `archive` are the versions named by the manifest's tag and source note. */
  datatype Manifest = Manifest(
    version: Version, date: int, tag: Version, summary: string, entries: seq<Entry>,
    breaking: seq<Breaking>, upgradeNotes: seq<string>, artifacts: seq<Artifact>, archive: Version)

  function Entries(public: seq<Fragment>): (r: seq<Entry>)
    requires forall i :: 0 <= i < |public| ==> IsPublic(public[i])
    ensures |r| == |public| && forall i :: 0 <= i < |r| ==> r[i] == FragmentEntry(public[i])
  {
    seq(|public|, i requires 0 <= i < |public| => FragmentEntry(public[i]))
  }

  function BreakingOf(public: seq<Fragment>): seq<Breaking> {
    if public == [] then []
    else (if public[0].breaking then [Breaking(public[0].title, public[0].description)] else [])
         + BreakingOf(public[1..])
  }

  /** Append the notes of `more` that are not yet in `notes`, in order. */
  function AddNew(notes: seq<string>, more: seq<string>): seq<string>
    decreases more
  {
    if more == [] then notes
    else AddNew(if more[0] in notes then notes else notes + [more[0]], more[1..])
  }

  function NotesFrom(notes: seq<string>, public: seq<Fragment>): seq<string>
    decreases public
  {
    if public == [] then notes else NotesFrom(AddNew(notes, public[0].upgradeNotes), public[1..])
  }

  /** The nested loop of `build_manifest` that gathers upgrade notes. */
  method CollectNotes(public: seq<Fragment>) returns (notes: seq<string>)
    ensures notes == NotesFrom([], public)
  {
    notes := [];
    for i := 0 to |public|
      invariant NotesFrom(notes, public[i..]) == NotesFrom([], public)
    {
      var more := public[i].upgradeNotes;
      ghost var start := notes;
      for j := 0 to |more|
        invariant AddNew(notes, more[j..]) == AddNew(start, more)
      {
        assert more[j..][1..] == more[j + 1..];
        if more[j] !in notes {
          notes := notes + [more[j]];
        }
      }
      assert more[|more|..] == [];
      assert public[i..][1..] == public[i + 1..];
    }
    assert public[|public|..] == [];
  }

  lemma OnlyPublicArePublic(fs: seq<Fragment>)
    ensures forall f :: f in OnlyPublic(fs) <==> f in fs && IsPublic(f)
  {
  }

  lemma {:induction false} ByCategoryOrder(fold: string -> string)
    ensures Preorder(ByCategory(fold))
    ensures forall x, y :: ByCategory(fold)(x, y) && ByCategory(fold)(y, x) ==> x.id == y.id
  {
    TextOrder();
    var le := ByCategory(fold);
    forall x, y ensures le(x, y) || le(y, x) {
      TextLeTotal(fold(x.title), fold(y.title));
      TextLeTotal(x.id, y.id);
    }
    forall x, y, z | le(x, y) && le(y, z) ensures le(x, z) {
      if Rank(x) == Rank(y) == Rank(z) {
        var a, b, c := fold(x.title), fold(y.title), fold(z.title);
        if a != b && b != c {
          TextLeTransitive(a, b, c);
          TextLeTotal(a, b);
        } else if a == b == c {
          TextLeTransitive(x.id, y.id, z.id);
        }
      }
    }
    forall x, y | le(x, y) && le(y, x) ensures x.id == y.id {
      TextLeTotal(fold(x.title), fold(y.title));
      TextLeTotal(x.id, y.id);
    }
  }

  lemma PublicFragmentsMembers(fold: string -> string, fs: seq<Fragment>)
    ensures forall f :: f in PublicFragments(fold, fs) <==> f in fs && IsPublic(f)
    ensures Sorted(ByCategory(fold), PublicFragments(fold, fs))
    ensures multiset(PublicFragments(fold, fs)) == multiset(OnlyPublic(fs))
  {
    ByCategoryOrder(fold);
    SortCorrect(ByCategory(fold), OnlyPublic(fs));
    OnlyPublicArePublic(fs);
    forall f ensures f in PublicFragments(fold, fs) <==> f in fs && IsPublic(f) {
      assert f in PublicFragments(fold, fs) <==> f in multiset(PublicFragments(fold, fs));
      assert f in OnlyPublic(fs) <==> f in multiset(OnlyPublic(fs));
    }
  }

  function BuildManifest(fold: string -> string, v: Version, date: int, summary: string,
                         fs: seq<Fragment>, withLxc: bool): Manifest
  {
    var public := PublicFragments(fold, fs);
    PublicFragmentsMembers(fold, fs);
    Manifest(v, date, v, summary, Entries(public), BreakingOf(public), NotesFrom([], public),
             ArtifactsFor(v, withLxc), v)
  }

  // ---- What the manifest guarantees ----

  ghost predicate UniqueIds(fs: seq<Fragment>) {
    forall i, j :: 0 <= i < j < |fs| ==> fs[i].id != fs[j].id
  }

  lemma {:induction false} OnlyPublicMultiset(fs: seq<Fragment>, f: Fragment)
    ensures multiset(OnlyPublic(fs))[f] == if IsPublic(f) then multiset(fs)[f] else 0
  {
    if fs != [] {
      OnlyPublicMultiset(fs[1..], f);
      assert fs == [fs[0]] + fs[1..];
    }
  }

  lemma UniqueIdsIdentify(fs: seq<Fragment>, x: Fragment, y: Fragment)
    requires UniqueIds(fs) && x in fs && y in fs && x.id == y.id
    ensures x == y
  {
  }

  /** With unique ids the sorted public list depends only on which fragments there are. */
  lemma {:induction false} PublicOrderIndependent(fold: string -> string, xs: seq<Fragment>, ys: seq<Fragment>)
    requires UniqueIds(xs) && multiset(xs) == multiset(ys)
    ensures PublicFragments(fold, xs) == PublicFragments(fold, ys)
  {
    var a, b := PublicFragments(fold, xs), PublicFragments(fold, ys);
    ByCategoryOrder(fold);
    PublicFragmentsMembers(fold, xs);
    PublicFragmentsMembers(fold, ys);
    forall f ensures multiset(a)[f] == multiset(b)[f] {
      OnlyPublicMultiset(xs, f);
      OnlyPublicMultiset(ys, f);
    }
    assert multiset(a) == multiset(b);
    var le := ByCategory(fold);
    forall x, y | x in multiset(a) && y in multiset(a) && le(x, y) && le(y, x) ensures x == y {
      assert x in a && y in a;
      UniqueIdsIdentify(xs, x, y);
    }
    SortedArrangementUnique(le, a, b);
  }

  /** The manifest does not depend on the order in which the fragments were read. */
  lemma ManifestOrderIndependent(fold: string -> string, v: Version, date: int, summary: string,
                                 xs: seq<Fragment>, ys: seq<Fragment>, withLxc: bool)
    requires UniqueIds(xs) && multiset(xs) == multiset(ys)
    ensures BuildManifest(fold, v, date, summary, xs, withLxc) == BuildManifest(fold, v, date, summary, ys, withLxc)
  {
    PublicOrderIndependent(fold, xs, ys);
  }

  lemma {:induction false} PublicDistinct(fold: string -> string, fs: seq<Fragment>)
    requires UniqueIds(fs)
    ensures UniqueIds(PublicFragments(fold, fs))
  {
    var p := PublicFragments(fold, fs);
    PublicFragmentsMembers(fold, fs);
    forall i, j | 0 <= i < j < |p| ensures p[i].id != p[j].id {
      if p[i].id == p[j].id {
        assert p[i] in p && p[j] in p;
        UniqueIdsIdentify(fs, p[i], p[j]);
        var f := p[i];
        TwoOccurrences(p, i, j);
        OnlyPublicMultiset(fs, f);
        OccursOnce(fs, f);
        assert false;
      }
    }
  }

  lemma TwoOccurrences(p: seq<Fragment>, i: nat, j: nat)
    requires i < j < |p| && p[i] == p[j]
    ensures multiset(p)[p[i]] >= 2
  {
    assert p == p[..j] + p[j..];
    assert p[..j][i] in p[..j] && p[j..][0] in p[j..];
    assert p[i] in multiset(p[..j]) && p[i] in multiset(p[j..]);
  }

  lemma {:induction false} OccursOnce(fs: seq<Fragment>, f: Fragment)
    requires UniqueIds(fs)
    ensures multiset(fs)[f] <= 1
  {
    if fs != [] {
      OccursOnce(fs[1..], f);
      assert fs == [fs[0]] + fs[1..];
      if f == fs[0] {
        assert f !in fs[1..];
      }
    }
  }

  /** The entry carries what the fragment says, under the heading for its kind of change. */
  ghost predicate Tells(e: Entry, f: Fragment) {
    && (f.kind, e.category) in {(Feature, Added), (NewVd, NewVirtualDevices), (Change, Changed), (Deprecation, Deprecated),
                                (Removal, Removed), (Bugfix, Fixed), (Security, SecurityFix)}
    && e.title == f.title && e.body == f.description && e.changeId == f.id
    && e.components == f.components && e.audience == f.audience && e.references == f.references && e.vd == f.vd
  }

  /** A fragment for the public whose kind of change is one that is published. */
  ghost predicate Published(fs: seq<Fragment>, f: Fragment) {
    f in fs && f.public && f.kind != Internal && f.kind != NoChange
  }

  lemma EntryTells(fs: seq<Fragment>, f: Fragment)
    ensures f in fs && IsPublic(f) <==> Published(fs, f)
    ensures IsPublic(f) ==> Tells(FragmentEntry(f), f)
  {
  }

  /** The manifest in terms of the sorted public fragments. */
  lemma ManifestParts(fold: string -> string, v: Version, date: int, summary: string, fs: seq<Fragment>, withLxc: bool)
    ensures var p, m := PublicFragments(fold, fs), BuildManifest(fold, v, date, summary, fs, withLxc);
      && (forall i :: 0 <= i < |p| ==> IsPublic(p[i])) && (forall f :: f in p <==> Published(fs, f))
      && m.entries == Entries(p) && m.breaking == BreakingOf(p) && m.upgradeNotes == NotesFrom([], p)
      && |m.entries| == |p| && forall i :: 0 <= i < |p| ==> Tells(m.entries[i], p[i])
  {
    hide Tells, FragmentEntry, CategoryOf;
    PublicFragmentsMembers(fold, fs);
    hide PublicFragments;
    forall f ensures (f in fs && IsPublic(f) <==> Published(fs, f)) && (IsPublic(f) ==> Tells(FragmentEntry(f), f)) {
      EntryTells(fs, f);
    }
  }

  /** Every public fragment is listed exactly once, and nothing else is listed. */
  lemma {:induction false} ManifestListsEachPublicOnce(fold: string -> string, v: Version, date: int, summary: string,
                                    fs: seq<Fragment>, withLxc: bool)
    requires UniqueIds(fs)
    ensures var es := BuildManifest(fold, v, date, summary, fs, withLxc).entries;
      && (forall f :: Published(fs, f) ==> exists e :: e in es && Tells(e, f))
      && (forall e :: e in es ==> exists f :: Published(fs, f) && Tells(e, f))
      && (forall i, j :: 0 <= i < j < |es| ==> es[i].changeId != es[j].changeId)
  {
    var p := PublicFragments(fold, fs);
    var es := BuildManifest(fold, v, date, summary, fs, withLxc).entries;
    ManifestParts(fold, v, date, summary, fs, withLxc);
    PublicDistinct(fold, fs);
    hide BuildManifest, PublicFragments, Published, BreakingOf, NotesFrom;
    forall i, j | 0 <= i < j < |es| ensures es[i].changeId != es[j].changeId {
      assert Tells(es[i], p[i]) && Tells(es[j], p[j]);
    }
    hide Tells;
    forall f | Published(fs, f) ensures exists e :: e in es && Tells(e, f) {
      var i :| 0 <= i < |p| && p[i] == f;
      assert es[i] in es;
    }
    forall e | e in es ensures exists f :: Published(fs, f) && Tells(e, f) {
      var i :| 0 <= i < |es| && es[i] == e;
      assert p[i] in p;
    }
  }

  /** The heading under which a kind of change comes, counted from the top. */
  ghost function Section(k: ChangeType): nat {
    match k
    case Feature => 0
    case NewVd => 1
    case Change => 2
    case Deprecation => 3
    case Removal => 4
    case Bugfix => 5
    case Security => 6
    case _ => 7
  }

  /** The one comes before the other: by heading, then by folded title, then by id. */
  ghost predicate Before(fold: string -> string, x: Fragment, y: Fragment) {
    var a, b := fold(x.title), fold(y.title);
    || Section(x.kind) < Section(y.kind)
    || (Section(x.kind) == Section(y.kind) && ((a != b && TextLe(a, b)) || (a == b && TextLe(x.id, y.id))))
  }

  /** `p` is the public fragments, each as often as it is there, in the order of the manifest. */
  ghost predicate Arranged(fold: string -> string, fs: seq<Fragment>, p: seq<Fragment>) {
    && (forall f :: multiset(p)[f] == if Published(fs, f) then multiset(fs)[f] else 0)
    && (forall i, j :: 0 <= i < j < |p| ==> Before(fold, p[i], p[j]))
  }

  lemma SortedIsBefore(fold: string -> string, x: Fragment, y: Fragment)
    requires IsPublic(x) && IsPublic(y) && ByCategory(fold)(x, y)
    ensures Before(fold, x, y)
  {
    RankIsSection(x);
    RankIsSection(y);
    hide Rank, Section, TextLe;
  }

  lemma RankIsSection(f: Fragment)
    requires IsPublic(f)
    ensures Rank(f) == Section(f.kind)
  {
    match f.kind
    case Feature =>
    case NewVd =>
    case Change =>
    case Deprecation =>
    case Removal =>
    case Bugfix =>
    case Security =>
  }

  lemma PublicIsArranged(fold: string -> string, fs: seq<Fragment>)
    ensures Arranged(fold, fs, PublicFragments(fold, fs))
  {
    var p := PublicFragments(fold, fs);
    PublicFragmentsMembers(fold, fs);
    hide PublicFragments, Before, Published;
    forall f ensures multiset(p)[f] == if Published(fs, f) then multiset(fs)[f] else 0 {
      OnlyPublicMultiset(fs, f);
      EntryTells(fs, f);
    }
    forall i, j | 0 <= i < j < |p| ensures Before(fold, p[i], p[j]) {
      assert p[i] in p && p[j] in p;
      SortedIsBefore(fold, p[i], p[j]);
    }
  }

  predicate IsBreaking(f: Fragment) {
    f.breaking
  }

  lemma {:induction false} BreakingSelected(public: seq<Fragment>)
    ensures var q := Filter(public, IsBreaking);
      |BreakingOf(public)| == |q| && forall i :: 0 <= i < |q| ==> BreakingOf(public)[i] == Breaking(q[i].title, q[i].description)
  {
    if public != [] {
      BreakingSelected(public[1..]);
      FilterCons(public[0], public[1..], IsBreaking);
      assert [public[0]] + public[1..] == public;
    }
  }

  /** The manifest for an arrangement of the public fragments: an entry for each, the breaking ones among them once more
      in the same order, and their upgrade notes in the order in which they first occur. */
  ghost predicate Written(m: Manifest, p: seq<Fragment>) {
    && |m.entries| == |p| && (forall i :: 0 <= i < |p| ==> Tells(m.entries[i], p[i]))
    && (var q := Filter(p, IsBreaking);
        && |m.breaking| == |q|
        && forall i :: 0 <= i < |q| ==> m.breaking[i].title == q[i].title && m.breaking[i].body == q[i].description)
    && FirstOccurrences(AllNotes(p), m.upgradeNotes)
  }

  ghost function AllNotes(p: seq<Fragment>): seq<string> {
    if p == [] then [] else AllNotes(p[..|p| - 1]) + p[|p| - 1].upgradeNotes
  }

  /** What there is, each once, and of any two the one first that occurs first. */
  ghost predicate FirstOccurrences(all: seq<string>, some: seq<string>) {
    && Distinct(some) && (forall n :: n in some <==> n in all)
    && forall j, k :: 0 <= j < k < |some| ==> OccursFirst(all, some[j], some[k])
  }

  ghost predicate OccursFirst(all: seq<string>, x: string, y: string) {
    exists a :: 0 <= a <= |all| && x in all[..a] && y !in all[..a]
  }

  lemma OccursFirstLater(all: seq<string>, more: seq<string>, x: string, y: string)
    requires OccursFirst(all, x, y)
    ensures OccursFirst(all + more, x, y)
  {
    var a :| 0 <= a <= |all| && x in all[..a] && y !in all[..a];
    assert (all + more)[..a] == all[..a];
  }

  lemma OneMoreNote(all: seq<string>, some: seq<string>, n: string)
    requires FirstOccurrences(all, some)
    ensures FirstOccurrences(all + [n], if n in some then some else some + [n])
  {
    var more, next := all + [n], if n in some then some else some + [n];
    forall j, k | 0 <= j < k < |next| ensures OccursFirst(more, next[j], next[k]) {
      if k < |some| {
        OccursFirstLater(all, [n], some[j], some[k]);
      } else {
        assert more[..|all|] == all;
      }
    }
  }

  lemma {:induction false} MoreNotes(all: seq<string>, notes: seq<string>, more: seq<string>)
    requires FirstOccurrences(all, notes)
    ensures FirstOccurrences(all + more, AddNew(notes, more))
    decreases more
  {
    hide FirstOccurrences;
    if more == [] {
      assert all + more == all;
    } else {
      OneMoreNote(all, notes, more[0]);
      MoreNotes(all + [more[0]], if more[0] in notes then notes else notes + [more[0]], more[1..]);
      assert all + [more[0]] + more[1..] == all + more;
    }
  }

  lemma AllNotesAppend(p: seq<Fragment>, f: Fragment)
    ensures AllNotes(p + [f]) == AllNotes(p) + f.upgradeNotes
  {
    assert (p + [f])[..|p|] == p;
  }

  lemma {:induction false} NotesInOrder(before: seq<Fragment>, notes: seq<string>, public: seq<Fragment>)
    requires FirstOccurrences(AllNotes(before), notes)
    ensures FirstOccurrences(AllNotes(before + public), NotesFrom(notes, public))
    decreases public
  {
    hide FirstOccurrences;
    if public == [] {
      assert before + public == before;
    } else {
      var next := before + [public[0]];
      AllNotesAppend(before, public[0]);
      hide AllNotes;
      MoreNotes(AllNotes(before), notes, public[0].upgradeNotes);
      NotesInOrder(next, AddNew(notes, public[0].upgradeNotes), public[1..]);
      assert next + public[1..] == before + public;
    }
  }

  /** The manifest holds the values it is asked for and the fixed artifacts. */
  lemma ManifestHead(fold: string -> string, v: Version, date: int, summary: string, fs: seq<Fragment>, withLxc: bool)
    ensures var m := BuildManifest(fold, v, date, summary, fs, withLxc);
      && m.version == v && m.date == date && m.tag == v && m.summary == summary && m.archive == v
      && m.artifacts == [SourceArchives(v), SourceChecksums] + if withLxc then [LxcTemplate(v), LxcNotes(v)] else []
  {
    hide PublicFragments, BreakingOf, NotesFrom;
  }

  /** And for any fragments at all it holds what some arrangement of the public ones says. */
  lemma ManifestIsWritten(fold: string -> string, v: Version, date: int, summary: string, fs: seq<Fragment>, withLxc: bool)
    ensures exists p :: Arranged(fold, fs, p) && Written(BuildManifest(fold, v, date, summary, fs, withLxc), p)
  {
    var p := PublicFragments(fold, fs);
    PublicIsArranged(fold, fs);
    WrittenFrom(fold, v, date, summary, fs, withLxc);
    hide *;
  }

  lemma WrittenFrom(fold: string -> string, v: Version, date: int, summary: string, fs: seq<Fragment>, withLxc: bool)
    ensures Written(BuildManifest(fold, v, date, summary, fs, withLxc), PublicFragments(fold, fs))
  {
    var p := PublicFragments(fold, fs);
    ManifestParts(fold, v, date, summary, fs, withLxc);
    BreakingSelected(p);
    NotesFirst(p);
    hide BuildManifest, PublicFragments, FirstOccurrences, Tells, BreakingOf, NotesFrom, Entries, AllNotes, Filter;
  }

  lemma NotesFirst(p: seq<Fragment>)
    ensures FirstOccurrences(AllNotes(p), NotesFrom([], p))
  {
    NotesInOrder([], [], p);
    assert [] + p == p;
  }

  /** Every public breaking change is listed, and nothing else is; how often and in what order, `ManifestIsWritten` says. */
  lemma ManifestListsEachBreaking(fold: string -> string, v: Version, date: int, summary: string,
                                  fs: seq<Fragment>, withLxc: bool, b: Breaking)
    ensures b in BuildManifest(fold, v, date, summary, fs, withLxc).breaking <==>
      exists f :: Published(fs, f) && f.breaking && b.title == f.title && b.body == f.description
  {
    var p, bs := PublicFragments(fold, fs), BuildManifest(fold, v, date, summary, fs, withLxc).breaking;
    var q := Filter(p, IsBreaking);
    ManifestParts(fold, v, date, summary, fs, withLxc);
    BreakingSelected(p);
    hide BuildManifest, PublicFragments, Published, Tells, BreakingOf, NotesFrom, Filter;
    forall f ensures f in q <==> Published(fs, f) && f.breaking { FilterMembers(p, IsBreaking, f); }
    if b in bs {
      var i :| 0 <= i < |bs| && bs[i] == b;
      assert q[i] in q;
    }
    if f :| Published(fs, f) && f.breaking && b.title == f.title && b.body == f.description {
      var i :| 0 <= i < |q| && q[i] == f;
      assert bs[i] == b;
    }
  }

  lemma {:induction false} AddNewAccumulates(notes: seq<string>, more: seq<string>)
    requires Distinct(notes)
    ensures Distinct(AddNew(notes, more))
    ensures forall n :: n in AddNew(notes, more) <==> n in notes || n in more
    ensures notes <= AddNew(notes, more)
    decreases more
  {
    if more != [] {
      AddNewAccumulates(if more[0] in notes then notes else notes + [more[0]], more[1..]);
      assert more == [more[0]] + more[1..];
    }
  }

  lemma {:induction false} NotesAccumulate(notes: seq<string>, public: seq<Fragment>)
    requires Distinct(notes)
    ensures Distinct(NotesFrom(notes, public))
    ensures forall n :: n in NotesFrom(notes, public) <==>
      n in notes || exists f :: f in public && n in f.upgradeNotes
    ensures notes <= NotesFrom(notes, public)
    decreases public
  {
    if public != [] {
      AddNewAccumulates(notes, public[0].upgradeNotes);
      NotesAccumulate(AddNew(notes, public[0].upgradeNotes), public[1..]);
      assert forall f :: f in public <==> f == public[0] || f in public[1..];
    }
  }

  /** Every upgrade note of a public fragment is listed exactly once, and no other note is. */
  lemma ManifestListsEachNoteOnce(fold: string -> string, v: Version, date: int, summary: string,
                                  fs: seq<Fragment>, withLxc: bool)
    ensures var notes := BuildManifest(fold, v, date, summary, fs, withLxc).upgradeNotes;
      && Distinct(notes)
      && forall n :: n in notes <==> exists f :: f in fs && IsPublic(f) && n in f.upgradeNotes
  {
    PublicFragmentsMembers(fold, fs);
    NotesAccumulate([], PublicFragments(fold, fs));
  }

  /** What validation of the fragment behind an entry is good for. */
  ghost predicate WellFormed(files: Listed, e: Entry) {
    && (exists i :: 0 <= i < |files| && files[i].0 == e.changeId + ".yml") && 6 <= |e.changeId| <= 80
    && (exists i :: 0 <= i < |e.title| && !IsSpace(e.title[i])) && (exists i :: 0 <= i < |e.body| && !IsSpace(e.body[i]))
    && e.components != [] && e.audience != [] && Distinct(e.components) && Distinct(e.audience) && Distinct(e.references)
    && (e.vd.Some? <==> e.category == NewVirtualDevices)
  }

  lemma AcceptableIsWellFormed(files: Listed, k: nat, f: Fragment, e: Entry)
    requires k < |files| && Acceptable(files[k].0, f) && Tells(e, f)
    ensures WellFormed(files, e) && (f.breaking ==> f.upgradeNotes != [])
  {
    NonBlankMeans(e.title);
    NonBlankMeans(e.body);
    hide NonBlank;
    assert files[k].0 == e.changeId + ".yml";
  }

  lemma NotesOfBreaking(fold: string -> string, v: Version, date: int, summary: string, fs: seq<Fragment>, withLxc: bool)
    requires forall f :: f in fs && f.breaking ==> f.upgradeNotes != []
    ensures var m := BuildManifest(fold, v, date, summary, fs, withLxc); m.breaking != [] ==> m.upgradeNotes != []
  {
    var m := BuildManifest(fold, v, date, summary, fs, withLxc);
    if m.breaking != [] {
      ManifestListsEachBreaking(fold, v, date, summary, fs, withLxc, m.breaking[0]);
      ManifestListsEachNoteOnce(fold, v, date, summary, fs, withLxc);
      hide BuildManifest;
      var f :| Published(fs, f) && f.breaking && m.breaking[0].title == f.title && m.breaking[0].body == f.description;
      assert f.upgradeNotes[0] in f.upgradeNotes && IsPublic(f);
      assert f.upgradeNotes[0] in m.upgradeNotes;
    }
  }

  /** Entries built from files that load are well formed, and no breaking change comes without an upgrade note. */
  lemma LoadedManifest(fold: string -> string, v: Version, date: int, summary: string, files: Listed, withLxc: bool, e: Entry)
    requires Loadable(files)
    ensures var m := BuildManifest(fold, v, date, summary, ParsedAll(files), withLxc);
      (e in m.entries ==> WellFormed(files, e)) && (m.breaking != [] ==> m.upgradeNotes != [])
  {
    var fs := ParsedAll(files);
    ManifestParts(fold, v, date, summary, fs, withLxc);
    var m, p := BuildManifest(fold, v, date, summary, fs, withLxc), PublicFragments(fold, fs);
    hide BuildManifest, PublicFragments, BreakingOf, NotesFrom, Entries, Acceptable, Tells, WellFormed;
    if e in m.entries {
      var i :| 0 <= i < |m.entries| && m.entries[i] == e;
      assert p[i] in p;
      var k :| 0 <= k < |fs| && fs[k] == p[i];
      AcceptableIsWellFormed(files, k, p[i], e);
    }
    forall f | f in fs && f.breaking ensures f.upgradeNotes != [] {
      var k :| 0 <= k < |fs| && fs[k] == f;
      BreakingNeedsNote(files[k].0, f);
    }
    NotesOfBreaking(fold, v, date, summary, fs, withLxc);
  }

  lemma BreakingNeedsNote(name: Name, f: Fragment)
    requires Acceptable(name, f)
    ensures f.breaking ==> f.upgradeNotes != []
  {
  }

  lemma VersionOrder()
    ensures TotalOrder(VersionLe) && TotalOrder(VersionGe)
  {
  }

  /** Versions compare like numbers with their components as digits, in any base above the components. */
  lemma VersionLeMeans(a: Version, b: Version, base: nat)
    requires a.minor < base && a.patch < base && b.minor < base && b.patch < base
    ensures VersionLe(a, b) <==> (a.major * base + a.minor) * base + a.patch <= (b.major * base + b.minor) * base + b.patch
  {
    TwoDigits(a.major, a.minor, b.major, b.minor, base);
    TwoDigits(a.major * base + a.minor, a.patch, b.major * base + b.minor, b.patch, base);
  }

  lemma TwoDigits(h: nat, l: nat, i: nat, m: nat, base: nat)
    requires l < base && m < base
    ensures h * base + l <= i * base + m <==> h < i || (h == i && l <= m)
    ensures h * base + l == i * base + m <==> h == i && l == m
  {
    if h < i {
      Digit(h, i, base);
    } else if i < h {
      Digit(i, h, base);
    }
  }

  lemma {:induction false} Digit(h: nat, i: nat, base: nat)
    requires h < i
    ensures h * base + base <= i * base
    decreases i
  {
    assert i * base == (i - 1) * base + base;
    if h < i - 1 { Digit(h, i - 1, base); }
  }
}
