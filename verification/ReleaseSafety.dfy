/** No fragment is lost: what any run, stopped anywhere, keeps. */
module ReleaseSafety {
  import opened Ordering
  import opened Fragments
  import opened Wrappers
  import opened Release

  // ---- Executing phases ----

  lemma {:induction false} ApplyAllAppend(t: Tree, xs: seq<Action>, ys: seq<Action>)
    ensures ApplyAll(t, xs + ys) == ApplyAll(ApplyAll(t, xs), ys)
    decreases xs
  {
    if xs == [] {
      assert xs + ys == ys;
    } else {
      assert (xs + ys)[1..] == xs[1..] + ys;
      ApplyAllAppend(Apply(t, xs[0]), xs[1..], ys);
    }
  }

  // ---- What each phase does ----

  lemma MarkEffect(t: Tree, xs: seq<Action>)
    requires |xs| <= 1 && forall i :: 0 <= i < |xs| ==> xs[i].WriteMarker?
    ensures var r := ApplyAll(t, xs);
      && r.pending == t.pending && r.archives == t.archives && r.outputs == t.outputs
      && r.markers == if xs == [] then t.markers else t.markers[xs[0].v := Holds(xs[0].tx)]
  {
    if xs != [] {
      assert xs[1..] == [];
    }
  }

  ghost predicate AllCopies(xs: seq<Action>, v: Version, pending: map<Name, File>) {
    forall i :: 0 <= i < |xs| ==> xs[i].CopyIn? && xs[i].v == v && xs[i].name in pending && xs[i].file == pending[xs[i].name]
  }

  ghost function CopiedNames(xs: seq<Action>): set<Name> {
    set i | 0 <= i < |xs| && xs[i].CopyIn? :: xs[i].name
  }

  lemma {:induction false} CopyEffect(t: Tree, xs: seq<Action>, v: Version, pending: map<Name, File>)
    requires AllCopies(xs, v, pending)
    ensures var r := ApplyAll(t, xs);
      && r.pending == t.pending && r.markers == t.markers && r.outputs == t.outputs
      && r.archives - {v} == t.archives - {v}
      && ArchiveOf(r, v).Keys == ArchiveOf(t, v).Keys + CopiedNames(xs)
      && (forall n :: n in ArchiveOf(r, v) ==>
           ArchiveOf(r, v)[n] == if n in CopiedNames(xs) then pending[n] else ArchiveOf(t, v)[n])
    decreases xs
  {
    if xs != [] {
      var t' := Apply(t, xs[0]);
      CopyEffect(t', xs[1..], v, pending);
      CopiedNamesCons(xs);
      hide CopiedNames;
    }
  }

  lemma CopiedNamesCons(xs: seq<Action>)
    requires xs != [] && xs[0].CopyIn?
    ensures CopiedNames(xs) == {xs[0].name} + CopiedNames(xs[1..])
  {
    forall n | n in CopiedNames(xs) ensures n == xs[0].name || n in CopiedNames(xs[1..]) {
      var i :| 0 <= i < |xs| && xs[i].CopyIn? && xs[i].name == n;
      if i > 0 { assert xs[1..][i - 1].name == n; }
    }
    forall n | n in CopiedNames(xs[1..]) ensures n in CopiedNames(xs) {
      var i :| 0 <= i < |xs[1..]| && xs[1..][i].CopyIn? && xs[1..][i].name == n;
      assert xs[i + 1].name == n;
    }
  }

  ghost predicate NoCopies(xs: seq<Action>) {
    forall i :: 0 <= i < |xs| ==> !xs[i].CopyIn?
  }

  lemma {:induction false} ArchivesStay(t: Tree, xs: seq<Action>)
    requires NoCopies(xs)
    ensures ApplyAll(t, xs).archives == t.archives
    decreases xs
  {
    if xs != [] {
      ArchivesStay(Apply(t, xs[0]), xs[1..]);
    }
  }

  lemma {:induction false} UnlinkEffect(t: Tree, xs: seq<Action>)
    requires forall i :: 0 <= i < |xs| ==> xs[i].Unlink?
    ensures var r := ApplyAll(t, xs);
      && r.markers == t.markers && r.archives == t.archives && r.outputs == t.outputs
      && r.pending == t.pending - (set i | 0 <= i < |xs| :: xs[i].name)
    decreases xs
  {
    if xs == [] {
      assert t.pending - {} == t.pending;
    } else {
      UnlinkEffect(Apply(t, xs[0]), xs[1..]);
      var a, b := (set i | 0 <= i < |xs| :: xs[i].name), (set i | 0 <= i < |xs[1..]| :: xs[1..][i].name);
      assert a == {xs[0].name} + b by {
        forall n | n in a ensures n in {xs[0].name} + b {
          var i :| 0 <= i < |xs| && xs[i].name == n;
          if i > 0 { assert xs[1..][i - 1].name == n; }
        }
        forall n | n in b ensures n in a {
          var i :| 0 <= i < |xs[1..]| && xs[1..][i].name == n;
          assert xs[i + 1].name == n;
        }
      }
      assert (t.pending - {xs[0].name}) - b == t.pending - a;
    }
  }

  lemma CopiedAppend(head: seq<Action>, rest: seq<Action>, n: Name)
    ensures n in CopiedNames(head + rest) <==> n in CopiedNames(head) || n in CopiedNames(rest)
  {
    var all := head + rest;
    if n in CopiedNames(all) {
      var i :| 0 <= i < |all| && all[i].CopyIn? && all[i].name == n;
      if i < |head| { assert head[i].name == n; } else { assert rest[i - |head|].name == n; }
    }
    if n in CopiedNames(head) {
      var i :| 0 <= i < |head| && head[i].CopyIn? && head[i].name == n;
      assert all[i].name == n;
    }
    if n in CopiedNames(rest) {
      var i :| 0 <= i < |rest| && rest[i].CopyIn? && rest[i].name == n;
      assert all[i + |head|].name == n;
    }
  }

  lemma {:induction false} CopiesAreCopies(v: Version, names: seq<Name>, pending: map<Name, File>)
    ensures AllCopies(Copies(v, names, pending), v, pending)
    ensures forall n :: n in CopiedNames(Copies(v, names, pending)) <==> n in names && n in pending
  {
    if names != [] {
      CopiesAreCopies(v, names[1..], pending);
      var head := if names[0] in pending then [CopyIn(v, names[0], pending[names[0]])] else [];
      var rest := Copies(v, names[1..], pending);
      assert Copies(v, names, pending) == head + rest;
      assert forall n :: n in CopiedNames(head) <==> n == names[0] && n in pending by {
        if names[0] in pending { assert head[0].name == names[0]; }
      }
      assert AllCopies(head + rest, v, pending);
      hide Copies, CopiedNames, AllCopies;
      forall n ensures n in CopiedNames(head + rest) <==> n in names && n in pending {
        CopiedAppend(head, rest, n);
      }
    }
  }

  // ---- What acceptance says about the fragments ----

  /** Everything pending is listed, and pending and archived copies carry the listed content. */
  ghost predicate Inventoried(t: Tree, a: Args) {
    var expected, archived := Expected(t, a), ArchiveOf(t, a.version);
    && t.pending.Keys + archived.Keys <= expected.Keys
    && expected.Keys <= t.pending.Keys + archived.Keys
    && (forall n :: n in t.pending ==> expected[n] == Sha256(t.pending[n]))
    && (forall n :: n in archived ==> expected[n] == Sha256(archived[n]))
  }

  lemma {:induction false} SelectNamesChecks(names: seq<Name>, expected: map<Name, Digest>,
                            pending: map<Name, File>, archived: map<Name, File>)
    requires forall n :: n in names ==> n in expected
    ensures SelectNames(names, expected, pending, archived).Ok? <==>
      forall n :: n in names ==>
        && (n in archived || n in pending)
        && (n in archived ==> Sha256(archived[n]) == expected[n])
        && (n in pending ==> Sha256(pending[n]) == expected[n])
    ensures SelectNames(names, expected, pending, archived).Ok? ==>
      var r := SelectNames(names, expected, pending, archived).value;
      && |r| == |names|
      && forall i :: 0 <= i < |r| ==>
        && (names[i] in archived || names[i] in pending)
        && r[i] == (names[i], if names[i] in archived then archived[names[i]] else pending[names[i]])
  {
    if names != [] {
      SelectNamesChecks(names[1..], expected, pending, archived);
      assert forall n :: n in names <==> n == names[0] || n in names[1..];
      assert names[0] in names;
    }
  }

  /** Any run that is accepted with fragments still pending works on one consistent inventory. */
  lemma AcceptedIsInventoried(env: Env, w: World, a: Args)
    requires Select(env, w, a).Ok? && w.tree.pending != map[]
    ensures Inventoried(w.tree, a)
  {
    var t, v := w.tree, a.version;
    if v in t.markers {
      var tx := t.markers[v].tx;
      SelectNamesChecks(SortedNames(tx.fragments.Keys), tx.fragments, t.pending, ArchiveOf(t, v));
    }
  }

  // ---- No loss ----

  ghost predicate Survives(n: Name, f: File, t: Tree) {
    (n in t.pending && t.pending[n] == f) || exists v :: InArchive(t, v, n, f)
  }

  ghost predicate InArchive(t: Tree, v: Version, n: Name, f: File) {
    n in ArchiveOf(t, v) && ArchiveOf(t, v)[n] == f
  }

  /** Every pending fragment of `t` is still pending or archived in `t'`, and every archived one is untouched. */
  ghost predicate Kept(t: Tree, t': Tree) {
    && (forall n :: n in t.pending ==> Survives(n, t.pending[n], t'))
    && (forall v, n :: n in ArchiveOf(t, v) ==> InArchive(t', v, n, ArchiveOf(t, v)[n]))
  }

  lemma KeptTransitive(t: Tree, t': Tree, t'': Tree)
    requires Kept(t, t') && Kept(t', t'')
    ensures Kept(t, t'')
  {
    forall n | n in t.pending ensures Survives(n, t.pending[n], t'') {
      var f := t.pending[n];
      assert Survives(n, f, t');
      if !(n in t'.pending && t'.pending[n] == f) {
        var v :| InArchive(t', v, n, f);
        assert InArchive(t'', v, n, f);
      }
    }
    forall v, n | n in ArchiveOf(t, v) ensures InArchive(t'', v, n, ArchiveOf(t, v)[n]) {
      assert InArchive(t', v, n, ArchiveOf(t, v)[n]);
    }
  }

  /** The archive of `v` grew from `t` to `r` by fragments of `t.pending`, and holds everything `t.pending` had. */
  ghost predicate ArchiveComplete(t: Tree, r: Tree, v: Version) {
    forall n :: n in t.pending ==> InArchive(r, v, n, t.pending[n])
  }

  ghost predicate ArchiveGrows(t: Tree, r: Tree, v: Version) {
    && r.archives - {v} == t.archives - {v}
    && (forall n :: n in ArchiveOf(t, v) ==> InArchive(r, v, n, ArchiveOf(t, v)[n]))
  }

  lemma GrowthKeeps(t: Tree, r: Tree, v: Version)
    requires ArchiveGrows(t, r, v)
    requires forall n :: n in t.pending ==> (n in r.pending && r.pending[n] == t.pending[n]) || InArchive(r, v, n, t.pending[n])
    ensures Kept(t, r)
  {
    forall u, n | n in ArchiveOf(t, u) ensures InArchive(r, u, n, ArchiveOf(t, u)[n]) {
      if u != v {
        assert u in t.archives - {v} && u in r.archives - {v};
        assert (r.archives - {v})[u] == (t.archives - {v})[u];
      }
    }
  }

  /** What the proofs need to know about the copies of a run over `t`. */
  ghost predicate Covers(t: Tree, v: Version, copies: seq<Action>) {
    && AllCopies(copies, v, t.pending)
    && (forall n :: n in CopiedNames(copies) ==> n !in ArchiveOf(t, v))
    && (forall n :: n in t.pending ==> n in CopiedNames(copies) || InArchive(t, v, n, t.pending[n]))
  }

  lemma CopyListCovers(t: Tree, a: Args, names: seq<Name>)
    requires Inventoried(t, a)
    requires forall n :: n in names <==> n in Expected(t, a).Keys
    ensures Covers(t, a.version, Copies(a.version, names, Unarchived(t, a.version)))
  {
    var v := a.version;
    CopiesAreCopies(v, names, Unarchived(t, v));
    forall n | n in t.pending && n in ArchiveOf(t, v) ensures InArchive(t, v, n, t.pending[n]) {
      assert Expected(t, a)[n] == Sha256(ArchiveOf(t, v)[n]) == Sha256(t.pending[n]);
    }
  }

  lemma CopyPhaseCovers(t: Tree, a: Args)
    requires t.pending != map[] ==> Inventoried(t, a)
    ensures Covers(t, a.version, CopyPhase(t, a))
  {
    if t.pending != map[] {
      CopyListCovers(t, a, SortedNames(Expected(t, a).Keys));
    }
  }

  /** Part of the copy phase adds pending files that were not archived; all of it completes the archive. */
  lemma CopyingGrows(t: Tree, v: Version, copies: seq<Action>, k: nat)
    requires Covers(t, v, copies) && k <= |copies|
    ensures var r := ApplyAll(t, copies[..k]);
      && r.pending == t.pending && r.outputs == t.outputs && r.markers == t.markers
      && ArchiveGrows(t, r, v)
      && (forall n :: n in ArchiveOf(r, v) ==>
            n in ArchiveOf(t, v) || (n in t.pending && ArchiveOf(r, v)[n] == t.pending[n]))
      && (k == |copies| ==> ArchiveComplete(t, r, v))
  {
    var xs := copies[..k];
    assert AllCopies(xs, v, t.pending);
    CopyEffect(t, xs, v, t.pending);
    forall n | n in CopiedNames(xs) ensures n in CopiedNames(copies) && n in t.pending {
      var i :| 0 <= i < |xs| && xs[i].name == n;
      assert copies[i].name == n;
    }
    if k == |copies| {
      assert xs == copies;
    }
  }

  lemma SameArchives(t: Tree, t2: Tree, r: Tree, v: Version)
    requires r.archives == t2.archives
    requires ArchiveGrows(t, t2, v) && ArchiveComplete(t, t2, v)
    ensures ArchiveGrows(t, r, v) && ArchiveComplete(t, r, v)
  {
    assert ArchiveOf(r, v) == ArchiveOf(t2, v);
    forall n | n in t.pending ensures InArchive(r, v, n, t.pending[n]) {
      assert InArchive(t2, v, n, t.pending[n]);
    }
    forall n | n in ArchiveOf(t, v) ensures InArchive(r, v, n, ArchiveOf(t, v)[n]) {
      assert InArchive(t2, v, n, ArchiveOf(t, v)[n]);
    }
  }

  /** No operation of the program copies. */
  ghost predicate CopyFree(p: Program) {
    match p
    case Done => true
    case Phase(now, next) => NoCopies(now) && CopyFree(next)
  }

  lemma {:induction false} CopyFreeKeepsArchives(t: Tree, p: Program, k: nat)
    requires CopyFree(p)
    ensures Exec(t, p, k).archives == t.archives
    ensures k < Length(p) ==> !Operation(p, k).CopyIn?
    decreases p
  {
    match p
    case Done =>
    case Phase(now, next) =>
      if k <= |now| {
        ArchivesStay(t, now[..k]);
      } else {
        ArchivesStay(t, now);
        CopyFreeKeepsArchives(ApplyAll(t, now), next, k - |now|);
      }
      if k == |now| {
        CopyFreeKeepsArchives(t, next, 0);
      }
  }

  lemma DropEffect(t: Tree, v: Version)
    ensures ApplyAll(t, [DropMarker(v)]) == t.(markers := t.markers - {v})
  {
    var xs := [DropMarker(v)];
    assert xs[1..] == [];
  }

  /** The copy phase followed by operations that do not copy, executed in part. */
  lemma CopyingThenLate(t: Tree, v: Version, copies: seq<Action>, late: Program, k: nat)
    requires Covers(t, v, copies) && CopyFree(late)
    ensures var r := Exec(t, Phase(copies, late), k);
      ArchiveGrows(t, r, v) && (r.pending == t.pending || ArchiveComplete(t, r, v))
  {
    hide ApplyAll, Covers, CopyFree, ArchiveGrows, ArchiveComplete;
    if k <= |copies| {
      CopyingGrows(t, v, copies, k);
    } else {
      CopyingGrows(t, v, copies, |copies|);
      assert copies[..|copies|] == copies;
      var t2 := ApplyAll(t, copies);
      CopyFreeKeepsArchives(t2, late, k - |copies|);
      SameArchives(t, t2, Exec(t2, late, k - |copies|), v);
    }
  }

  /** The next operation is a copy: its source is still pending, and its name was not archived at the start. */
  lemma CopyingNext(t: Tree, v: Version, copies: seq<Action>, late: Program, k: nat)
    requires Covers(t, v, copies) && CopyFree(late)
    requires k < Length(Phase(copies, late)) && Operation(Phase(copies, late), k).CopyIn?
    ensures k < |copies| && Operation(Phase(copies, late), k) == copies[k]
    ensures copies[k].v == v && copies[k].name in t.pending && copies[k].name !in ArchiveOf(t, v)
  {
    if k >= |copies| {
      CopyFreeKeepsArchives(t, late, k - |copies|);
    } else {
      assert copies[k].name in CopiedNames(copies);
    }
  }

  /** A copy cut short only adds a file that was not archived, while its source is still pending. */
  lemma TornAt(t: Tree, v: Version, copies: seq<Action>, k: nat, torn: File)
    requires Covers(t, v, copies) && k < |copies|
    ensures copies[k].CopyIn?
    ensures var r := Apply(ApplyAll(t, copies[..k]), CopyIn(v, copies[k].name, torn));
      r.pending == t.pending && Kept(t, r)
  {
    CopyingGrows(t, v, copies, k);
    var x, reached := copies[k], ApplyAll(t, copies[..k]);
    assert x.name in CopiedNames(copies);
    var r := Apply(reached, CopyIn(v, x.name, torn));
    assert r.archives - {v} == reached.archives - {v};
    assert ArchiveGrows(t, r, v);
    GrowthKeeps(t, r, v);
  }

  /** A stopped run whose marker phase is already behind it. */
  lemma CopyingStopped(t: Tree, v: Version, copies: seq<Action>, late: Program, s: Stop)
    requires Covers(t, v, copies) && CopyFree(late)
    ensures var r := Interrupted(t, Phase(copies, late), s);
      Kept(t, r) && (r.pending == t.pending || ArchiveComplete(t, r, v))
  {
    var p := Phase(copies, late);
    var k := if s.after < Length(p) then s.after else Length(p);
    if s.after < Length(p) && Operation(p, k).CopyIn? && s.torn.Some? {
      CopyingNext(t, v, copies, late, k);
      TornAt(t, v, copies, k, s.torn.value);
    } else {
      CopyingThenLate(t, v, copies, late, k);
      GrowthKeeps(t, Exec(t, p, k), v);
    }
  }

  /** The marker only says that a release is under way; the fragments are those of the tree it was written to. */
  lemma MarkingKeeps(t: Tree, mark: seq<Action>)
    requires |mark| <= 1 && forall i :: 0 <= i < |mark| ==> mark[i].WriteMarker?
    ensures ApplyAll(t, mark).pending == t.pending && ApplyAll(t, mark).archives == t.archives
    ensures Kept(t, ApplyAll(t, mark))
    ensures forall v, copies :: Covers(t, v, copies) ==> Covers(ApplyAll(t, mark), v, copies)
  {
    MarkEffect(t, mark);
    var t1 := ApplyAll(t, mark);
    forall v ensures ArchiveOf(t1, v) == ArchiveOf(t, v) { }
    assert forall n :: n in t.pending ==> Survives(n, t.pending[n], t1);
    assert forall v, n :: n in ArchiveOf(t, v) ==> InArchive(t1, v, n, ArchiveOf(t, v)[n]);
    forall v, copies | Covers(t, v, copies) ensures Covers(t1, v, copies) {
      forall n | n in t1.pending ensures n in CopiedNames(copies) || InArchive(t1, v, n, t1.pending[n]) {
        if n !in CopiedNames(copies) { assert InArchive(t, v, n, t.pending[n]); }
      }
    }
  }

  /** Stopping a program within or after its first phase. */
  lemma StopShifts(t: Tree, now: seq<Action>, next: Program, s: Stop)
    requires forall i :: 0 <= i < |now| ==> !now[i].CopyIn?
    ensures s.after < |now| ==> Interrupted(t, Phase(now, next), s) == ApplyAll(t, now[..s.after])
    ensures s.after >= |now| ==>
      Interrupted(t, Phase(now, next), s) == Interrupted(ApplyAll(t, now), next, s.(after := s.after - |now|))
  {
    var p := Phase(now, next);
    assert now[..|now|] == now;
    ExecNothing(ApplyAll(t, now), next);
    if s.after >= |now| && Length(next) == 0 {
      assert s.after >= Length(p);
    }
  }

  lemma {:induction false} ExecNothing(t: Tree, p: Program)
    ensures Exec(t, p, 0) == t
  {
    if p.Phase? { assert p.now[..0] == []; }
  }

  /** One run from any tree whatever, with any arguments, stopped anywhere -- even in the middle of a copy:
      nothing is lost, and a pending file disappears only once the archive holds all that was pending. */
  lemma {:induction false} RunKeepsFragments(env: Env, w: World, a: Args, s: Stop)
    ensures Kept(w.tree, Run(env, w, a, s).tree)
    ensures Run(env, w, a, s).tree.pending != w.tree.pending ==>
      ArchiveComplete(w.tree, Run(env, w, a, s).tree, a.version)
  {
    var t := w.tree;
    if Plan(env, w, a).Ok? {
      if t.pending != map[] { AcceptedIsInventoried(env, w, a); }
      ProgramKeeps(t, a, Prepare(env, w, a).value, s);
    } else {
      GrowthKeeps(t, t, a.version);
    }
  }

  lemma LateCopyFree(publishes: seq<Action>, unlinks: seq<Action>, v: Version)
    requires NoCopies(publishes) && NoCopies(unlinks)
    ensures CopyFree(Phase(publishes, Phase(unlinks, Phase([DropMarker(v)], Done))))
  {
    var last := Phase([DropMarker(v)], Done);
    assert CopyFree(last.next) && CopyFree(last);
    assert CopyFree(Phase(unlinks, last));
  }

  lemma ProgramKeeps(t: Tree, a: Args, gen: seq<(OutputPath, Document)>, s: Stop)
    requires t.pending != map[] ==> Inventoried(t, a)
    ensures var r := Interrupted(t, ProgramOf(t, a, gen), s);
      Kept(t, r) && (r.pending == t.pending || ArchiveComplete(t, r, a.version))
  {
    var v, mark, copies := a.version, MarkPhase(t, a), CopyPhase(t, a);
    var late := Phase(Publishes(gen), Phase(UnlinkPhase(t), Phase([DropMarker(v)], Done)));
    LateCopyFree(Publishes(gen), UnlinkPhase(t), v);
    StopShifts(t, mark, Phase(copies, late), s);
    if s.after < |mark| {
      MarkingKeeps(t, mark[..s.after]);
    } else {
      MarkingKeeps(t, mark);
      CopyPhaseCovers(t, a);
      var t1, s1 := ApplyAll(t, mark), s.(after := s.after - |mark|);
      CopyingStopped(t1, v, copies, late, s1);
      KeptTransitive(t, t1, Interrupted(t1, Phase(copies, late), s1));
    }
  }

  /** Over any sequence of runs, with any arguments and any interruptions, every fragment that was pending
      or archived at the start is still on disk with its original content. */
  lemma {:induction false} NoFragmentLost(env: Env, w: World, runs: seq<(Args, Stop)>)
    ensures Kept(w.tree, Runs(env, w, runs).tree)
    decreases runs
  {
    if runs != [] {
      var w' := Run(env, w, runs[0].0, runs[0].1);
      RunKeepsFragments(env, w, runs[0].0, runs[0].1);
      NoFragmentLost(env, w', runs[1..]);
      KeptTransitive(w.tree, w'.tree, Runs(env, w, runs).tree);
    }
  }
}
