/** `command_release` as it runs: one file operation after another, until it is done, refuses, or is killed. */
module ReleaseCommand {
  import opened Ordering
  import opened Words
  import opened Fragments
  import opened Wrappers
  import opened Release
  import opened ReleaseSafety

  /** Why `_resume_release_paths` refuses the listed fragment `n`, if it does. */
  function Objection(n: Name, expected: map<Name, Digest>, pending: map<Name, File>, archived: map<Name, File>): Option<Refusal>
    requires n in expected
  {
    if n !in archived && n !in pending then Some(MissingFragment(n))
    else if n in archived && Sha256(archived[n]) != expected[n] then Some(ContentChanged(n))
    else if n in pending && Sha256(pending[n]) != expected[n] then Some(ContentChanged(n))
    else None
  }

  /** The selection, with `done` already selected, of the names from `i` on. */
  ghost function SelectFrom(done: Listed, names: seq<Name>, i: nat, expected: map<Name, Digest>,
                            pending: map<Name, File>, archived: map<Name, File>): Result<Listed>
    requires i <= |names| && forall n :: n in names ==> n in expected
  {
    var rest := SelectNames(names[i..], expected, pending, archived);
    if rest.Ok? then Ok(done + rest.value) else rest
  }

  lemma SelectStep(done: Listed, names: seq<Name>, i: nat, expected: map<Name, Digest>,
                   pending: map<Name, File>, archived: map<Name, File>)
    requires i < |names| && forall n :: n in names ==> n in expected
    ensures var n := names[i];
      var why := Objection(n, expected, pending, archived);
      && (why.Some? ==> SelectFrom(done, names, i, expected, pending, archived) == Refused(why.value))
      && (why.None? ==>
           SelectFrom(done, names, i, expected, pending, archived) ==
           SelectFrom(done + [(n, if n in archived then archived[n] else pending[n])], names, i + 1, expected, pending, archived))
  {
    var n := names[i];
    assert names[i..][0] == n && names[i..][1..] == names[i + 1..];
    var rest := SelectNames(names[i + 1..], expected, pending, archived);
    if rest.Ok? && Objection(n, expected, pending, archived).None? {
      var x := (n, if n in archived then archived[n] else pending[n]);
      assert done + ([x] + rest.value) == (done + [x]) + rest.value;
    }
  }

  lemma SelectEnds(done: Listed, names: seq<Name>, expected: map<Name, Digest>,
                   pending: map<Name, File>, archived: map<Name, File>)
    requires forall n :: n in names ==> n in expected
    ensures SelectFrom(done, names, |names|, expected, pending, archived) == Ok(done)
    ensures SelectFrom([], names, 0, expected, pending, archived) == SelectNames(names, expected, pending, archived)
  {
    assert names[|names|..] == [] && done + [] == done && names[0..] == names;
    var all := SelectNames(names, expected, pending, archived);
    if all.Ok? { assert [] + all.value == all.value; }
  }

  /** The loop of `_resume_release_paths`: every listed fragment is present with the listed content. */
  method SelectListed(names: seq<Name>, expected: map<Name, Digest>,
                      pending: map<Name, File>, archived: map<Name, File>) returns (r: Result<Listed>)
    requires forall n :: n in names ==> n in expected
    ensures r == SelectNames(names, expected, pending, archived)
  {
    hide SelectNames, SelectFrom;
    var selected: Listed := [];
    SelectEnds(selected, names, expected, pending, archived);
    for i := 0 to |names|
      invariant SelectFrom(selected, names, i, expected, pending, archived) == SelectNames(names, expected, pending, archived)
    {
      var n := names[i];
      SelectStep(selected, names, i, expected, pending, archived);
      var why := Objection(n, expected, pending, archived);
      if why.Some? {
        return Refused(why.value);
      }
      selected := selected + [(n, if n in archived then archived[n] else pending[n])];
    }
    SelectEnds(selected, names, expected, pending, archived);
    return Ok(selected);
  }

  method ResumeReleasePaths(tx: Transaction, a: Args, pending: map<Name, File>, archived: map<Name, File>)
    returns (r: Result<Listed>)
    ensures r == ResumeSelection(tx, a, pending, archived)
  {
    if !SameMetadata(tx, a) {
      return Refused(DifferentMetadata);
    }
    if tx.fragments == map[] {
      return Refused(EmptyInventory);
    }
    if !(pending.Keys + archived.Keys <= tx.fragments.Keys) {
      return Refused(UnexpectedFragments);
    }
    r := SelectListed(SortedNames(tx.fragments.Keys), tx.fragments, pending, archived);
  }

  // ---- How far a budget of operations reaches ----

  function Reached(budget: nat, xs: seq<Action>): (n: nat)
    ensures n <= budget && n <= |xs| && (n == budget || n == |xs|)
  {
    if budget <= |xs| then budget else |xs|
  }

  lemma ApplyNext(t: Tree, xs: seq<Action>, k: nat)
    requires k < |xs|
    ensures ApplyAll(t, xs[..k + 1]) == Apply(ApplyAll(t, xs[..k]), xs[k])
  {
    assert xs[..k + 1] == xs[..k] + [xs[k]];
    ApplyAllAppend(t, xs[..k], [xs[k]]);
    assert [xs[k]][1..] == [];
  }

  /** A phase followed by the rest of the program, each given what is left of the budget. */
  lemma ExecPhase(t: Tree, now: seq<Action>, next: Program, budget: nat)
    ensures var n := Reached(budget, now);
      Exec(t, Phase(now, next), budget) == Exec(ApplyAll(t, now[..n]), next, budget - n)
  {
    var n := Reached(budget, now);
    if budget <= |now| {
      ExecNothing(ApplyAll(t, now[..n]), next);
    } else {
      assert now[..n] == now;
    }
  }

  lemma {:induction false} CopiesAppend(v: Version, names: seq<Name>, more: seq<Name>, files: map<Name, File>)
    ensures Copies(v, names + more, files) == Copies(v, names, files) + Copies(v, more, files)
  {
    if names == [] {
      assert names + more == more;
    } else {
      assert (names + more)[1..] == names[1..] + more;
      CopiesAppend(v, names[1..], more, files);
    }
  }

  /** The copies for the first `i` names are the first of all the copies, and the next name adds its own. */
  lemma CopiesNext(v: Version, names: seq<Name>, files: map<Name, File>, i: nat)
    requires i < |names|
    ensures var done, all := Copies(v, names[..i], files), Copies(v, names, files);
      && Copies(v, names[..i + 1], files) ==
           (if names[i] in files then done + [CopyIn(v, names[i], files[names[i]])] else done)
      && (names[i] in files ==> |done| < |all| && all[|done|] == CopyIn(v, names[i], files[names[i]]))
      && |done| <= |all| && all[..|done|] == done
  {
    assert names[..i + 1] == names[..i] + [names[i]] && [names[i]][1..] == [];
    CopiesAppend(v, names[..i], [names[i]], files);
    assert names == names[..i + 1] + names[i + 1..] && names == names[..i] + names[i..];
    CopiesAppend(v, names[..i + 1], names[i + 1..], files);
    CopiesAppend(v, names[..i], names[i..], files);
  }

  class ReleaseTree {
    var pending: map<Name, File>
    var archives: map<Version, map<Name, File>>
    var markers: map<Version, MarkerFile>
    var outputs: map<OutputPath, Document>

    function Now(): Tree
      reads this
    {
      Tree(pending, archives, markers, outputs)
    }

    /** Which fragments the run works on, or why it refuses. */
    method SelectPaths(env: Env, litter: nat, a: Args) returns (r: Result<Listed>)
      ensures r == Select(env, World(Now(), litter), a)
    {
      var v := a.version;
      var archived := ArchiveOf(Now(), v);
      if v in markers {
        if markers[v].Corrupt? {
          return Refused(CorruptMarker);
        }
        r := ResumeReleasePaths(markers[v].tx, a, pending, archived);
      } else if ManifestAt(v) in outputs && archived == map[] {
        return Refused(ManifestWithoutArchive);
      } else if archived != map[] {
        if pending != map[] && pending != archived {
          return Refused(PendingDiffers);
        }
        return Ok(DirectoryListing(archived));
      } else {
        if pending == map[] {
          return Refused(NothingPending);
        }
        if !CleanWorktree(env, World(Now(), litter)) {
          return Refused(DirtyWorktree);
        }
        var gate := FreshGate(outputs, a);
        if gate.Refused? {
          return Refused(gate.why);
        }
        return Ok(DirectoryListing(pending));
      }
    }

    method WriteMarker(a: Args, budget: nat) returns (n: nat)
      modifies `markers
      ensures n == Reached(budget, MarkPhase(old(Now()), a))
      ensures Now() == ApplyAll(old(Now()), MarkPhase(old(Now()), a)[..n])
    {
      n := 0;
      if pending != map[] && a.version !in markers && budget > 0 {
        ApplyNext(Now(), MarkPhase(Now(), a), 0);
        markers := markers[a.version := Holds(Payload(a, pending))];
        n := 1;
      }
    }

    /** The copy loop.  Both refusals inside it are unreachable once the selection was accepted. */
    method CopyListed(v: Version, names: seq<Name>, expected: map<Name, Digest>, budget: nat) returns (n: nat)
      requires Distinct(names) && forall m :: m in names ==> m in expected && Archivable(Now(), v, m, expected[m])
      modifies `archives
      ensures var copies := Copies(v, names, Unarchived(old(Now()), v));
        n == Reached(budget, copies) && Now() == ApplyAll(old(Now()), copies[..n])
    {
      hide Progress, ApplyAll, Copies, Unarchived;
      n := 0;
      ghost var t := Now();
      ProgressStart(t, v, names);
      for i := 0 to |names|
        invariant n <= budget && Progress(t, Now(), v, names, i, n)
      {
        var name := names[i];
        ProgressHere(t, Now(), v, names, i, n);
        assert name in names && Archivable(t, v, name, expected[name]);
        if name in ArchiveOf(Now(), v) {
          if Sha256(ArchiveOf(Now(), v)[name]) != expected[name] {
            assert false; // "archived fragment content changed"
          }
          ProgressSkips(t, Now(), v, names, i, n);
        } else {
          if name !in pending || Sha256(pending[name]) != expected[name] {
            assert false; // "cannot archive expected fragment"
          }
          if n == budget {
            return;
          }
          ProgressCopies(t, Now(), v, names, i, n);
          archives := archives[v := ArchiveOf(Now(), v)[name := pending[name]]];
          n := n + 1;
        }
      }
      ProgressEnd(t, Now(), v, names, n);
    }

    method CopyFragments(a: Args, budget: nat) returns (n: nat)
      requires pending != map[] ==> Inventoried(Now(), a)
      modifies `archives
      ensures n == Reached(budget, CopyPhase(old(Now()), a))
      ensures Now() == ApplyAll(old(Now()), CopyPhase(old(Now()), a)[..n])
    {
      n := 0;
      if pending != map[] {
        var expected := Expected(Now(), a);
        n := CopyListed(a.version, SortedNames(expected.Keys), expected, budget);
      }
    }

    method PublishOutputs(gen: seq<(OutputPath, Document)>, budget: nat) returns (n: nat)
      modifies `outputs
      ensures n == Reached(budget, Publishes(gen))
      ensures Now() == ApplyAll(old(Now()), Publishes(gen)[..n])
    {
      n := 0;
      while n < |gen| && n < budget
        invariant n <= |gen| && n <= budget
        invariant Now() == ApplyAll(old(Now()), Publishes(gen)[..n])
      {
        ApplyNext(old(Now()), Publishes(gen), n);
        outputs := outputs[gen[n].0 := gen[n].1];
        n := n + 1;
      }
    }

    method UnlinkPending(names: seq<Name>, budget: nat) returns (n: nat)
      modifies `pending
      ensures n == Reached(budget, Unlinks(names))
      ensures Now() == ApplyAll(old(Now()), Unlinks(names)[..n])
    {
      n := 0;
      while n < |names| && n < budget
        invariant n <= |names| && n <= budget
        invariant Now() == ApplyAll(old(Now()), Unlinks(names)[..n])
      {
        ApplyNext(old(Now()), Unlinks(names), n);
        pending := pending - {names[n]};
        n := n + 1;
      }
    }

    method DropTransactionMarker(v: Version, budget: nat) returns (n: nat)
      modifies `markers
      ensures n == Reached(budget, [DropMarker(v)])
      ensures Now() == ApplyAll(old(Now()), [DropMarker(v)][..n])
    {
      n := 0;
      if budget > 0 {
        ApplyNext(Now(), [DropMarker(v)], 0);
        markers := markers - {v};
        n := 1;
      }
    }

    /** The whole command, killed after `budget` file operations.  It refuses exactly when the plan does, leaving
        everything as it was, and otherwise has done exactly the first `budget` operations of the plan. */
    method CommandRelease(env: Env, litter: nat, a: Args, budget: nat) returns (r: Result<nat>)
      modifies this
      ensures match Plan(env, World(old(Now()), litter), a)
        case Refused(why) => r == Refused(why) && Now() == old(Now())
        case Ok(p) => r == Ok(if budget < Length(p) then budget else Length(p)) && Now() == Exec(old(Now()), p, budget)
    {
      ghost var t := Now();
      var selected := SelectPaths(env, litter, a);
      if selected.Refused? {
        return Refused(selected.why);
      }
      var generated := GenerateFrom(env, outputs, a, selected.value);
      if generated.Refused? {
        return Refused(generated.why);
      }
      assert Plan(env, World(t, litter), a) == Ok(ProgramOf(t, a, generated.value));
      if pending != map[] {
        AcceptedIsInventoried(env, World(t, litter), a);
      }
      r := Transact(a, generated.value, budget);
    }

    /** The file operations, in order. */
    method Transact(a: Args, gen: seq<(OutputPath, Document)>, budget: nat) returns (r: Result<nat>)
      requires pending != map[] ==> Inventoried(Now(), a)
      modifies this
      ensures var p := ProgramOf(old(Now()), a, gen);
        && r == Ok(if budget < Length(p) then budget else Length(p))
        && Now() == Exec(old(Now()), p, budget)
    {
      hide ProgramOf, Length, Exec, ApplyAll, CopyPhase, MarkPhase, Publishes, Unlinks, SortedNames, Reached, Inventoried;
      var names := SortedNames(pending.Keys);
      ghost var t0 := Now();
      var n0 := WriteMarker(a, budget);
      ghost var t1 := Now();
      MarkedInventory(t0, a, n0);
      var n1 := CopyFragments(a, budget - n0);
      ghost var t2 := Now();
      var n2 := PublishOutputs(gen, budget - n0 - n1);
      ghost var t3 := Now();
      var n3 := UnlinkPending(names, budget - n0 - n1 - n2);
      ghost var t4 := Now();
      var n4 := DropTransactionMarker(a.version, budget - n0 - n1 - n2 - n3);
      PhasesCompose(t0, a, gen, budget, n0, t1, n1, t2, n2, t3, n3, t4, n4, Now());
      return Ok(n0 + n1 + n2 + n3 + n4);
    }
  }

  /** Five phases, each given what the ones before it left of the budget, amount to the program. */
  lemma PhasesCompose(t0: Tree, a: Args, gen: seq<(OutputPath, Document)>, budget: nat, n0: nat, t1: Tree, n1: nat,
                      t2: Tree, n2: nat, t3: Tree, n3: nat, t4: Tree, n4: nat, t5: Tree)
    requires n0 == Reached(budget, MarkPhase(t0, a)) && t1 == ApplyAll(t0, MarkPhase(t0, a)[..n0])
    requires n1 == Reached(budget - n0, CopyPhase(t0, a)) && t2 == ApplyAll(t1, CopyPhase(t0, a)[..n1])
    requires n2 == Reached(budget - n0 - n1, Publishes(gen)) && t3 == ApplyAll(t2, Publishes(gen)[..n2])
    requires n3 == Reached(budget - n0 - n1 - n2, UnlinkPhase(t0)) && t4 == ApplyAll(t3, UnlinkPhase(t0)[..n3])
    requires n4 == Reached(budget - n0 - n1 - n2 - n3, [DropMarker(a.version)])
    requires t5 == ApplyAll(t4, [DropMarker(a.version)][..n4])
    ensures var p := ProgramOf(t0, a, gen);
      && n0 + n1 + n2 + n3 + n4 == (if budget < Length(p) then budget else Length(p))
      && t5 == Exec(t0, p, budget)
  {
    hide Exec, ApplyAll, Reached, CopyPhase, MarkPhase, UnlinkPhase;
    ProgramLength(t0, a, gen);
    var drop := Phase([DropMarker(a.version)], Done);
    var late := Phase(UnlinkPhase(t0), drop);
    ExecPhase(t0, MarkPhase(t0, a), Phase(CopyPhase(t0, a), Phase(Publishes(gen), late)), budget);
    ExecPhase(t1, CopyPhase(t0, a), Phase(Publishes(gen), late), budget - n0);
    ExecPhase(t2, Publishes(gen), late, budget - n0 - n1);
    ExecPhase(t3, UnlinkPhase(t0), drop, budget - n0 - n1 - n2);
    ExecPhase(t4, [DropMarker(a.version)], Done, budget - n0 - n1 - n2 - n3);
    ExecDone(t5, budget - n0 - n1 - n2 - n3 - n4);
  }

  /** What the copy loop checks before it keeps or copies the fragment `m`. */
  ghost predicate Archivable(t: Tree, v: Version, m: Name, d: Digest) {
    if m in ArchiveOf(t, v) then Sha256(ArchiveOf(t, v)[m]) == d else m in t.pending && Sha256(t.pending[m]) == d
  }

  ghost predicate SameFragment(t: Tree, t': Tree, v: Version, m: Name) {
    && (m in ArchiveOf(t, v) <==> m in ArchiveOf(t', v))
    && (m in ArchiveOf(t, v) ==> ArchiveOf(t, v)[m] == ArchiveOf(t', v)[m])
  }

  lemma CopyingOthers(t: Tree, t0: Tree, v: Version, name: Name, f: File, others: seq<Name>)
    requires name !in others && forall m :: m in others ==> SameFragment(t, t0, v, m)
    ensures forall m :: m in others ==> SameFragment(Apply(t, CopyIn(v, name, f)), t0, v, m)
  {
  }

  /** The copy loop after `i` names and `n` copies: the fragments still to come are as they were. */
  ghost predicate Progress(t: Tree, now: Tree, v: Version, names: seq<Name>, i: nat, n: nat) {
    var copies := Copies(v, names, Unarchived(t, v));
    && i <= |names| && n <= |copies| && Copies(v, names[..i], Unarchived(t, v)) == copies[..n]
    && now == ApplyAll(t, copies[..n]) && now.pending == t.pending
    && forall m :: m in names[i..] ==> SameFragment(now, t, v, m)
  }

  lemma ProgressStart(t: Tree, v: Version, names: seq<Name>)
    ensures Progress(t, t, v, names, 0, 0)
  {
    CopiesNone(v, Unarchived(t, v));
    assert names[..0] == [] && Copies(v, names, Unarchived(t, v))[..0] == [];
  }

  lemma ProgressEnd(t: Tree, now: Tree, v: Version, names: seq<Name>, n: nat)
    requires Progress(t, now, v, names, |names|, n)
    ensures var copies := Copies(v, names, Unarchived(t, v)); n == |copies| && now == ApplyAll(t, copies[..n])
  {
    assert names[..|names|] == names;
  }

  /** The loop's next name is as it was at the start. */
  lemma ProgressHere(t: Tree, now: Tree, v: Version, names: seq<Name>, i: nat, n: nat)
    requires Progress(t, now, v, names, i, n) && i < |names|
    ensures SameFragment(now, t, v, names[i]) && now.pending == t.pending
    ensures var copies := Copies(v, names, Unarchived(t, v)); n <= |copies| && now == ApplyAll(t, copies[..n])
  {
    hide Copies, ApplyAll, Unarchived;
    assert names[i] in names[i..];
  }

  lemma ProgressSkips(t: Tree, now: Tree, v: Version, names: seq<Name>, i: nat, n: nat)
    requires Progress(t, now, v, names, i, n) && i < |names| && names[i] in ArchiveOf(now, v)
    ensures Progress(t, now, v, names, i + 1, n)
  {
    hide Copies, ApplyAll;
    CopiesNext(v, names, Unarchived(t, v), i);
    ProgressHere(t, now, v, names, i, n);
    assert forall m :: m in names[i + 1..] ==> m in names[i..];
  }

  lemma ProgressCopies(t: Tree, now: Tree, v: Version, names: seq<Name>, i: nat, n: nat)
    requires Progress(t, now, v, names, i, n) && i < |names| && Distinct(names)
    requires names[i] !in ArchiveOf(now, v) && names[i] in t.pending
    ensures Progress(t, Apply(now, CopyIn(v, names[i], t.pending[names[i]])), v, names, i + 1, n + 1)
  {
    hide Copies, ApplyAll, SameFragment;
    var name, copies := names[i], Copies(v, names, Unarchived(t, v));
    CopiesNext(v, names, Unarchived(t, v), i);
    ProgressUnarchived(t, now, v, names, i, n);
    ApplyNext(t, copies, n);
    assert copies[..n + 1] == copies[..n] + [copies[n]];
    assert forall m :: m in names[i + 1..] ==> m in names[i..] && m != name;
    CopyingOthers(now, t, v, name, t.pending[name], names[i + 1..]);
  }

  lemma ProgressUnarchived(t: Tree, now: Tree, v: Version, names: seq<Name>, i: nat, n: nat)
    requires Progress(t, now, v, names, i, n) && i < |names|
    requires names[i] !in ArchiveOf(now, v) && names[i] in t.pending
    ensures names[i] in Unarchived(t, v) && Unarchived(t, v)[names[i]] == t.pending[names[i]]
  {
    ProgressHere(t, now, v, names, i, n);
  }

  lemma PhaseLength(now: seq<Action>, next: Program)
    ensures Length(Phase(now, next)) == |now| + Length(next)
  {
  }

  lemma ProgramLength(t: Tree, a: Args, gen: seq<(OutputPath, Document)>)
    ensures Length(ProgramOf(t, a, gen)) ==
      |MarkPhase(t, a)| + |CopyPhase(t, a)| + |Publishes(gen)| + |UnlinkPhase(t)| + 1
  {
    var drop := Phase([DropMarker(a.version)], Done);
    var late := Phase(UnlinkPhase(t), drop);
    PhaseLength(UnlinkPhase(t), drop);
    PhaseLength(Publishes(gen), late);
    PhaseLength(CopyPhase(t, a), Phase(Publishes(gen), late));
    hide CopyPhase, UnlinkPhase, MarkPhase, Publishes;
    assert Length(drop) == 1;
  }

  lemma ExecDone(t: Tree, k: nat)
    ensures Exec(t, Done, k) == t
  {
  }

  lemma CopiesNone(v: Version, files: map<Name, File>)
    ensures Copies(v, [], files) == []
  {
  }

  /** Writing the marker changes neither the inventory nor what is left to copy. */
  lemma MarkedInventory(t: Tree, a: Args, n: nat)
    requires n <= |MarkPhase(t, a)|
    ensures var r := ApplyAll(t, MarkPhase(t, a)[..n]);
      && CopyPhase(r, a) == CopyPhase(t, a)
      && r.pending == t.pending
      && (t.pending != map[] && Inventoried(t, a) ==> Inventoried(r, a))
  {
    MarkEffect(t, MarkPhase(t, a)[..n]);
    var r := ApplyAll(t, MarkPhase(t, a)[..n]);
    assert t.pending != map[] ==> Expected(r, a) == Expected(t, a);
    assert ArchiveOf(r, a.version) == ArchiveOf(t, a.version);
  }
}
