/** The activation lock file as a protocol of interleaved steps. Every read, judgement, write and unlink
    of an acquirer is a step of its own, except that the last recheck of the owner bytes and the unlink
    behind it are one. Process ids are not reused, and a creator that lives writes its owner bytes before
    its file is thirty seconds old. */
module Lease {
  import opened Options

  /** Milliseconds after which an unwritten lock counts as abandoned. */
  const STALE_AFTER: nat := 30_000

  type Actor = nat
  type Pid = nat

  datatype Owner = Owner(pid: Pid, stamp: nat)

  /** One lock file; `id` tells apart the files created one after the other at the path. */
  datatype LockFile = LockFile(id: nat, bytes: Option<Owner>, modified: nat)

  /** Where one acquirer is. `id` is the file it created. */
  datatype Stage =
    | Idle
    | Creating(id: nat, owner: Owner, at: nat)
    | Holding(id: nat, owner: Owner)
    | Releasing(id: nat, owner: Owner)
    | Seen(bytes: Option<Owner>)
    | Condemned(bytes: Option<Owner>)

  datatype State = State(
    pids: map<Actor, Pid>,
    stages: map<Actor, Stage>,
    alive: set<Pid>,
    lock: Option<LockFile>,
    now: nat,
    nextId: nat)

  datatype Step =
    | Create(a: Actor)                // open with create_new succeeds
    | WriteOwner(a: Actor)            // the owner bytes go to the file opened
    | WriteFails(a: Actor)
    | Look(a: Actor)                  // the path exists: read its bytes
    | Judge(a: Actor)                 // dead owner, or unreadable and old
    | Unlink(a: Actor)                // recheck the bytes and unlink
    | CheckOwn(a: Actor)              // drop: is it still mine?
    | Remove(a: Actor)                // drop: unlink the path
    | Die(pid: Pid)
    | Tick(elapsed: nat)

  predicate WellFormed(s: State) {
    s.stages.Keys == s.pids.Keys
  }

  /** The acquirer exists and its process lives. */
  predicate Live(s: State, a: Actor)
    requires WellFormed(s)
  {
    a in s.pids && s.pids[a] in s.alive
  }

  /** An acquirer between opening its file and dropping the lease. */
  predicate Engaged(stage: Stage) {
    stage.Creating? || stage.Holding? || stage.Releasing?
  }

  predicate Holds(s: State, a: Actor)
    requires WellFormed(s)
  {
    Live(s, a) && (s.stages[a].Holding? || s.stages[a].Releasing?)
  }

  predicate Abandoned(s: State, bytes: Option<Owner>) {
    if bytes.Some? then bytes.value.pid !in s.alive
    else s.lock.Some? && s.now - s.lock.value.modified >= STALE_AFTER
  }

  predicate Enabled(s: State, step: Step)
    requires WellFormed(s)
  {
    match step
    case Create(a) => Live(s, a) && s.stages[a].Idle? && s.lock.None?
    case WriteOwner(a) => Live(s, a) && s.stages[a].Creating?
    case WriteFails(a) => Live(s, a) && s.stages[a].Creating?
    case Look(a) => Live(s, a) && s.stages[a].Idle? && s.lock.Some?
    case Judge(a) => Live(s, a) && s.stages[a].Seen?
    case Unlink(a) => Live(s, a) && s.stages[a].Condemned?
    case CheckOwn(a) => Live(s, a) && s.stages[a].Holding?
    case Remove(a) => Live(s, a) && s.stages[a].Releasing?
    case Die(_) => true
    case Tick(elapsed) =>
      forall a :: a in s.stages && Live(s, a) && s.stages[a].Creating? ==>
        s.now + elapsed < s.stages[a].at + STALE_AFTER
  }

  function Apply(s: State, step: Step): (s': State)
    requires WellFormed(s) && Enabled(s, step)
    ensures WellFormed(s') && s'.pids == s.pids
  {
    match step
    case Create(a) =>
      var owner := Owner(s.pids[a], s.now);
      s.(lock := Some(LockFile(s.nextId, None, s.now)),
         stages := s.stages[a := Creating(s.nextId, owner, s.now)],
         nextId := s.nextId + 1)
    case WriteOwner(a) =>
      var mine := s.stages[a];
      s.(lock := if s.lock.Some? && s.lock.value.id == mine.id then Some(LockFile(mine.id, Some(mine.owner), s.now))
                 else s.lock,
         stages := s.stages[a := Holding(mine.id, mine.owner)])
    case WriteFails(a) => s.(stages := s.stages[a := Idle])
    case Look(a) => s.(stages := s.stages[a := Seen(s.lock.value.bytes)])
    case Judge(a) =>
      var bytes := s.stages[a].bytes;
      s.(stages := s.stages[a := if Abandoned(s, bytes) then Condemned(bytes) else Idle])
    case Unlink(a) =>
      s.(lock := if s.lock.Some? && s.lock.value.bytes == s.stages[a].bytes then None else s.lock,
         stages := s.stages[a := Idle])
    case CheckOwn(a) =>
      var mine := s.stages[a];
      s.(stages := s.stages[a := if s.lock.Some? && s.lock.value.bytes == Some(mine.owner)
                                 then Releasing(mine.id, mine.owner) else Idle])
    case Remove(a) => s.(lock := None, stages := s.stages[a := Idle])
    case Die(pid) => s.(alive := s.alive - {pid})
    case Tick(elapsed) => s.(now := s.now + elapsed)
  }

  // ----- the invariant

  /** The file of a live engaged acquirer is the one at the path, in the state its stage says. */
  ghost predicate OwnFile(s: State, a: Actor)
    requires WellFormed(s) && a in s.stages
  {
    var stage := s.stages[a];
    Engaged(stage) ==>
      && s.lock.Some?
      && s.lock.value.id == stage.id
      && stage.owner.pid == s.pids[a]
      && if stage.Creating?
         then && s.lock.value.bytes.None? && s.lock.value.modified == stage.at
              && stage.at <= s.now < stage.at + STALE_AFTER
         else s.lock.value.bytes == Some(stage.owner)
  }

  ghost predicate Inv(s: State) {
    && WellFormed(s)
    && (forall a :: a in s.stages && Live(s, a) ==> OwnFile(s, a))
    && FilesDistinct(s)
    && CondemnedDead(s)
  }

  /** No two acquirers created the same file. */
  ghost predicate FilesDistinct(s: State) {
    && (forall a :: a in s.stages && Engaged(s.stages[a]) ==> s.stages[a].id < s.nextId)
    && (forall a, b :: a in s.stages && b in s.stages && a != b && Engaged(s.stages[a]) && Engaged(s.stages[b]) ==>
          s.stages[a].id != s.stages[b].id)
    && (s.lock.Some? ==> s.lock.value.id < s.nextId)
  }

  /** A condemned owner is dead, and stays so. */
  ghost predicate CondemnedDead(s: State) {
    forall a :: a in s.stages && s.stages[a].Condemned? && s.stages[a].bytes.Some? ==>
      s.stages[a].bytes.value.pid !in s.alive
  }

  /** At most one live acquirer holds the lease, or is about to. */
  lemma MutualExclusion(s: State, a: Actor, b: Actor)
    requires Inv(s) && Live(s, a) && Live(s, b) && Engaged(s.stages[a]) && Engaged(s.stages[b])
    ensures a == b
  {
    assert OwnFile(s, a) && OwnFile(s, b);
  }

  /** This step takes a lock away from the path on behalf of somebody else. */
  predicate Reclaims(s: State, step: Step)
    requires WellFormed(s)
  {
    step.Unlink? && Enabled(s, step) && s.lock.Some? && s.lock.value.bytes == s.stages[step.a].bytes
  }

  /** The lock at the path belongs to a live acquirer. */
  ghost predicate LockInUse(s: State)
    requires WellFormed(s)
  {
    exists a :: a in s.stages && Live(s, a) && Engaged(s.stages[a]) && s.lock.Some? && s.lock.value.id == s.stages[a].id
  }

  /** A reclaim is fenced when the lock it unlinks shows an owner, or is old at that moment. The source
      checks the age earlier, and possibly of another file. */
  predicate Fenced(s: State, step: Step)
    requires WellFormed(s) && Reclaims(s, step)
  {
    s.lock.value.bytes.Some? || s.now - s.lock.value.modified >= STALE_AFTER
  }

  /** A live acquirer is still between creating the lock at the path and writing to it. */
  ghost predicate LiveCreator(s: State)
    requires WellFormed(s)
  {
    exists a :: a in s.stages && Live(s, a) && s.stages[a].Creating?
  }

  /** A fenced reclaim takes a dead owner's lock only. An unfenced one does so exactly when no live
      acquirer is creating the lock. */
  lemma ReclaimsDeadOwner(s: State, step: Step)
    requires Inv(s) && Reclaims(s, step)
    ensures Fenced(s, step) ==> !LockInUse(s)
    ensures !LockInUse(s) <==> Fenced(s, step) || !LiveCreator(s)
  {
    if LockInUse(s) {
      var a :| a in s.stages && Live(s, a) && Engaged(s.stages[a]) && s.lock.value.id == s.stages[a].id;
      assert OwnFile(s, a);
    }
    if LiveCreator(s) {
      var a :| a in s.stages && Live(s, a) && s.stages[a].Creating?;
      assert OwnFile(s, a);
    }
  }

  /** The reclaim is fenced, or nobody who lives is creating the lock. */
  ghost predicate SafeReclaim(s: State, step: Step)
    requires WellFormed(s) && Reclaims(s, step)
  {
    Fenced(s, step) || !LiveCreator(s)
  }

  /** Every step keeps the invariant, a reclaim exactly if it is safe. */
  lemma StepKeepsInv(s: State, step: Step)
    requires Inv(s) && Enabled(s, step)
    ensures Inv(Apply(s, step)) <==> (Reclaims(s, step) ==> SafeReclaim(s, step))
  {
    var s' := Apply(s, step);
    if Reclaims(s, step) && !SafeReclaim(s, step) {
      UnfencedReclaim(s, step);
    } else {
      if Reclaims(s, step) {
        ReclaimsDeadOwner(s, step);
      }
      forall a | a in s'.stages && Live(s', a)
        ensures OwnFile(s', a)
      {
        assert Live(s, a) && OwnFile(s, a);
        OwnFileStep(s, step, a);
      }
      FilesStep(s, step);
      CondemnedStep(s, step);
    }
  }

  /** An engaged acquirer keeps its file; only the one that creates the lock has a new one. */
  lemma FileKept(s: State, step: Step, a: Actor)
    requires WellFormed(s) && Enabled(s, step) && a in s.stages && Engaged(Apply(s, step).stages[a])
    ensures var id, next := Apply(s, step).stages[a].id, Apply(s, step).nextId;
            if step == Create(a) then id == s.nextId && next == s.nextId + 1
            else Engaged(s.stages[a]) && id == s.stages[a].id && next >= s.nextId
  {
  }

  lemma FilesStep(s: State, step: Step)
    requires Inv(s) && Enabled(s, step)
    ensures FilesDistinct(Apply(s, step))
  {
    var s' := Apply(s, step);
    forall a | a in s'.stages && Engaged(s'.stages[a]) ensures s'.stages[a].id < s'.nextId {
      FileKept(s, step, a);
    }
    forall a, b | a in s'.stages && b in s'.stages && a != b && Engaged(s'.stages[a]) && Engaged(s'.stages[b])
      ensures s'.stages[a].id != s'.stages[b].id
    {
      FileKept(s, step, a);
      FileKept(s, step, b);
    }
  }

  lemma CondemnedStep(s: State, step: Step)
    requires Inv(s) && Enabled(s, step)
    ensures CondemnedDead(Apply(s, step))
  {
  }

  lemma OwnFileStep(s: State, step: Step, a: Actor)
    requires Inv(s) && Enabled(s, step) && a in s.stages && Live(s, a) && OwnFile(s, a)
    requires Reclaims(s, step) ==> !LockInUse(s)
    ensures OwnFile(Apply(s, step), a)
  {
    match step {
      case WriteOwner(b) =>
        assert OwnFile(s, b);
      case CheckOwn(b) =>
        assert OwnFile(s, b);
      case Remove(b) =>
        assert OwnFile(s, b);
      case _ =>
    }
  }

  lemma UnfencedReclaim(s: State, step: Step)
    requires Inv(s) && Reclaims(s, step) && !Fenced(s, step)
    ensures Inv(Apply(s, step)) <==> !LiveCreator(s)
  {
    var s' := Apply(s, step);
    if LiveCreator(s) {
      var a :| a in s.stages && Live(s, a) && s.stages[a].Creating?;
      assert Live(s', a) && !OwnFile(s', a);
    } else {
      ReclaimsDeadOwner(s, step);
      forall a | a in s'.stages && Live(s', a)
        ensures OwnFile(s', a)
      {
        assert OwnFile(s, a);
        OwnFileStep(s, step, a);
      }
      FilesStep(s, step);
      CondemnedStep(s, step);
    }
  }

  // ----- runs

  function Run(s: State, steps: seq<Step>): (r: Option<State>)
    requires WellFormed(s)
    ensures r.Some? ==> WellFormed(r.value)
    decreases |steps|
  {
    if steps == [] then Some(s)
    else if Enabled(s, steps[0]) then Run(Apply(s, steps[0]), steps[1..])
    else None
  }

  /** Every reclaim of the run is fenced. */
  predicate FencedRun(s: State, steps: seq<Step>)
    requires WellFormed(s)
    decreases |steps|
  {
    steps == [] || !Enabled(s, steps[0])
    || ((Reclaims(s, steps[0]) ==> Fenced(s, steps[0])) && FencedRun(Apply(s, steps[0]), steps[1..]))
  }

  /** No reclaim of the run took the lock of a live acquirer. */
  ghost predicate ReclaimsOnlyDead(s: State, steps: seq<Step>)
    requires WellFormed(s)
    decreases |steps|
  {
    steps == [] || !Enabled(s, steps[0])
    || ((Reclaims(s, steps[0]) ==> !LockInUse(s)) && ReclaimsOnlyDead(Apply(s, steps[0]), steps[1..]))
  }

  predicate Initial(s: State) {
    WellFormed(s) && s.lock.None? && forall a :: a in s.stages ==> s.stages[a].Idle?
  }

  lemma InitialInv(s: State)
    requires Initial(s)
    ensures Inv(s)
  {
  }

  /** Every reclaim of the run is safe. */
  ghost predicate SafeReclaims(s: State, steps: seq<Step>)
    requires WellFormed(s)
    decreases |steps|
  {
    steps == [] || !Enabled(s, steps[0])
    || ((Reclaims(s, steps[0]) ==> SafeReclaim(s, steps[0])) && SafeReclaims(Apply(s, steps[0]), steps[1..]))
  }

  /** A run keeps the invariant while its reclaims are safe, which is while they take the locks of the dead. */
  lemma {:induction false} SafeRun(s: State, steps: seq<Step>)
    requires Inv(s) && Run(s, steps).Some?
    ensures SafeReclaims(s, steps) ==> Inv(Run(s, steps).value)
    ensures SafeReclaims(s, steps) <==> ReclaimsOnlyDead(s, steps)
    decreases |steps|
  {
    if steps != [] {
      StepKeepsInv(s, steps[0]);
      if Reclaims(s, steps[0]) {
        ReclaimsDeadOwner(s, steps[0]);
      }
      if Reclaims(s, steps[0]) ==> SafeReclaim(s, steps[0]) {
        SafeRun(Apply(s, steps[0]), steps[1..]);
      }
    }
  }

  /** In a run from idle acquirers whose reclaims are safe, no two live acquirers hold the lease at its end,
      and every reclaim took a dead owner's lock. */
  lemma SafeRunsExclude(s: State, steps: seq<Step>, a: Actor, b: Actor)
    requires Initial(s) && SafeReclaims(s, steps) && Run(s, steps).Some?
    ensures ReclaimsOnlyDead(s, steps)
    ensures Holds(Run(s, steps).value, a) && Holds(Run(s, steps).value, b) ==> a == b
  {
    InitialInv(s);
    SafeRun(s, steps);
    if Holds(Run(s, steps).value, a) && Holds(Run(s, steps).value, b) {
      MutualExclusion(Run(s, steps).value, a, b);
    }
  }

  /** A fence on every reclaim, which an acquirer could check by itself, makes a run safe. */
  lemma {:induction false} FencedRunsAreSafe(s: State, steps: seq<Step>)
    requires WellFormed(s) && FencedRun(s, steps)
    ensures SafeReclaims(s, steps)
    decreases |steps|
  {
    if steps != [] && Enabled(s, steps[0]) {
      FencedRunsAreSafe(Apply(s, steps[0]), steps[1..]);
    }
  }

  // ----- what happens without the fence

  /** An unwritten lock that has become old. */
  predicate StaleUnwritten(s: State) {
    s.lock.Some? && s.lock.value.bytes.None? && s.now - s.lock.value.modified >= STALE_AFTER
  }

  lemma RunCons(s: State, steps: seq<Step>)
    requires WellFormed(s) && steps != [] && Enabled(s, steps[0])
    ensures Run(s, steps) == Run(Apply(s, steps[0]), steps[1..])
  {
  }

  lemma RunTwo(s: State, first: Step, second: Step)
    requires WellFormed(s) && Enabled(s, first) && Enabled(Apply(s, first), second)
    ensures Run(s, [first, second]) == Some(Apply(Apply(s, first), second))
  {
    var s1 := Apply(s, first);
    assert [first, second][1..] == [second] && [second][1..] == [];
    assert Run(s1, [second]) == Run(Apply(s1, second), []);
  }

  lemma {:induction false} RunConcat(s: State, a: seq<Step>, b: seq<Step>)
    requires WellFormed(s)
    ensures Run(s, a + b) == if Run(s, a).Some? then Run(Run(s, a).value, b) else None
    decreases |a|
  {
    if a == [] {
      assert a + b == b;
    } else {
      assert (a + b)[1..] == a[1..] + b;
      if Enabled(s, a[0]) {
        RunConcat(Apply(s, a[0]), a[1..], b);
      }
    }
  }

  // ----- what a lone acquirer gets done

  /** Nobody who lives wrote the lock: its owner is dead, or it was never written and has become old. */
  predicate LeftBehind(s: State) {
    && s.lock.Some?
    && match s.lock.value.bytes
       case Some(owner) => owner.pid !in s.alive
       case None => s.lock.value.modified + STALE_AFTER <= s.now
  }

  /** Where there is no lock, an acquirer takes the lease. */
  lemma Takes(s: State, a: Actor)
    requires WellFormed(s) && Live(s, a) && s.stages[a].Idle? && s.lock.None?
    ensures var owner := Owner(s.pids[a], s.now);
            Run(s, [Create(a), WriteOwner(a)])
            == Some(s.(stages := s.stages[a := Holding(s.nextId, owner)],
                       lock := Some(LockFile(s.nextId, Some(owner), s.now)), nextId := s.nextId + 1))
  {
    RunTwo(s, Create(a), WriteOwner(a));
    var owner := Owner(s.pids[a], s.now);
    assert s.stages[a := Creating(s.nextId, owner, s.now)][a := Holding(s.nextId, owner)]
        == s.stages[a := Holding(s.nextId, owner)];
  }

  /** A holder that drops the lease takes its lock away, and nobody else's. */
  lemma Drops(s: State, a: Actor)
    requires WellFormed(s) && Live(s, a) && s.stages[a].Holding? && s.lock.Some?
    ensures s.lock.value.bytes == Some(s.stages[a].owner) ==>
              Run(s, [CheckOwn(a), Remove(a)]) == Some(s.(stages := s.stages[a := Idle], lock := None))
    ensures s.lock.value.bytes != Some(s.stages[a].owner) ==>
              Run(s, [CheckOwn(a)]) == Some(s.(stages := s.stages[a := Idle]))
  {
    var mine := s.stages[a];
    if s.lock.value.bytes == Some(mine.owner) {
      RunTwo(s, CheckOwn(a), Remove(a));
      assert s.stages[a := Releasing(mine.id, mine.owner)][a := Idle] == s.stages[a := Idle];
    } else {
      RunCons(s, [CheckOwn(a)]);
    }
  }

  /** An acquirer that meets a lock condemns it exactly when it was left behind, and otherwise leaves everything
      as it was. */
  lemma CondemnsLeftBehind(s: State, a: Actor)
    requires WellFormed(s) && Live(s, a) && s.stages[a].Idle? && s.lock.Some?
    ensures Run(s, [Look(a), Judge(a)])
         == Some(if LeftBehind(s) then s.(stages := s.stages[a := Condemned(s.lock.value.bytes)]) else s)
  {
    RunTwo(s, Look(a), Judge(a));
    var bytes := s.lock.value.bytes;
    assert s.stages[a := Seen(bytes)][a := Condemned(bytes)] == s.stages[a := Condemned(bytes)];
    assert s.stages[a := Seen(bytes)][a := Idle] == s.stages;
  }

  /** So a lock that was left behind never keeps a lone acquirer from the lease. */
  lemma TakesOver(s: State, a: Actor) returns (steps: seq<Step>)
    requires WellFormed(s) && Live(s, a) && s.stages[a].Idle? && LeftBehind(s)
    ensures forall step <- steps :: step in {Look(a), Judge(a), Unlink(a), Create(a), WriteOwner(a)}
    ensures var end := Run(s, steps);
            && end.Some? && Holds(end.value, a)
            && end.value.lock == Some(LockFile(s.nextId, Some(Owner(s.pids[a], s.now)), s.now))
  {
    CondemnsLeftBehind(s, a);
    var s1 := Run(s, [Look(a), Judge(a)]).value;
    RunCons(s1, [Unlink(a), Create(a), WriteOwner(a)]);
    var s2 := Apply(s1, Unlink(a));
    Takes(s2, a);
    steps := [Unlink(a)] + [Create(a), WriteOwner(a)];
    assert steps[1..] == [Create(a), WriteOwner(a)];
    RunCons(s1, steps);
    RunConcat(s, [Look(a), Judge(a)], steps);
    steps := [Look(a), Judge(a)] + steps;
  }

  /** When a process dies its lock is left behind, at once if it was written, and after thirty seconds if not. */
  lemma DeathLeavesLockBehind(s: State, a: Actor)
    requires Inv(s) && Live(s, a) && Engaged(s.stages[a])
    ensures s.stages[a].Holding? ==> LeftBehind(Apply(s, Die(s.pids[a])))
    ensures var end := Run(s, [Die(s.pids[a]), Tick(STALE_AFTER)]); end.Some? && LeftBehind(end.value)
  {
    var dead := Apply(s, Die(s.pids[a]));
    assert OwnFile(s, a);
    forall b | b in dead.stages && Live(dead, b) ensures !Engaged(dead.stages[b]) {
      if Engaged(dead.stages[b]) {
        MutualExclusion(s, a, b);
      }
    }
    RunTwo(s, Die(s.pids[a]), Tick(STALE_AFTER));
  }

  /** An idle acquirer that meets a stale unwritten lock condemns it. */
  lemma CondemnStale(s: State, a: Actor)
    requires WellFormed(s) && StaleUnwritten(s) && Live(s, a) && s.stages[a].Idle?
    ensures Run(s, [Look(a), Judge(a)]) == Some(s.(stages := s.stages[a := Condemned(None)]))
  {
    RunTwo(s, Look(a), Judge(a));
    assert s.stages[a := Seen(None)][a := Condemned(None)] == s.stages[a := Condemned(None)];
  }

  /** An acquirer that condemned a lock unlinks whatever lock shows the same bytes and creates its own. */
  lemma ReplaceLock(s: State, a: Actor)
    requires WellFormed(s) && Reclaims(s, Unlink(a))
    ensures Run(s, [Unlink(a), Create(a)])
         == Some(s.(stages := s.stages[a := Creating(s.nextId, Owner(s.pids[a], s.now), s.now)],
                    lock := Some(LockFile(s.nextId, None, s.now)), nextId := s.nextId + 1))
  {
    RunTwo(s, Unlink(a), Create(a));
    var stage := Creating(s.nextId, Owner(s.pids[a], s.now), s.now);
    assert s.stages[a := Idle][a := stage] == s.stages[a := stage];
  }

  /** Two acquirers that are creating a lock both come to hold one. */
  lemma BothWrite(s: State, a: Actor, b: Actor)
    requires WellFormed(s) && a != b && Live(s, a) && Live(s, b) && s.stages[a].Creating? && s.stages[b].Creating?
    ensures var end := Run(s, [WriteOwner(a), WriteOwner(b)]);
            end.Some? && Holds(end.value, a) && Holds(end.value, b)
  {
    RunTwo(s, WriteOwner(a), WriteOwner(b));
  }

  /** Where two idle acquirers meet a stale unwritten lock, both can come to hold the lease: the second to
      unlink takes the first one's new lock for the condemned one, because empty bytes equal empty bytes. */
  lemma StaleLockCollides(s: State, a: Actor, b: Actor) returns (steps: seq<Step>)
    requires WellFormed(s) && StaleUnwritten(s) && a != b
    requires Live(s, a) && Live(s, b) && s.stages[a].Idle? && s.stages[b].Idle?
    ensures var end := Run(s, steps); end.Some? && Holds(end.value, a) && Holds(end.value, b)
  {
    CondemnStale(s, a);
    var s1 := Run(s, [Look(a), Judge(a)]).value;
    CondemnStale(s1, b);
    var s2 := Run(s1, [Look(b), Judge(b)]).value;
    ReplaceLock(s2, a);
    var s3 := Run(s2, [Unlink(a), Create(a)]).value;
    ReplaceLock(s3, b);
    var s4 := Run(s3, [Unlink(b), Create(b)]).value;
    BothWrite(s4, a, b);
    RunConcat(s3, [Unlink(b), Create(b)], [WriteOwner(a), WriteOwner(b)]);
    var t3 := [Unlink(b), Create(b)] + [WriteOwner(a), WriteOwner(b)];
    RunConcat(s2, [Unlink(a), Create(a)], t3);
    var t2 := [Unlink(a), Create(a)] + t3;
    RunConcat(s1, [Look(b), Judge(b)], t2);
    var t1 := [Look(b), Judge(b)] + t2;
    RunConcat(s, [Look(a), Judge(a)], t1);
    steps := [Look(a), Judge(a)] + t1;
  }

  lemma {:induction false} SafeConcat(s: State, a: seq<Step>, b: seq<Step>)
    requires WellFormed(s) && Run(s, a).Some?
    ensures SafeReclaims(s, a + b) <==> SafeReclaims(s, a) && SafeReclaims(Run(s, a).value, b)
    decreases |a|
  {
    if a == [] {
      assert a + b == b;
    } else {
      assert (a + b)[1..] == a[1..] + b;
      SafeConcat(Apply(s, a[0]), a[1..], b);
    }
  }

  /** What a reclaimer and a live creator can do from the reclaim on: both write their owner bytes. */
  function Collision(reclaimer: Actor, creator: Actor): seq<Step> {
    [Unlink(reclaimer), Create(reclaimer), WriteOwner(creator), WriteOwner(reclaimer)]
  }

  lemma CollisionRuns(s: State, reclaimer: Actor, creator: Actor, s2: State)
    requires WellFormed(s) && Run(s, [Unlink(reclaimer), Create(reclaimer)]) == Some(s2)
    requires creator != reclaimer && Live(s2, reclaimer) && Live(s2, creator) && s2.stages[reclaimer].Creating?
             && s2.stages[creator].Creating?
    ensures var end := Run(s, Collision(reclaimer, creator));
            end.Some? && Holds(end.value, reclaimer) && Holds(end.value, creator)
  {
    BothWrite(s2, creator, reclaimer);
    RunConcat(s, [Unlink(reclaimer), Create(reclaimer)], [WriteOwner(creator), WriteOwner(reclaimer)]);
    assert Collision(reclaimer, creator)
           == [Unlink(reclaimer), Create(reclaimer)] + [WriteOwner(creator), WriteOwner(reclaimer)];
  }

  /** An unsafe reclaim leads to two holders in three more steps. */
  lemma UnsafeReclaimCollides(s: State, step: Step) returns (creator: Actor)
    requires WellFormed(s) && Reclaims(s, step) && !SafeReclaim(s, step)
    ensures creator != step.a
    ensures var end := Run(s, Collision(step.a, creator));
            end.Some? && Holds(end.value, step.a) && Holds(end.value, creator)
  {
    creator :| creator in s.stages && Live(s, creator) && s.stages[creator].Creating?;
    ReplaceLock(s, step.a);
    CollisionRuns(s, step.a, creator, Run(s, [Unlink(step.a), Create(step.a)]).value);
  }

  lemma {:induction false} NothingReclaimed(s: State, steps: seq<Step>)
    requires WellFormed(s) && forall step <- steps :: !step.Unlink?
    ensures SafeReclaims(s, steps)
    decreases |steps|
  {
    if steps != [] && Enabled(s, steps[0]) {
      NothingReclaimed(Apply(s, steps[0]), steps[1..]);
    }
  }

  /** Only the unlink at the start of a collision can be unsafe. */
  lemma OnlyFirstReclaims(s: State, reclaimer: Actor, creator: Actor)
    requires WellFormed(s) && Run(s, Collision(reclaimer, creator)).Some?
    ensures SafeReclaims(s, Collision(reclaimer, creator)) <==> SafeReclaims(s, [Unlink(reclaimer)])
  {
    var t := Collision(reclaimer, creator);
    var s1 := Apply(s, t[0]);
    NothingReclaimed(s1, t[1..]);
    assert [Unlink(reclaimer)][1..] == [];
    assert SafeReclaims(s1, []);
  }

  /** The run can be turned, at its step `n`, into one that ends with two live holders. */
  ghost predicate CollidesAt(s: State, steps: seq<Step>, n: nat, creator: Actor)
    requires WellFormed(s)
  {
    && n < |steps| && steps[n].Unlink? && creator != steps[n].a
    && var end := Run(s, steps[..n] + Collision(steps[n].a, creator));
       end.Some? && Holds(end.value, steps[n].a) && Holds(end.value, creator)
  }

  /** The first unsafe reclaim of a run is a place where it collides. */
  lemma {:induction false} UnsafeRunCollides(s: State, steps: seq<Step>) returns (n: nat, creator: Actor)
    requires Inv(s) && Run(s, steps).Some? && !SafeReclaims(s, steps)
    ensures CollidesAt(s, steps, n, creator)
    decreases |steps|
  {
    if Reclaims(s, steps[0]) && !SafeReclaim(s, steps[0]) {
      n := 0;
      creator := UnsafeReclaimCollides(s, steps[0]);
      assert steps[..0] + Collision(steps[0].a, creator) == Collision(steps[0].a, creator);
    } else {
      StepKeepsInv(s, steps[0]);
      n, creator := UnsafeRunCollides(Apply(s, steps[0]), steps[1..]);
      CollidesLater(s, steps, n, creator);
      n := n + 1;
    }
  }

  lemma CollidesLater(s: State, steps: seq<Step>, n: nat, creator: Actor)
    requires WellFormed(s) && steps != [] && Enabled(s, steps[0])
    requires CollidesAt(Apply(s, steps[0]), steps[1..], n, creator)
    ensures CollidesAt(s, steps, n + 1, creator)
  {
    var t := steps[1..][..n] + Collision(steps[n + 1].a, creator);
    assert steps[..n + 1] + Collision(steps[n + 1].a, creator) == [steps[0]] + t;
    RunCons(s, [steps[0]] + t);
    assert ([steps[0]] + t)[1..] == t;
  }

  lemma CollisionIsUnsafe(s: State, steps: seq<Step>, n: nat, creator: Actor)
    requires Inv(s) && Run(s, steps).Some? && CollidesAt(s, steps, n, creator)
    ensures !SafeReclaims(s, steps)
  {
    var reclaimer, before := steps[n].a, steps[..n];
    var t := before + Collision(reclaimer, creator);
    SafeRun(s, t);
    if SafeReclaims(s, t) {
      MutualExclusion(Run(s, t).value, reclaimer, creator);
      assert false;
    }
    RunConcat(s, before, Collision(reclaimer, creator));
    SafeConcat(s, before, Collision(reclaimer, creator));
    OnlyFirstReclaims(Run(s, before).value, reclaimer, creator);
    SafeStep(s, steps, n);
  }

  /** The reclaims of a run are safe only if those up to each of its steps are. */
  lemma SafeStep(s: State, steps: seq<Step>, n: nat)
    requires WellFormed(s) && Run(s, steps).Some? && n < |steps| && Run(s, steps[..n]).Some?
    ensures SafeReclaims(s, steps) ==> SafeReclaims(s, steps[..n]) && SafeReclaims(Run(s, steps[..n]).value, [steps[n]])
  {
    var now := Run(s, steps[..n]).value;
    assert steps[..n] + steps[n..] == steps;
    RunConcat(s, steps[..n], steps[n..]);
    SafeConcat(s, steps[..n], steps[n..]);
    assert [steps[n]] + steps[n + 1..] == steps[n..];
    RunConcat(now, [steps[n]], steps[n + 1..]);
    SafeConcat(now, [steps[n]], steps[n + 1..]);
  }

  /** The exact condition for mutual exclusion. The reclaims of a run from idle acquirers are all safe exactly
      when the run cannot be turned, at one of its unlinks, into one that ends with two live holders. */
  lemma SafeExactly(s: State, steps: seq<Step>)
    requires Initial(s) && Run(s, steps).Some?
    ensures SafeReclaims(s, steps) <==> !exists n, creator :: CollidesAt(s, steps, n, creator)
  {
    InitialInv(s);
    if !SafeReclaims(s, steps) {
      var n, creator := UnsafeRunCollides(s, steps);
    } else {
      forall n, creator ensures !CollidesAt(s, steps, n, creator) {
        if CollidesAt(s, steps, n, creator) {
          CollisionIsUnsafe(s, steps, n, creator);
        }
      }
    }
  }

  /** Such a lock is reachable from idle acquirers: a creator dies before it writes. So the protocol with
      every other assumption kept is not safe. */
  lemma UnfencedRunCollides() returns (s: State, steps: seq<Step>)
    ensures Initial(s) && Run(s, steps).Some?
    ensures Holds(Run(s, steps).value, 1) && Holds(Run(s, steps).value, 2)
  {
    s := State(map[1 := 1, 2 := 2, 3 := 3], map[1 := Idle, 2 := Idle, 3 := Idle], {1, 2, 3}, None, 0, 0);
    RunTwo(s, Create(3), Die(3));
    var s2 := Run(s, [Create(3), Die(3)]).value;
    RunCons(s2, [Tick(STALE_AFTER)]);
    assert Run(Apply(s2, Tick(STALE_AFTER)), []) == Some(Apply(s2, Tick(STALE_AFTER)));
    var s3 := Run(s2, [Tick(STALE_AFTER)]).value;
    var collision := StaleLockCollides(s3, 1, 2);
    RunConcat(s2, [Tick(STALE_AFTER)], collision);
    RunConcat(s, [Create(3), Die(3)], [Tick(STALE_AFTER)] + collision);
    steps := [Create(3), Die(3)] + ([Tick(STALE_AFTER)] + collision);
  }
}
