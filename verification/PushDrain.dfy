/** The push worker: after a restart, rounds without faults empty the spool. */
module PushDrain {
  import opened Text
  import opened Mailflow
  import opened Transaction
  import opened TransactionInvariant
  import opened TransactionEffects
  import opened Recovery
  import opened PushSpool
  import opened PushSystem
  import opened PushTheorems

  /** What the rest of the system answers for each message when nothing fails. */
  datatype Office = Office(job: Key -> Job, calm: Key -> Calm)

  // ---- a run that does not delete its source ----

  predicate KeepsSource(calm: Calm) {
    calm.processing.Produced? ==> !calm.processing.plan.deleteSource.enabled
  }

  /** The plan in force does not ask for the deletion of the source, which a push source refuses. */
  ghost predicate NoDeletion(t: Tx, calm: Calm) {
    !Current(t).plan.deleteSource.enabled && KeepsSource(calm)
  }

  lemma {:induction false} TargetsKeepPlan(t: Tx, i: nat)
    ensures t.NextTarget(i).mem.plan == t.mem.plan
  {
    hide TrimSpace, Target.Key;
    NextTargetLands(t, i);
  }

  lemma StaysUndeleted(t: Tx, calm: Calm)
    requires Inv(t) && !t.pc.Halted? && NoDeletion(t, calm)
    ensures !t.pc.Deleting?
    ensures var u := t.Step(calm.Answer(t.pc)); !u.pc.Halted? ==> NoDeletion(u, calm)
  {
    hide TrimSpace, Target.Key, Plan.Valid, TxState.HasRequired, Tx.NextTarget, Tx.AfterDeliveries;
    hide FilledReceipt, WithReceipt, Sound, Extends;
    var r := calm.Answer(t.pc);
    match t.pc
    case Loading => AfterDeliveriesLands(t.(mem := t.Stored()));
    case Processing => TargetsKeepPlan(t, 0);
    case SavingPlan => TargetsKeepPlan(t.Saved(Fine), 0);
    case Delivering(i) =>
      if i < |t.mem.plan.targets| {
        ReceiptAdds(t.mem, t.mem.plan.targets[i], r.receipt);
      }
    case SavingReceipt(i) => TargetsKeepPlan(t.Saved(Fine), i + 1);
    case _ =>
  }

  /** A run whose source has a finalizer ends well only through it. */
  lemma LastCall(t: Tx, r: Reply)
    requires Inv(t) && !t.pc.Halted? && t.job.envelope.source.Source? && t.job.envelope.source.finalizer
    requires t.Step(r).pc == Halted(true)
    ensures t.pc.Finalizing? && r.verdict.Fine?
  {
    hide TrimSpace, Target.Key, Plan.Valid, TxState.ShouldDelete, WithReceipt, Tx.NextTarget, Tx.AfterDeliveries;
    hide Sound, Extends;
    StepKeeps(t, r);
    match t.pc
    case Loading => AfterDeliveriesLands(t.(mem := t.Stored())); LoadedEnd(t);
    case _ =>
      if InLoop(t.pc) {
        LoopEnds(t, r);
      }
  }

  predicate InLoop(pc: Pc) {
    pc.Processing? || pc.SavingPlan? || pc.Delivering? || pc.SavingReceipt?
  }

  /** No call up to the last delivery completes a transaction. */
  lemma LoopEnds(t: Tx, r: Reply)
    requires InLoop(t.pc)
    ensures t.Step(r).pc == Halted(true) ==> t.Step(r).mem.completed == t.mem.completed
  {
    hide TrimSpace, Target.Key, Plan.Valid, TxState.ShouldDelete, WithReceipt, Tx.NextTarget, Tx.AfterDeliveries;
    match t.pc
    case Processing => TargetsKeepCompletion(t, 0);
    case SavingPlan => TargetsKeepCompletion(t.Saved(r.verdict), 0);
    case Delivering(i) => TargetsKeepCompletion(t, i + 1);
    case SavingReceipt(i) => TargetsKeepCompletion(t.Saved(r.verdict), i + 1);
  }

  /** A loaded record that is committed has all its required receipts. */
  lemma LoadedEnd(t: Tx)
    ensures var u := t.(mem := t.Stored()); t.Stored().Committed() ==> u.AfterDeliveries().pc != Halted(true)
  {
    hide TrimSpace, Target.Key, TxState.ShouldDelete;
  }

  lemma {:induction false} TargetsKeepCompletion(t: Tx, i: nat)
    ensures t.NextTarget(i).pc == Halted(true) ==> t.NextTarget(i).mem.completed == t.mem.completed
    decreases |t.mem.plan.targets| - i
  {
    hide TrimSpace, Target.Key, TxState.HasRequired, TxState.ShouldDelete;
    if i < |t.mem.plan.targets| && t.mem.plan.targets[i].Key() in t.mem.deliveries {
      TargetsKeepCompletion(t, i + 1);
    }
  }

  // ---- one message ----

  /** The worker's run to its end, without faults. */
  function DriveSys(c: Setting, s: Sys, calm: Calm): Sys
    decreases if s.worker.Some? then Stage(TxOf(c, s, s.worker.value).tx) + 1 else 0,
              if s.worker.Some? then Rest(TxOf(c, s, s.worker.value).tx) else 0
  {
    if s.worker.None? || TxOf(c, s, s.worker.value).tx.pc.Halted? then s
    else
      var key := s.worker.value;
      var r := PushReply(TxOf(c, s, key).tx.pc, calm.Answer(TxOf(c, s, key).tx.pc));
      Progress(TxOf(c, s, key).tx, r);
      DriveSys(c, WorkStep(c, s, key, calm.Answer(TxOf(c, s, key).tx.pc)), calm)
  }

  /** `t` differs from `s` in the transaction `key`, its place in the spool and the markers only. */
  ghost predicate Apart(c: Setting, s: Sys, t: Sys, key: Key) {
    && t.uploads == s.uploads && t.sweeps == s.sweeps && t.accepted == s.accepted
    && t.requeued == s.requeued && t.spool.pending == s.spool.pending
    && forall k | k != key :: TxOf(c, t, k) == TxOf(c, s, k)
  }

  lemma WorkFacts(c: Setting, s: Sys, key: Key, r: Reply)
    requires !TxOf(c, s, key).tx.pc.Deleting? && r.verdict.Fine?
    ensures var h, u := TxOf(c, s, key), WorkStep(c, s, key, r);
      && TxOf(c, u, key) == h.Step(r) && Apart(c, s, u, key)
      && u.worker == (if h.Step(r).tx.pc.Halted? then None else Some(key))
      && u.spool.processing == if h.tx.pc.Finalizing? then s.spool.processing - {key} else s.spool.processing
  {
    hide TrimSpace, Tx.Step;
  }

  /** The worker is on the message, which lies among the claimed ones. */
  ghost predicate Underway(c: Setting, s: Sys, key: Key, calm: Calm) {
    var t := TxOf(c, s, key).tx;
    && SysInv(c, s) && s.worker == Some(key) && !t.pc.Halted? && NoDeletion(t, calm)
    && t.job.envelope.source == Source(true, true)
  }

  lemma WorkerInv(c: Setting, s: Sys, key: Key)
    requires SysInv(c, s) && s.worker == Some(key)
    ensures Inv(TxOf(c, s, key).tx)
  {
    hide IsLife, Safe, Inv;
    assert TxInv(c, s, key);
    LifeFacts(c.txKey(key), s.txs[key]);
  }

  /** The worker's run is the run of the transaction, and when it ends well the message is gone. */
  lemma {:induction false} DriveRuns(c: Setting, s: Sys, key: Key, calm: Calm)
    requires Underway(c, s, key, calm)
    ensures var t, g := DriveSys(c, s, calm), Drive(TxOf(c, s, key), calm);
      && SysInv(c, t) && t.worker.None? && TxOf(c, t, key) == g && Apart(c, s, t, key)
      && (g.tx.pc == Halted(true) ==> t.spool.processing == s.spool.processing - {key})
    decreases Stage(TxOf(c, s, key).tx), Rest(TxOf(c, s, key).tx)
  {
    hide TrimSpace, Tx.Step, SysInv, TxOf, WorkStep, Inv, NoDeletion;
    var h := TxOf(c, s, key);
    var r := calm.Answer(h.tx.pc);
    var u := WorkStep(c, s, key, r);
    WorkerInv(c, s, key);
    StaysUndeleted(h.tx, calm);
    Progress(h.tx, r);
    WorkFacts(c, s, key, r);
    WorkKeeps(c, s, key, r);
    assert h.Step(r).tx.job == h.tx.job;
    if h.Step(r).tx.pc.Halted? {
      if h.Step(r).tx.pc == Halted(true) {
        LastCall(h.tx, r);
      }
    } else {
      DriveRuns(c, u, key, calm);
      if h.tx.pc.Finalizing? {
        FinalizingEnds(h.tx, r);
      }
    }
  }

  lemma FinalizingEnds(t: Tx, r: Reply)
    requires t.pc.Finalizing?
    ensures t.Step(r).pc.Halted?
  {
  }

  /** A fault-free drive is a run of the machine. */
  lemma {:induction false} DriveIsRun(c: Setting, s: Sys, calm: Calm) returns (moves: seq<Move>)
    ensures DriveSys(c, s, calm) == Run(c, s, moves)
    decreases if s.worker.Some? then Stage(TxOf(c, s, s.worker.value).tx) + 1 else 0,
              if s.worker.Some? then Rest(TxOf(c, s, s.worker.value).tx) else 0
  {
    hide TrimSpace, Target.Key, Tx.Step, Run;
    RunNothing(c, s);
    if s.worker.None? || TxOf(c, s, s.worker.value).tx.pc.Halted? {
      moves := [];
    } else {
      var key := s.worker.value;
      var r := calm.Answer(TxOf(c, s, key).tx.pc);
      Progress(TxOf(c, s, key).tx, PushReply(TxOf(c, s, key).tx.pc, r));
      var rest := DriveIsRun(c, WorkStep(c, s, key, r), calm);
      RunSnoc(c, s, [], Work(r));
      moves := [] + [Work(r)] + rest;
      RunConcat(c, s, [] + [Work(r)], rest);
    }
  }

  /** In calm weather a run of the message ends well. */
  ghost predicate Fit(c: Setting, s: Sys, office: Office, key: Key) {
    var stored := TxOf(c, s, key).tx.Stored();
    && GoodJob(c, office.job(key), key) && Ready(stored, office.job(key), office.calm(key).processing)
    && !stored.plan.deleteSource.enabled && KeepsSource(office.calm(key))
  }

  /** The worker is idle and has requeued; all messages in the spool are pending. */
  ghost predicate AtWork(c: Setting, s: Sys) {
    SysInv(c, s) && s.worker.None? && s.requeued && s.spool.processing == map[]
  }

  lemma ClaimStarts(c: Setting, s: Sys, office: Office, key: Key)
    requires AtWork(c, s) && key in s.spool.pending && Fit(c, s, office, key)
    ensures var u := Next(c, s, Claim(key, office.job(key)));
      && Underway(c, u, key, office.calm(key)) && TxOf(c, u, key) == TxOf(c, s, key).Begin(office.job(key))
      && u.spool.pending == s.spool.pending - {key} && u.spool.processing.Keys == {key}
      && u.accepted == s.accepted && u.requeued && forall k | k != key :: TxOf(c, u, k) == TxOf(c, s, k)
  {
    hide TrimSpace, SysInv, Ready, Envelope.Valid;
    var h, job := TxOf(c, s, key), office.job(key);
    NextKeeps(c, s, Claim(key, job));
    IdleLife(c, s, key);
  }

  lemma IdleLife(c: Setting, s: Sys, key: Key)
    requires SysInv(c, s) && s.worker.None?
    ensures IsLife(c.txKey(key), TxOf(c, s, key)) && TxOf(c, s, key).tx.pc.Halted?
    ensures TxOf(c, s, key).tx.key == c.txKey(key)
  {
    hide TrimSpace, IsLife, Safe, Inv;
    NewIsLife(c.txKey(key));
    assert key in s.txs ==> TxInv(c, s, key);
    LifeFacts(c.txKey(key), TxOf(c, s, key));
  }

  lemma CalmRunCompletes(c: Setting, s: Sys, office: Office, key: Key)
    requires SysInv(c, s) && s.worker.None? && Fit(c, s, office, key)
    ensures var g := Drive(TxOf(c, s, key).Begin(office.job(key)), office.calm(key));
      g.tx.pc == Halted(true) && g.tx.Stored().completed
  {
    hide TrimSpace, SysInv, Drive, Ready, IsLife, Envelope.Valid, Life, Opening, Closing, Skips;
    IdleLife(c, s, key);
    var events := EventsOf(c.txKey(key), TxOf(c, s, key));
    RecoveryConverges(c.txKey(key), events, office.job(key), office.calm(key));
  }

  /** A round on any pending message takes that message out of the spool, with its transaction completed,
      and leaves the others where they are. */
  lemma RoundDrains(c: Setting, s: Sys, office: Office, key: Key) returns (moves: seq<Move>)
    requires AtWork(c, s) && key in s.spool.pending && Fit(c, s, office, key)
    ensures var t := Run(c, s, moves);
      && AtWork(c, t) && t.spool.pending == s.spool.pending - {key} && t.accepted == s.accepted
      && TxOf(c, t, key).tx.Stored().completed
      && forall k | k != key :: TxOf(c, t, k) == TxOf(c, s, k)
  {
    hide SysInv, Next, Run, TxOf, Fit, Drive, DriveSys, Underway;
    var claim := Claim(key, office.job(key));
    var u := Next(c, s, claim);
    ClaimStarts(c, s, office, key);
    CalmRunCompletes(c, s, office, key);
    DriveRuns(c, u, key, office.calm(key));
    var drive := DriveIsRun(c, u, office.calm(key));
    RunNothing(c, s);
    RunSnoc(c, s, [], claim);
    moves := [] + [claim] + drive;
    RunConcat(c, s, [] + [claim], drive);
    var t := Run(c, s, moves);
    assert t.spool.processing.Keys == u.spool.processing.Keys - {key} == {};
  }

  // ---- all messages ----

  /** Rounds without faults, in whatever order the messages are claimed, empty the spool. */
  lemma {:induction false} RoundsDrain(c: Setting, s: Sys, office: Office, order: seq<Key>) returns (moves: seq<Move>)
    requires AtWork(c, s) && s.spool.pending.Keys == set k | k in order
    requires forall i, j | 0 <= i < j < |order| :: order[i] != order[j]
    requires forall k | k in order :: Fit(c, s, office, k)
    ensures var t := Run(c, s, moves);
      && AtWork(c, t) && t.spool.pending == map[] && t.accepted == s.accepted
      && (forall k | k in order :: TxOf(c, t, k).tx.Stored().completed)
      && forall k | k !in order :: TxOf(c, t, k) == TxOf(c, s, k)
    decreases |order|
  {
    hide AtWork, Run, TxOf, Fit;
    if order == [] {
      moves := [];
      RunNothing(c, s);
      assert s.spool.pending.Keys == {};
    } else {
      var key, rest := order[0], order[1..];
      var first := RoundDrains(c, s, office, key);
      var u := Run(c, s, first);
      forall k | k in rest ensures Fit(c, u, office, k) {
        StillFit(c, s, u, office, k);
      }
      var more := RoundsDrain(c, u, office, rest);
      moves := first + more;
      RunConcat(c, s, first, more);
      assert order == [key] + rest;
    }
  }

  lemma StillFit(c: Setting, s: Sys, t: Sys, office: Office, key: Key)
    requires Fit(c, s, office, key) && TxOf(c, t, key).tx.Stored() == TxOf(c, s, key).tx.Stored()
    ensures Fit(c, t, office, key)
  {
    hide Ready, TrimSpace;
  }

  // ---- the restart ----

  /** The requeue, entry by entry. */
  lemma {:induction false} RequeuesAll(c: Setting, s: Sys, entries: seq<Key>) returns (moves: seq<Move>)
    requires s.worker.None? && !s.requeued && s.spool.Exclusive()
    requires s.spool.processing.Keys == set k | k in entries
    requires forall i, j | 0 <= i < j < |entries| :: entries[i] != entries[j]
    ensures var t := Run(c, s, moves);
      && t.worker.None? && t.requeued && t.spool.processing == map[] && t.txs == s.txs && t.accepted == s.accepted
      && t.spool.pending.Keys == s.spool.pending.Keys + s.spool.processing.Keys
    decreases |entries|
  {
    hide Run, TrimSpace, Tx.Step, Tx.Begin;
    RunNothing(c, s);
    if entries == [] {
      moves := [] + [RequeueDone];
      RunSnoc(c, s, [], RequeueDone);
      assert s.spool.processing.Keys == {};
    } else {
      var key, rest := entries[0], entries[1..];
      RunSnoc(c, s, [], Requeue(key));
      var u := Next(c, s, Requeue(key));
      assert entries == [key] + rest;
      assert u.spool.processing.Keys == s.spool.processing.Keys - {key};
      var more := RequeuesAll(c, u, rest);
      moves := [] + [Requeue(key)] + more;
      RunConcat(c, s, [] + [Requeue(key)], more);
    }
  }

  /** A restart forgets uploads and clean-ups under way and stops the worker; records and spool stay. */
  lemma RestartStops(c: Setting, s: Sys)
    requires SysInv(c, s)
    ensures var t := Next(c, s, Restart(false));
      && SysInv(c, t) && t.worker.None? && !t.requeued && t.spool == s.spool && t.accepted == s.accepted
      && forall k :: TxOf(c, t, k).tx.Stored() == TxOf(c, s, k).tx.Stored()
  {
    hide TrimSpace, IsLife, Inv, Safe, Tx.NextTarget, Tx.AfterDeliveries, SysInv;
    NextKeeps(c, s, Restart(false));
  }

  lemma {:induction false} Listing(keys: set<Key>) returns (list: seq<Key>)
    ensures keys == (set k | k in list) && forall i, j | 0 <= i < j < |list| :: list[i] != list[j]
  {
    if keys == {} {
      list := [];
    } else {
      var key :| key in keys;
      var rest := Listing(keys - {key});
      list := [key] + rest;
      assert forall k | k in rest :: k in keys - {key};
      assert (set k | k in list) == {key} + (keys - {key});
    }
  }

  /** From every reachable state in which no message is both pending and claimed, a restart, the requeue
      and one fault-free round for each message in the spool, in whatever order, empty the spool and
      complete the transaction of every message that was ever accepted. */
  lemma RestartDrains(c: Setting, clock: int, past: seq<Move>, office: Office) returns (moves: seq<Move>)
    requires var s := Run(c, Boot(clock), past);
      s.spool.Exclusive() && forall k | s.spool.Queued(k) :: Fit(c, s, office, k)
    ensures var s, t := Run(c, Boot(clock), past), Run(c, Run(c, Boot(clock), past), moves);
      && t.spool.pending == map[] && t.spool.processing == map[] && t.accepted == s.accepted
      && (forall k | s.spool.Queued(k) :: TxOf(c, t, k).tx.Stored().completed)
      && forall k | k in s.accepted :: TxOf(c, t, k).tx.Stored().completed
  {
    hide Run, Next, SysInv, TxOf, Fit, Spool.Exclusive;
    var s := Run(c, Boot(clock), past);
    NothingIsLost(c, clock, past);
    RestartStops(c, s);
    var a := Next(c, s, Restart(false));
    RunNothing(c, s);
    RunSnoc(c, s, [], Restart(false));
    var entries := Listing(a.spool.processing.Keys);
    var requeue := RequeuesAll(c, a, entries);
    var b := Run(c, a, requeue);
    var order := Listing(b.spool.pending.Keys);
    RunKeeps(c, a, requeue);
    forall k | k in order ensures Fit(c, b, office, k) {
      assert k in b.spool.pending.Keys;
      SameTxs(c, a, b, k);
      StillFit(c, s, b, office, k);
    }
    var rounds := RoundsDrain(c, b, office, order);
    moves := [] + [Restart(false)] + (requeue + rounds);
    RunConcat(c, a, requeue, rounds);
    RunConcat(c, s, [] + [Restart(false)], requeue + rounds);
    var t := Run(c, s, moves);
    RunKeeps(c, b, rounds);
    AllSafe(c, t);
    assert forall k | s.spool.Queued(k) :: k in b.spool.pending.Keys;
  }

  lemma SameTxs(c: Setting, s: Sys, t: Sys, key: Key)
    requires t.txs == s.txs
    ensures TxOf(c, t, key) == TxOf(c, s, key)
  {
  }

  lemma {:induction false} RunKeeps(c: Setting, s: Sys, moves: seq<Move>)
    requires SysInv(c, s)
    ensures SysInv(c, Run(c, s, moves))
    decreases |moves|
  {
    hide Next, SysInv;
    if moves != [] {
      RunKeeps(c, s, moves[..|moves| - 1]);
      NextKeeps(c, Run(c, s, moves[..|moves| - 1]), moves[|moves| - 1]);
    }
  }
}
