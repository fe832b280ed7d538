/** What every reachable transaction keeps, whatever its environment answers. */
module TransactionInvariant {
  import opened Text
  import opened Mailflow
  import opened Transaction

  /** The shape of every state that is ever persisted. */
  ghost predicate Sound(s: TxState) {
    && (|s.plan.targets| > 0 ==> s.plan.Valid())
    && s.deliveries.Keys <= s.plan.Keys()
    && (s.sourceDeleted ==> s.Committed())
    && (s.completed ==> s.sourceAcked && (s.skipped || s.Committed()))
  }

  /** `b` is a later state of the same transaction: nothing decided in `a` is taken back. */
  ghost predicate Extends(a: TxState, b: TxState) {
    && a.key == b.key
    && (|a.plan.targets| > 0 ==> b.plan == a.plan)
    && (forall k | k in a.deliveries :: k in b.deliveries && b.deliveries[k] == a.deliveries[k])
    && (a.sourceDeleted ==> b.sourceDeleted)
    && (a.sourceAcked ==> b.sourceAcked)
    && (a.completed ==> b.completed)
  }

  ghost predicate RequiredUpTo(s: TxState, n: nat) {
    forall i | 0 <= i < n && i < |s.plan.targets| ::
      s.plan.targets[i].required ==> s.plan.targets[i].Key() in s.deliveries
  }

  /** `mem` is what is on disk. */
  ghost predicate Synced(t: Tx) {
    t.disk == Some(t.mem)
  }

  /** The way to the acknowledgement is clear: all required receipts are on disk, or the processor
      has skipped the mail in this run. */
  ghost predicate Settling(t: Tx) {
    || (t.mem.Committed() && t.Stored().Committed())
    || (t.mem.skipped && t.mem.plan == t.Stored().plan && t.mem.deliveries == t.Stored().deliveries)
  }

  ghost predicate Delivered(t: Tx, i: nat) {
    && i < |t.mem.plan.targets|
    && t.mem.plan.Valid()
    && t.Stored().plan == t.mem.plan
    && t.job.envelope.AllowsDelete(t.mem.plan.deleteSource)
    && !t.mem.completed
    && t.disk.Some?
  }

  /** `a` and `b` record the same receipts, deletion and acknowledgement. */
  ghost predicate SameLedger(a: TxState, b: TxState) {
    a.deliveries == b.deliveries && a.sourceDeleted == b.sourceDeleted && a.sourceAcked == b.sourceAcked
  }

  ghost predicate PcInv(t: Tx) {
    var base := t.Stored();
    match t.pc
    case Halted(ok) => ok ==> Synced(t) && t.mem.completed
    case Loading => true
    case Processing => t.mem == base && !t.mem.completed && !t.mem.Committed()
    case SavingPlan =>
      t.mem.plan.Valid() && |base.plan.targets| == 0 && !t.mem.completed && SameLedger(base, t.mem)
    case Delivering(i) =>
      Delivered(t, i) && Synced(t) && t.mem.plan.targets[i].Key() !in t.mem.deliveries && RequiredUpTo(t.mem, i)
    case SavingReceipt(i) =>
      Delivered(t, i) && RequiredUpTo(t.mem, i + 1)
      && (var k := t.mem.plan.targets[i].Key();
          k in t.mem.deliveries && k !in base.deliveries
          && SameLedger(base.(deliveries := base.deliveries[k := t.mem.deliveries[k]]), t.mem))
    case Deleting =>
      Synced(t) && t.mem.Committed() && t.mem.ShouldDelete() && !t.mem.sourceDeleted && !t.mem.completed
      && t.job.envelope.AllowsDelete(t.mem.plan.deleteSource)
    case SavingDeleted =>
      t.mem.Committed() && base.Committed() && !t.mem.completed
      && !base.sourceDeleted && SameLedger(base.(sourceDeleted := true), t.mem)
    case Acking => Settling(t) && !t.mem.sourceAcked && !t.mem.completed && SameLedger(base, t.mem)
    case SavingAcked =>
      Settling(t) && !t.mem.completed && !base.sourceAcked && SameLedger(base.(sourceAcked := true), t.mem)
    case SavingCompleted => Settling(t) && t.mem.sourceAcked && t.mem.completed && SameLedger(base, t.mem)
    case Finalizing => Synced(t) && t.mem.completed
  }

  ghost predicate Inv(t: Tx) {
    && (t.disk.Some? ==> Sound(t.disk.value) && t.disk.value.key == t.key)
    && (!t.pc.Halted? && !t.pc.Loading? ==>
          Sound(t.mem) && Extends(t.Stored(), t.mem) && (t.Stored().completed ==> t.pc.Finalizing?))
    && PcInv(t)
  }

  lemma DeliveryStep(t: Tx, r: Reply)
    requires t.pc.Delivering? && t.pc.i < |t.mem.plan.targets|
    ensures var i, target := t.pc.i, t.mem.plan.targets[t.pc.i];
      t.Step(r) ==
        if r.verdict.Fine? then t.(mem := WithReceipt(t.mem, target, r.receipt), pc := SavingReceipt(i))
        else if r.verdict.Failed? && !target.required then t.NextTarget(i + 1)
        else t.Halt(false)
  {
    hide TrimSpace, Target.Key, WithReceipt, Tx.NextTarget;
  }

  lemma ReceiptStep(t: Tx, r: Reply)
    requires t.pc.SavingReceipt? && r.verdict.Fine?
    ensures t.Step(r) == t.Saved(Fine).NextTarget(t.pc.i + 1)
  {
    hide TrimSpace, Target.Key, WithReceipt, Tx.NextTarget;
  }

  // ---- one step keeps the invariant ----

  lemma AckKeeps(t: Tx)
    requires Inv(t.(pc := Loading)) && Sound(t.mem) && Extends(t.Stored(), t.mem)
    requires Settling(t) && !t.mem.completed && !t.Stored().completed && SameLedger(t.Stored(), t.mem)
    ensures Inv(t.ToAck())
  {
    hide TrimSpace, Target.Key, Target.Valid;
  }

  lemma AfterDeliveriesKeeps(t: Tx)
    requires Inv(t.(pc := Loading)) && Sound(t.mem) && Synced(t)
    requires t.mem.Committed() && !t.mem.completed
    ensures Inv(t.AfterDeliveries())
  {
    hide TrimSpace, Target.Key, Target.Valid, TxState.ShouldDelete;
    AckKeeps(t);
  }

  lemma {:induction false} NextTargetKeeps(t: Tx, i: nat)
    requires Inv(t.(pc := Loading)) && Sound(t.mem) && Synced(t)
    requires t.mem.plan.Valid() && !t.mem.completed && RequiredUpTo(t.mem, i)
    requires t.job.envelope.AllowsDelete(t.mem.plan.deleteSource)
    ensures Inv(t.NextTarget(i))
    decreases |t.mem.plan.targets| - i
  {
    hide TrimSpace, Target.Key, Target.Valid, TxState.ShouldDelete, Tx.AfterDeliveries;
    if i >= |t.mem.plan.targets| {
      AfterDeliveriesKeeps(t);
    } else if t.mem.plan.targets[i].Key() in t.mem.deliveries {
      NextTargetKeeps(t, i + 1);
    }
  }

  lemma SaveKeeps(t: Tx, v: Verdict)
    requires Inv(t) && t.Saving()
    ensures Inv(t.Saved(v).(pc := Loading)) && Inv(t.Saved(v).Halt(false))
    ensures v.Landed() ==> Synced(t.Saved(v)) && Sound(t.mem)
  {
    hide TrimSpace, Target.Key, Target.Valid;
  }

  lemma LoadKeeps(t: Tx)
    requires Inv(t) && t.pc.Loading?
    ensures Inv(t.AfterLoad())
  {
    hide TrimSpace, Target.Key, Target.Valid, TxState.ShouldDelete, Tx.AfterDeliveries;
    var u := t.(mem := t.Stored());
    if !u.mem.completed && u.mem.Committed() {
      AfterDeliveriesKeeps(u);
    }
  }

  lemma ProcessingKeeps(t: Tx, p: Transaction.Processing)
    requires Inv(t) && t.pc.Processing?
    ensures Inv(t.AfterProcessing(p))
  {
    hide TrimSpace, Target.Key, Target.Valid, TxState.ShouldDelete, Tx.NextTarget;
    match p
    case Skip(trace) =>
      AckKeeps(t.(mem := t.mem.(
        trace := if trace.transactionKey != "" then trace else t.job.envelope.trace, skipped := true)));
    case Produced(_, plan, _) =>
      if t.mem.plan == plan && t.job.envelope.AllowsDelete(plan.deleteSource) {
        if |plan.targets| > 0 {
          NextTargetKeeps(t, 0);
        }
      }
  }

  lemma ReceiptAdds(s: TxState, target: Target, receipt: Receipt)
    ensures var b := WithReceipt(s, target, receipt);
      && b == s.(trace := b.trace, deliveries := s.deliveries[target.Key() := FilledReceipt(receipt, target)])
  {
    hide TrimSpace, Target.Key, EqualFold, FilledReceipt;
  }

  lemma ConsumeKeeps(t: Tx, r: Reply)
    requires Inv(t) && t.pc.Delivering? && r.verdict.Fine?
    ensures Inv(t.Step(r)) && t.Step(r).disk == t.disk
  {
    hide TrimSpace, Target.Key, Target.Valid, TxState.ShouldDelete, FilledReceipt, WithReceipt, Tx.NextTarget;
    var target := t.mem.plan.targets[t.pc.i];
    ReceiptAdds(t.mem, target, r.receipt);
    assert target.Key() in t.mem.plan.Keys();
  }

  lemma DeliveryKeeps(t: Tx, r: Reply)
    requires Inv(t) && t.pc.Delivering?
    ensures Inv(t.Step(r)) && t.Step(r).disk == t.disk
  {
    hide TrimSpace, Target.Key, Target.Valid, TxState.ShouldDelete, FilledReceipt, WithReceipt, Tx.NextTarget;
    if r.verdict.Fine? {
      ConsumeKeeps(t, r);
    } else if r.verdict.Failed? && t.Optional() {
      NextTargetKeeps(t, t.pc.i + 1);
    }
  }

  lemma SavedStepKeeps(t: Tx, r: Reply)
    requires Inv(t) && t.Saving()
    ensures Inv(t.Step(r)) && t.Step(r).disk == t.Saved(r.verdict).disk
  {
    hide TrimSpace, Target.Key, Target.Valid, TxState.ShouldDelete, Tx.NextTarget, Tx.ToAck;
    SaveKeeps(t, r.verdict);
    if r.verdict.Fine? {
      var u := t.Saved(Fine);
      match t.pc
      case SavingPlan => if u.job.envelope.AllowsDelete(u.mem.plan.deleteSource) { NextTargetKeeps(u, 0); }
      case SavingReceipt(i) => NextTargetKeeps(u, i + 1);
      case SavingDeleted => AckKeeps(u);
      case _ =>
    }
  }

  lemma StepKeeps(t: Tx, r: Reply)
    requires Inv(t)
    ensures Inv(t.Step(r))
    ensures Extends(t.Stored(), t.Step(r).Stored())
  {
    hide TrimSpace, Target.Key, Target.Valid, TxState.ShouldDelete;
    hide Tx.NextTarget, Tx.AfterDeliveries, Tx.AfterProcessing, Tx.AfterLoad, Tx.ToAck;
    if t.Saving() {
      SavedStepKeeps(t, r);
    } else if t.pc.Delivering? {
      DeliveryKeeps(t, r);
    } else if r.verdict.Fine? {
      match t.pc
      case Loading => LoadKeeps(t);
      case Processing => ProcessingKeeps(t, r.processing);
      case _ =>
    }
  }

  lemma BeginKeeps(t: Tx, job: Job)
    requires Inv(t)
    ensures Inv(t.Begin(job))
  {
    hide TrimSpace, Target.Key, Target.Valid;
  }

  // ---- whole lives ----

  /** In every reachable state the persisted record is sound, and in the middle of a run it stands
      in the relation to the working copy that the program counter calls for. */
  lemma {:induction false} LifeKeeps(key: string, events: seq<Event>)
    ensures Inv(Life(NewHistory(key), events).tx)
  {
    hide TrimSpace, Tx.Begin, Tx.Step;
    if events != [] {
      var h := Life(NewHistory(key), events[..|events| - 1]);
      LifeKeeps(key, events[..|events| - 1]);
      match events[|events| - 1]
      case Start(job) => BeginKeeps(h.tx, job);
      case Answer(r) => StepKeeps(h.tx, r);
    } else {
      assert Inv(NewTx(key));
    }
  }

  /** Over any stretch of any life the persisted record only grows: a plan once fixed stays, a
      receipt once stored stays as it is, and no flag falls back. */
  lemma {:induction false} LifeExtends(h: History, events: seq<Event>)
    requires Inv(h.tx)
    ensures Inv(Life(h, events).tx)
    ensures Extends(h.tx.Stored(), Life(h, events).tx.Stored())
    decreases |events|
  {
    hide TrimSpace, Tx.Begin, Tx.Step, Sound, PcInv;
    if events != [] {
      var m := Life(h, events[..|events| - 1]);
      LifeExtends(h, events[..|events| - 1]);
      match events[|events| - 1]
      case Start(job) => BeginKeeps(m.tx, job);
      case Answer(r) => StepKeeps(m.tx, r);
    }
  }
}
