/** Runs end, and a run that meets no fault brings the transaction to completion. */
module Recovery {
  import opened Text
  import opened Mailflow
  import opened Transaction
  import opened TransactionInvariant
  import opened TransactionEffects

  function Stage(t: Tx): nat {
    match t.pc
    case Loading => 9
    case Processing => 8
    case SavingPlan => 7
    case Delivering(_) => 6
    case SavingReceipt(_) => 6
    case Deleting => 5
    case SavingDeleted => 4
    case Acking => 3
    case SavingAcked => 2
    case SavingCompleted => 1
    case Finalizing => 1
    case Halted(_) => 0
  }

  function Rest(t: Tx): nat {
    var n := |t.mem.plan.targets|;
    match t.pc
    case Delivering(i) => if i < n then 2 * (n - i) + 1 else 1
    case SavingReceipt(i) => if i < n then 2 * (n - i) else 0
    case SavingCompleted => 1
    case _ => 0
  }

  ghost predicate Closer(t: Tx, u: Tx) {
    Stage(u) < Stage(t) || (Stage(u) == Stage(t) && Rest(u) < Rest(t))
  }

  lemma LoopProgress(t: Tx, r: Reply)
    requires t.pc.SavingPlan? || t.pc.SavingReceipt? || t.pc.Delivering?
    ensures Closer(t, t.Step(r))
  {
    hide TrimSpace, Target.Key, Plan.Valid, TxState.HasRequired, WithReceipt, Tx.NextTarget;
    match t.pc
    case SavingPlan => NextTargetLands(t.Saved(r.verdict), 0);
    case SavingReceipt(i) => NextTargetLands(t.Saved(r.verdict), i + 1);
    case Delivering(i) =>
      NextTargetLands(t, i + 1);
      if i < |t.mem.plan.targets| {
        ReceiptAdds(t.mem, t.mem.plan.targets[i], r.receipt);
      }
  }

  /** Every answered call brings a run closer to its end, whatever the answer. */
  lemma Progress(t: Tx, r: Reply)
    requires !t.pc.Halted?
    ensures Closer(t, t.Step(r))
  {
    hide TrimSpace, Target.Key, Plan.Valid, TxState.HasRequired, WithReceipt, Tx.NextTarget, Tx.AfterDeliveries;
    if t.pc.SavingPlan? || t.pc.SavingReceipt? || t.pc.Delivering? {
      LoopProgress(t, r);
    } else if t.pc.Loading? {
      AfterDeliveriesLands(t.(mem := t.Stored()));
    } else if t.pc.Processing? {
      NextTargetLands(t, 0);
    }
  }

  /** What a fault-free environment answers: one processor output, one receipt per target. */
  datatype Calm = Calm(processing: Transaction.Processing, receipts: nat -> Receipt) {
    function Answer(pc: Pc): Reply {
      Reply(Fine, processing, receipts(if pc.Delivering? then pc.i else 0))
    }
  }

  /** A run to its end without faults. */
  function Drive(h: History, calm: Calm): History
    decreases Stage(h.tx), Rest(h.tx)
  {
    if h.tx.pc.Halted? then h
    else
      Progress(h.tx, calm.Answer(h.tx.pc));
      Drive(h.Step(calm.Answer(h.tx.pc)), calm)
  }

  // ---- when such a run succeeds, and what it does ----

  predicate Configured(s: TxState, plan: Plan, job: Job, i: nat)
    decreases |plan.targets| - i
  {
    i >= |plan.targets|
    || ((plan.targets[i].Key() in s.deliveries || TrimSpace(plan.targets[i].consumer) in job.consumers)
        && Configured(s, plan, job, i + 1))
  }

  /** What a caller has to provide for a run to end well. */
  predicate Ready(s: TxState, job: Job, p: Transaction.Processing) {
    || s.completed
    || (s.Committed() && job.envelope.AllowsDelete(s.plan.deleteSource))
    || (!s.Committed() && Usable(s, job, p))
  }

  /** The processor's output leads on: a skip always does, a plan must fit the record and the job. */
  predicate Usable(s: TxState, job: Job, p: Transaction.Processing) {
    match p
    case Skip(_) => true
    case Produced(trace, plan, hasMime) =>
      && GoodOutput(trace, plan, hasMime) && trace.transactionKey == s.key
      && (|s.plan.targets| == 0 || s.plan == plan)
      && job.envelope.AllowsDelete(plan.deleteSource)
      && Configured(s, plan, job, 0)
  }

  /** The deliveries still to be made, in plan order. */
  function Missing(s: TxState, plan: Plan, i: nat): seq<Effect>
    decreases |plan.targets| - i
  {
    if i >= |plan.targets| then []
    else if plan.targets[i].Key() in s.deliveries then Missing(s, plan, i + 1)
    else [Consumed(plan.targets[i].Key())] + Missing(s, plan, i + 1)
  }

  /** How a run from the record `before` to the record `after` closes. */
  function Closing(before: TxState, after: TxState, job: Job, skips: bool): seq<Effect> {
    (if !before.sourceDeleted && !skips && after.ShouldDelete() then [Deleted] else [])
    + (if !before.sourceAcked && job.envelope.source.Source? then [Acked] else [])
  }

  /** `g` is the good end of a run whose working copy was `s`, after the further effects `fx`. */
  ghost predicate Ends(h: History, s: TxState, g: History, fx: seq<Effect>, skips: bool) {
    && g.tx.pc == Halted(true) && g.cuts == h.cuts
    && g.tx.disk.Some? && g.tx.disk.value.completed
    && g.log == h.log + fx + Closing(s, g.tx.disk.value, h.tx.job, skips)
    && (g.tx.disk.value.sourceDeleted <==> s.sourceDeleted || (!skips && g.tx.disk.value.ShouldDelete()))
  }

  lemma DriveCompleting(h: History, calm: Calm)
    requires h.tx.pc.SavingCompleted?
    ensures var g := Drive(h, calm);
      g.tx.pc == Halted(true) && g.tx.disk == Some(h.tx.mem) && g.log == h.log && g.cuts == h.cuts
  {
    hide TrimSpace, Target.Key, Plan.Valid, TxState.ShouldDelete, Tx.NextTarget, Tx.AfterDeliveries;
    var e := h.Step(calm.Answer(h.tx.pc));
    if !e.tx.pc.Halted? {
      assert Drive(e, calm) == e.Step(calm.Answer(e.tx.pc));
    }
  }

  lemma DriveSavingAcked(h: History, calm: Calm)
    requires h.tx.pc.SavingAcked?
    ensures var g := Drive(h, calm);
      && g.tx.pc == Halted(true) && g.tx.disk == Some(h.tx.mem.(completed := true))
      && g.log == h.log && g.cuts == h.cuts
  {
    hide TrimSpace, Target.Key, Plan.Valid, TxState.ShouldDelete, Tx.NextTarget, Tx.AfterDeliveries;
    DriveCompleting(h.Step(calm.Answer(h.tx.pc)), calm);
  }

  lemma DriveAck(h: History, calm: Calm)
    ensures var g := Drive(h.(tx := h.tx.ToAck()), calm);
      && g.tx.pc == Halted(true) && g.cuts == h.cuts
      && g.tx.disk == Some(h.tx.mem.(sourceAcked := true, completed := true))
      && g.log == h.log + if !h.tx.mem.sourceAcked && h.tx.job.envelope.source.Source? then [Acked] else []
  {
    hide TrimSpace, Target.Key, Plan.Valid, TxState.ShouldDelete, Tx.NextTarget, Tx.AfterDeliveries, Drive;
    var a := h.(tx := h.tx.ToAck());
    match a.tx.pc
    case Acking => Unfold(a, calm); DriveSavingAcked(a.Step(calm.Answer(a.tx.pc)), calm);
    case SavingAcked => DriveSavingAcked(a, calm);
    case _ => DriveCompleting(a, calm);
  }

  lemma Stop(h: History, calm: Calm)
    requires h.tx.pc.Halted?
    ensures Drive(h, calm) == h
  {
  }

  lemma Unfold(h: History, calm: Calm)
    requires !h.tx.pc.Halted?
    ensures Drive(h, calm) == Drive(h.Step(calm.Answer(h.tx.pc)), calm)
  {
    hide TrimSpace, Target.Key, Plan.Valid, Tx.Step;
  }

  lemma DriveDeleting(h: History, calm: Calm)
    requires h.tx.pc.Deleting? && !h.tx.mem.sourceDeleted && h.tx.mem.ShouldDelete()
    ensures Ends(h, h.tx.mem, Drive(h, calm), [], false)
  {
    hide TrimSpace, Target.Key, Plan.Valid, TxState.HasRequired, TxState.ShouldDelete;
    hide Tx.NextTarget, Tx.AfterDeliveries, Tx.ToAck, Drive;
    var b := h.Step(calm.Answer(Deleting));
    var c := b.Step(calm.Answer(SavingDeleted));
    Unfold(h, calm);
    Unfold(b, calm);
    DriveAck(c.(tx := b.tx.Saved(Fine)), calm);
    AckNeverFails(b.tx.Saved(Fine));
    MarksDoNotDelete(h.tx.mem, true, true, true);
  }

  /** Neither mark on the record bears on whether the source should be deleted. */
  lemma MarksDoNotDelete(s: TxState, deleted: bool, acked: bool, completed: bool)
    ensures s.(sourceDeleted := deleted, sourceAcked := acked, completed := completed).ShouldDelete()
      == s.ShouldDelete()
  {
    hide TrimSpace, EqualFold;
  }

  lemma AckNeverFails(t: Tx)
    ensures !t.ToAck().pc.Halted?
  {
  }

  lemma DriveClosing(h: History, calm: Calm)
    requires h.tx.mem.HasRequired()
    ensures var g := Drive(h.(tx := h.tx.AfterDeliveries()), calm);
      && (g.tx.pc == Halted(true) <==> h.tx.job.envelope.AllowsDelete(h.tx.mem.plan.deleteSource))
      && (g.tx.pc == Halted(true) ==> Ends(h, h.tx.mem, g, [], false))
  {
    hide TrimSpace, Target.Key, Plan.Valid, TxState.HasRequired, TxState.ShouldDelete, Tx.NextTarget, Tx.ToAck, Drive;
    var t := h.tx;
    if !t.job.envelope.AllowsDelete(t.mem.plan.deleteSource) {
      Stop(h.(tx := t.Halt(false)), calm);
    } else if !t.mem.sourceDeleted && t.mem.ShouldDelete() {
      DriveDeleting(h.(tx := t.(pc := Deleting)), calm);
    } else {
      DriveAck(h, calm);
      MarksDoNotDelete(t.mem, t.mem.sourceDeleted, true, true);
    }
  }

  /** The run stands before target `i`, everything so far on disk. */
  ghost predicate BeforeTarget(t: Tx, i: nat) {
    && Inv(t.(pc := Loading)) && Sound(t.mem) && Synced(t)
    && t.mem.plan.Valid() && !t.mem.completed && RequiredUpTo(t.mem, i)
    && t.job.envelope.AllowsDelete(t.mem.plan.deleteSource)
  }

  /** From target `i` on the working copy `m` has the receipts that `s` has. */
  ghost predicate AheadOf(s: TxState, m: TxState, i: nat) {
    && s.sourceDeleted == m.sourceDeleted && s.sourceAcked == m.sourceAcked
    && forall j | i <= j < |m.plan.targets| ::
         m.plan.targets[j].Key() in s.deliveries <==> m.plan.targets[j].Key() in m.deliveries
  }

  lemma PassTarget(t: Tx, s: TxState, i: nat)
    requires BeforeTarget(t, i) && AheadOf(s, t.mem, i) && i < |t.mem.plan.targets|
    requires t.mem.plan.targets[i].Key() in t.mem.deliveries
    ensures BeforeTarget(t, i + 1) && AheadOf(s, t.mem, i + 1) && t.mem.plan.targets[i].Key() in s.deliveries
  {
    hide TrimSpace, Target.Key, Plan.Valid, Inv, Sound;
  }

  lemma PastTargets(t: Tx, s: TxState, i: nat)
    requires BeforeTarget(t, i) && AheadOf(s, t.mem, i) && i >= |t.mem.plan.targets|
    ensures t.mem.HasRequired() && t.job.envelope.AllowsDelete(t.mem.plan.deleteSource)
    ensures s.sourceDeleted == t.mem.sourceDeleted && s.sourceAcked == t.mem.sourceAcked
  {
    hide TrimSpace, Target.Key, Plan.Valid, Inv, Sound;
  }

  /** The deliveries from target `i` on; `s` is the record at the start of the run. */
  lemma {:induction false} DriveTargets(h: History, calm: Calm, s: TxState, i: nat)
    requires BeforeTarget(h.tx, i) && AheadOf(s, h.tx.mem, i)
    ensures var g := Drive(h.(tx := h.tx.NextTarget(i)), calm);
      && (g.tx.pc == Halted(true) <==> Configured(s, h.tx.mem.plan, h.tx.job, i))
      && (g.tx.pc == Halted(true) ==> Ends(h, s, g, Missing(s, h.tx.mem.plan, i), false))
    decreases |h.tx.mem.plan.targets| - i
  {
    hide TrimSpace, Target.Key, Target.Valid, TxState.ShouldDelete, WithReceipt, FilledReceipt, Drive;
    hide Tx.AfterDeliveries, BeforeTarget, AheadOf, TxState.HasRequired;
    var t := h.tx;
    if i >= |t.mem.plan.targets| {
      PastTargets(t, s, i);
      DriveClosing(h, calm);
    } else if t.mem.plan.targets[i].Key() in t.mem.deliveries {
      PassTarget(t, s, i);
      DriveTargets(h, calm, s, i + 1);
    } else {
      Unserved(t, s, i);
      if TrimSpace(t.mem.plan.targets[i].consumer) !in t.job.consumers {
        Stop(h.(tx := t.Halt(false)), calm);
      } else {
        var c := DeliverOne(h, calm, i);
        OneAhead(h, c, s, i);
        DriveTargets(c, calm, s, i + 1);
      }
    }
  }

  lemma Unserved(t: Tx, s: TxState, i: nat)
    requires AheadOf(s, t.mem, i) && i < |t.mem.plan.targets|
    requires t.mem.plan.targets[i].Key() !in t.mem.deliveries
    ensures t.mem.plan.targets[i].Key() !in s.deliveries
  {
    hide TrimSpace, Target.Key;
  }

  /** After the delivery of target `i`, the later targets stand as before. */
  lemma OneAhead(h: History, c: History, s: TxState, i: nat)
    requires BeforeTarget(h.tx, i) && AheadOf(s, h.tx.mem, i) && i < |h.tx.mem.plan.targets|
    requires c.tx.mem == h.tx.mem.(trace := c.tx.mem.trace, deliveries := c.tx.mem.deliveries)
    requires c.tx.mem.deliveries.Keys == h.tx.mem.deliveries.Keys + {h.tx.mem.plan.targets[i].Key()}
    ensures AheadOf(s, c.tx.mem, i + 1)
  {
    hide TrimSpace, Target.Key, Target.Valid, Inv, Sound;
  }

  /** The delivery of target `i`, once saved, leaves the run before the next target. */
  lemma StoredOne(t: Tx, i: nat, r: Reply)
    requires BeforeTarget(t, i) && i < |t.mem.plan.targets| && t.mem.plan.targets[i].Key() !in t.mem.deliveries
    requires r.verdict.Fine?
    ensures var u := t.(pc := Delivering(i)).Step(r).Saved(Fine);
      BeforeTarget(u, i + 1) && u.mem == t.(pc := Delivering(i)).Step(r).mem && u.job == t.job
  {
    hide TrimSpace, Target.Key, Target.Valid, TxState.ShouldDelete, WithReceipt, FilledReceipt, Tx.NextTarget;
    var a := t.(pc := Delivering(i));
    DeliveryStep(a, r);
    ReceiptAdds(t.mem, t.mem.plan.targets[i], r.receipt);
    ConsumeKeeps(a, r);
    SaveKeeps(a.Step(r), Fine);
  }

  /** One delivery and its save lead to the history `c`, at the next target. */
  lemma DeliverOne(h: History, calm: Calm, i: nat) returns (c: History)
    requires BeforeTarget(h.tx, i)
    requires i < |h.tx.mem.plan.targets| && h.tx.mem.plan.targets[i].Key() !in h.tx.mem.deliveries
    ensures BeforeTarget(c.tx, i + 1)
    ensures c.tx.job == h.tx.job && c.cuts == h.cuts
    ensures c.log == h.log + [Consumed(h.tx.mem.plan.targets[i].Key())]
    ensures c.tx.mem == h.tx.mem.(trace := c.tx.mem.trace, deliveries := c.tx.mem.deliveries)
    ensures c.tx.mem.deliveries.Keys == h.tx.mem.deliveries.Keys + {h.tx.mem.plan.targets[i].Key()}
    ensures var g := Drive(h.(tx := h.tx.(pc := Delivering(i))), calm);
      var e := Drive(c.(tx := c.tx.NextTarget(i + 1)), calm);
      g.tx == e.tx && (e.tx.pc == Halted(true) ==> g == e)
  {
    hide TrimSpace, Target.Key, WithReceipt, Tx.NextTarget, Tx.Step, Drive, BeforeTarget, Tx.Saved;
    var a := h.(tx := h.tx.(pc := Delivering(i)));
    var b := a.Step(calm.Answer(a.tx.pc));
    var d := b.Step(calm.Answer(b.tx.pc));
    Unfold(a, calm);
    DeliveryStep(a.tx, calm.Answer(a.tx.pc));
    Unfold(b, calm);
    ReceiptStep(b.tx, calm.Answer(b.tx.pc));
    ReceiptAdds(h.tx.mem, h.tx.mem.plan.targets[i], calm.receipts(i));
    c := b.(tx := b.tx.Saved(Fine));
    StoredOne(h.tx, i, calm.Answer(a.tx.pc));
    if d.tx.pc.Halted? {
      Stop(d, calm);
      Stop(c.(tx := c.tx.NextTarget(i + 1)), calm);
    } else {
      assert d == c.(tx := c.tx.NextTarget(i + 1));
    }
  }

  lemma DriveSkipping(h: History, calm: Calm)
    requires Inv(h.tx) && h.tx.pc.Processing? && calm.processing.Skip?
    ensures Ends(h, h.tx.Stored(), Drive(h, calm), [Processed, Skipped], true)
  {
    hide TrimSpace, Target.Key, Target.Valid, TxState.ShouldDelete, Tx.NextTarget, Tx.AfterDeliveries, Drive, Tx.ToAck;
    var a := h.Step(calm.Answer(h.tx.pc));
    var trace := calm.processing.trace;
    var u := h.tx.(mem := h.tx.mem.(
      trace := if trace.transactionKey != "" then trace else h.tx.job.envelope.trace, skipped := true));
    Unfold(h, calm);
    AckNeverFails(u);
    DriveAck(a.(tx := u), calm);
  }

  lemma DriveProcessing(h: History, calm: Calm)
    requires Inv(h.tx) && h.tx.pc.Processing?
    ensures var g, s := Drive(h, calm), h.tx.Stored();
      && (g.tx.pc == Halted(true) <==> Ready(s, h.tx.job, calm.processing))
      && (g.tx.pc == Halted(true) ==> Ends(h, s, g, Opening(s, calm.processing), calm.processing.Skip?))
  {
    hide TrimSpace, Target.Key, Target.Valid, TxState.ShouldDelete, Tx.NextTarget, Tx.AfterDeliveries, Drive;
    hide Configured, Missing, TxState.HasRequired;
    match calm.processing
    case Skip(_) => DriveSkipping(h, calm);
    case Produced(_, _, _) => DriveProducing(h, calm);
  }

  lemma DriveProducing(h: History, calm: Calm)
    requires Inv(h.tx) && h.tx.pc.Processing? && calm.processing.Produced?
    ensures var g, s, p := Drive(h, calm), h.tx.Stored(), calm.processing;
      && (g.tx.pc == Halted(true) <==> Usable(s, h.tx.job, p))
      && (g.tx.pc == Halted(true) ==> Ends(h, s, g, [Processed] + Missing(s, p.plan, 0), false))
  {
    hide TrimSpace, Target.Key, Target.Valid, TxState.ShouldDelete, Tx.NextTarget, Tx.AfterDeliveries, Drive;
    hide Configured, Missing;
    var s := h.tx.Stored();
    var trace, plan := calm.processing.trace, calm.processing.plan;
    var a := h.Step(calm.Answer(h.tx.pc));
    Unfold(h, calm);
    if a.tx.pc.Halted? && !a.tx.pc.ok {
      Stop(a, calm);
    }
    if GoodOutput(trace, plan, calm.processing.hasMime) && trace.transactionKey == h.tx.key {
      if |s.plan.targets| == 0 {
        ProcessingKeeps(h.tx, calm.processing);
        DriveFirstPlan(a, calm);
      } else if s.plan == plan {
        EnterDrive(h.(log := a.log), a, calm, s);
      }
    }
  }

  lemma DriveFirstPlan(a: History, calm: Calm)
    requires Inv(a.tx) && a.tx.pc.SavingPlan?
    ensures var g, s, plan := Drive(a, calm), a.tx.Stored(), a.tx.mem.plan;
      && (g.tx.pc == Halted(true) <==>
            a.tx.job.envelope.AllowsDelete(plan.deleteSource) && Configured(s, plan, a.tx.job, 0))
      && (g.tx.pc == Halted(true) ==> Ends(a, s, g, Missing(s, plan, 0), false))
  {
    hide TrimSpace, Target.Key, Target.Valid, TxState.ShouldDelete, Tx.NextTarget, Tx.AfterDeliveries, Drive;
    hide Configured, Missing, TxState.HasRequired;
    Unfold(a, calm);
    EnterDrive(a.(tx := a.tx.Saved(Fine)), a.Step(calm.Answer(a.tx.pc)), calm, a.tx.Stored());
  }

  /** From a saved plan into the deliveries; `next` is `h` after that move. */
  lemma EnterDrive(h: History, next: History, calm: Calm, s: TxState)
    requires Inv(h.tx.(pc := Loading)) && Sound(h.tx.mem) && Synced(h.tx)
    requires h.tx.mem.plan.Valid() && !h.tx.mem.completed
    requires next.tx == h.tx.EnterDeliveries() && next.log == h.log
    requires next.cuts == h.cuts || next.tx.pc == Halted(false)
    requires s.sourceDeleted == h.tx.mem.sourceDeleted && s.sourceAcked == h.tx.mem.sourceAcked
    requires s.deliveries == h.tx.mem.deliveries
    ensures var g, plan := Drive(next, calm), h.tx.mem.plan;
      && (g.tx.pc == Halted(true) <==>
            h.tx.job.envelope.AllowsDelete(plan.deleteSource) && Configured(s, plan, h.tx.job, 0))
      && (g.tx.pc == Halted(true) ==> Ends(h, s, g, Missing(s, plan, 0), false))
  {
    hide TrimSpace, Target.Key, Target.Valid, TxState.ShouldDelete, Tx.NextTarget, Tx.AfterDeliveries, Drive;
    hide Configured, Missing;
    if h.tx.job.envelope.AllowsDelete(h.tx.mem.plan.deleteSource) {
      DriveTargets(h, calm, s, 0);
      if next.tx.pc == Halted(false) {
        Stop(next, calm);
        Stop(h.(tx := h.tx.NextTarget(0)), calm);
      } else {
        assert next == h.(tx := h.tx.NextTarget(0));
      }
    } else {
      Stop(next, calm);
    }
  }

  /** A run on this record asks the processor, and the processor skips the mail. */
  predicate Skips(s: TxState, p: Transaction.Processing) {
    !s.Committed() && p.Skip?
  }

  /** The effects of a good run on the record `s`, up to its closing. */
  function Opening(s: TxState, p: Transaction.Processing): seq<Effect> {
    if s.completed || s.Committed() then []
    else
      match p
      case Skip(_) => [Processed, Skipped]
      case Produced(_, plan, _) => [Processed] + Missing(s, plan, 0)
  }

  /** From every reachable store, a run without faults ends well if and only if its caller is ready;
      it then leaves the transaction completed, having called exactly the consumers whose receipts
      were missing, in plan order, each once (none if the processor skips the mail), having deleted the
      source if and only if no deletion is on record, the policy asks for it and the processor has not
      skipped the mail, and having acknowledged it if and only if no acknowledgement is on record. */
  lemma RecoveryConverges(key: string, events: seq<Event>, job: Job, calm: Calm)
    requires Life(NewHistory(key), events).tx.pc.Halted?
    requires TrimSpace(job.envelope.trace.transactionKey) == key && job.envelope.Valid()
    ensures var h := Life(NewHistory(key), events);
      var s := h.tx.Stored();
      var g := Drive(h.Begin(job), calm);
      && (g.tx.pc == Halted(true) <==> Ready(s, job, calm.processing))
      && (g.tx.pc == Halted(true) ==> g.tx.disk.Some? && g.tx.disk.value.completed)
      && (g.tx.pc == Halted(true) && s.completed ==> g.tx.disk == h.tx.disk && g.log == h.log)
      && (g.tx.pc == Halted(true) && !s.completed ==>
            var after, skips := g.tx.disk.value, Skips(s, calm.processing);
            && g.log == h.log + Opening(s, calm.processing) + Closing(s, after, job, skips)
            && (after.sourceDeleted <==> s.sourceDeleted || (!skips && after.ShouldDelete())))
  {
    hide TrimSpace, Target.Key, Plan.Valid, TxState.ShouldDelete, Tx.NextTarget, Tx.AfterDeliveries, Drive;
    hide Missing, Configured;
    var h := Life(NewHistory(key), events);
    LifeKeeps(key, events);
    LifeKey(NewHistory(key), events);
    BeginKeeps(h.tx, job);
    var a := h.Begin(job);
    var b := a.Step(calm.Answer(Loading));
    var s := h.tx.Stored();
    StepKeeps(a.tx, calm.Answer(Loading));
    Unfold(a, calm);
    if s.completed {
      if b.tx.pc.Halted? {
        Stop(b, calm);
      } else {
        Unfold(b, calm);
        Stop(b.Step(calm.Answer(b.tx.pc)), calm);
      }
    } else if s.Committed() {
      CommittedDrive(a, b, calm);
    } else {
      DriveProcessing(b, calm);
    }
  }

  lemma CommittedDrive(h: History, next: History, calm: Calm)
    requires h.tx.pc.Loading? && Inv(h.tx)
    requires h.tx.Stored().Committed() && !h.tx.Stored().completed
    requires next == h.Step(calm.Answer(Loading))
    ensures var g, s := Drive(next, calm), h.tx.Stored();
      && (g.tx.pc == Halted(true) <==> h.tx.job.envelope.AllowsDelete(s.plan.deleteSource))
      && (g.tx.pc == Halted(true) ==> Ends(h, s, g, [], false))
  {
    hide TrimSpace, Target.Key, Plan.Valid, TxState.ShouldDelete, Tx.NextTarget, Tx.AfterDeliveries, Drive;
    var b := h.(tx := h.tx.(mem := h.tx.Stored()));
    DriveClosing(b, calm);
    if next.tx.pc.Halted? {
      Stop(next, calm);
      Stop(b.(tx := b.tx.AfterDeliveries()), calm);
    } else {
      assert next == b.(tx := b.tx.AfterDeliveries());
    }
  }

  lemma {:induction false} OpeningHasNoAck(s: TxState, plan: Plan, i: nat)
    ensures Acked !in Missing(s, plan, i)
    decreases |plan.targets| - i
  {
    hide Target.Key;
    if i < |plan.targets| {
      OpeningHasNoAck(s, plan, i + 1);
    }
  }

  /** A good run acknowledges its source if and only if no earlier run has recorded that it did. */
  lemma CalmRunAcks(key: string, h: History, job: Job, calm: Calm)
    requires IsLife(key, h) && h.tx.pc.Halted?
    requires TrimSpace(job.envelope.trace.transactionKey) == key && job.envelope.Valid()
    requires job.envelope.source.Source? && Ready(h.tx.Stored(), job, calm.processing)
    ensures var b := h.Begin(job);
      var g := Drive(b, calm);
      && !b.tx.pc.Halted? && b.log == h.log && g.tx.pc == Halted(true) && g.tx.Stored().completed
      && |h.log| <= |g.log| && (Acked in g.log[|h.log|..] <==> !h.tx.Stored().sourceAcked)
  {
    hide TrimSpace, Target.Key, Target.Valid, Tx.Step, Drive, Ready, Missing, IsLife, TxState.HasRequired;
    var events := EventsOf(key, h);
    RecoveryConverges(key, events, job, calm);
    LifeFacts(key, h);
    var g := Drive(h.Begin(job), calm);
    if calm.processing.Produced? {
      OpeningHasNoAck(h.tx.Stored(), calm.processing.plan, 0);
    }
    AcksInLog(h, g, calm.processing, job);
  }

  lemma AcksInLog(h: History, g: History, p: Transaction.Processing, job: Job)
    requires job.envelope.source.Source? && g.tx.disk.Some?
    requires h.tx.Stored().completed ==> g.log == h.log && h.tx.Stored().sourceAcked
    requires !h.tx.Stored().completed ==>
      var s := h.tx.Stored(); g.log == h.log + Opening(s, p) + Closing(s, g.tx.disk.value, job, Skips(s, p))
    requires p.Produced? ==> Acked !in Missing(h.tx.Stored(), p.plan, 0)
    ensures |h.log| <= |g.log| && (Acked in g.log[|h.log|..] <==> !h.tx.Stored().sourceAcked)
  {
    hide TrimSpace, Target.Key, Missing, TxState.HasRequired;
    var s := h.tx.Stored();
    if !s.completed {
      assert g.log[|h.log|..] == Opening(s, p) + Closing(s, g.tx.disk.value, job, Skips(s, p));
    }
  }
}
