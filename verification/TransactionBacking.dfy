/** When a recorded acknowledgement has receipts or a skip behind it, and when it does not. */
module TransactionBacking {
  import opened Text
  import opened Mailflow
  import opened Transaction
  import opened TransactionInvariant
  import opened TransactionEffects
  import opened Recovery

  /** An acknowledged record says why: the mail was skipped, or all its required receipts are there. */
  predicate Backed(s: TxState) {
    s.sourceAcked ==> s.skipped || s.Committed()
  }

  /** A run touches the skip mark only on its way to a plan or to an acknowledgement. */
  ghost predicate MarkInv(t: Tx) {
    && Inv(t)
    && (t.pc.SavingPlan? ==> !t.mem.skipped)
    && (t.pc.SavingReceipt? || t.pc.SavingDeleted? ==> t.mem.skipped == t.Stored().skipped)
  }

  /** The one call that can take the backing away: a first plan is saved over an acknowledged record. */
  predicate Unbacks(t: Tx, r: Reply) {
    t.pc.SavingPlan? && r.verdict.Landed() && t.Stored().sourceAcked
  }

  lemma {:induction false} NextTargetMarks(t: Tx, i: nat)
    ensures var u := t.NextTarget(i); !u.pc.SavingPlan? && !u.pc.SavingReceipt? && !u.pc.SavingDeleted?
    decreases |t.mem.plan.targets| - i
  {
    hide TrimSpace, Target.Key, TxState.HasRequired, TxState.ShouldDelete;
    if i < |t.mem.plan.targets| {
      NextTargetMarks(t, i + 1);
    }
  }

  lemma MarkStep(t: Tx, r: Reply)
    requires MarkInv(t)
    ensures MarkInv(t.Step(r))
  {
    hide TrimSpace, Target.Key, Plan.Valid, TxState.HasRequired, TxState.ShouldDelete, FilledReceipt, WithReceipt;
    hide Tx.NextTarget, Sound, Extends;
    StepKeeps(t, r);
    NextTargetMarks(t, 0);
    match t.pc
    case Delivering(i) =>
      NextTargetMarks(t, i + 1);
      if i < |t.mem.plan.targets| {
        ReceiptAdds(t.mem, t.mem.plan.targets[i], r.receipt);
      }
    case SavingPlan => NextTargetMarks(t.Saved(r.verdict), 0);
    case SavingReceipt(i) => NextTargetMarks(t.Saved(r.verdict), i + 1);
    case _ =>
  }

  /** A first plan has a required target and no receipt yet. */
  lemma FirstPlanLacksReceipts(t: Tx)
    requires Inv(t) && t.pc.SavingPlan?
    ensures |t.mem.plan.targets| > 0 && !t.mem.HasRequired() && t.mem.sourceAcked == t.Stored().sourceAcked
  {
    hide TrimSpace, Target.Key, Target.Valid;
    var x :| x in t.mem.plan.targets && x.required;
    var i :| 0 <= i < |t.mem.plan.targets| && t.mem.plan.targets[i] == x;
    assert t.mem.deliveries.Keys <= t.Stored().plan.Keys() == {};
    assert t.mem.plan.targets[i].Key() !in t.mem.deliveries;
  }

  /** More receipts on the same plan leave it committed. */
  lemma CommittedStays(a: TxState, b: TxState)
    requires a.Committed() && b.plan == a.plan && a.deliveries.Keys <= b.deliveries.Keys
    ensures b.Committed()
  {
    hide TrimSpace, Target.Key;
  }

  /** A call takes the backing of a record away if and only if it saves a first plan over an
      acknowledgement. */
  lemma WhenACallUnbacks(t: Tx, r: Reply)
    requires MarkInv(t) && Backed(t.Stored())
    ensures Backed(t.Step(r).Stored()) <==> !Unbacks(t, r)
  {
    hide TrimSpace, Target.Key, Plan.Valid, TxState.HasRequired, TxState.ShouldDelete, Tx.Proceed, Tx.NextTarget;
    hide Sound, Extends, RequiredUpTo;
    if t.Saving() && r.verdict.Landed() {
      var s := t.Stored();
      assert t.Step(r).Stored() == t.mem by { SavedStepKeeps(t, r); }
      if t.pc.SavingPlan? {
        FirstPlanLacksReceipts(t);
      } else if (t.pc.SavingReceipt? || t.pc.SavingDeleted?) && s.Committed() {
        GrownRecord(t);
        CommittedStays(s, t.mem);
      }
    } else {
      assert t.Step(r).disk == t.disk by { NoSaveNoChange(t, r); }
    }
  }

  lemma GrownRecord(t: Tx)
    requires Inv(t) && t.Saving()
    ensures Extends(t.Stored(), t.mem)
    ensures t.Stored().Committed() ==> t.mem.plan == t.Stored().plan
    ensures t.Stored().deliveries.Keys <= t.mem.deliveries.Keys
  {
    hide TrimSpace, Target.Key, Plan.Valid, TxState.HasRequired, Sound;
  }

  lemma NoSaveNoChange(t: Tx, r: Reply)
    requires !t.Saving() || !r.verdict.Landed()
    ensures t.Step(r).disk == t.disk
  {
    hide TrimSpace, Target.Key, Tx.NextTarget, WithReceipt, TxState.HasRequired, TxState.ShouldDelete;
  }

  lemma {:induction false} LifeMarks(key: string, events: seq<Event>)
    ensures MarkInv(Life(NewHistory(key), events).tx)
  {
    hide TrimSpace, Tx.Step, Inv;
    if events != [] {
      var m := Life(NewHistory(key), events[..|events| - 1]).tx;
      LifeMarks(key, events[..|events| - 1]);
      match events[|events| - 1]
      case Start(job) => BeginKeeps(m, job);
      case Answer(r) => MarkStep(m, r);
    } else {
      LifeKeeps(key, events);
    }
  }

  // ---- whole runs ----

  /** A run under the given answers; once it has ended, further answers change nothing. */
  function Answered(t: Tx, replies: seq<Reply>): Tx {
    if replies == [] then t else Answered(t, replies[..|replies| - 1]).Step(replies[|replies| - 1])
  }

  /** The processor has produced a plan that fits the mail. */
  predicate PlanComes(r: Reply, key: string) {
    && r.verdict.Fine? && r.processing.Produced?
    && GoodOutput(r.processing.trace, r.processing.plan, r.processing.hasMime)
    && r.processing.trace.transactionKey == key
  }

  /** The record is acknowledged, without a plan, and not completed: a caller can look it up. */
  predicate Exposed(s: TxState) {
    s.sourceAcked && |s.plan.targets| == 0 && !s.completed
  }

  /** These answers lead a run on such a record past the save of a first plan. */
  predicate SavesPlan(key: string, replies: seq<Reply>) {
    && |replies| >= 3 && replies[0].verdict.Fine? && PlanComes(replies[1], key) && replies[2].verdict.Landed()
  }

  /** A run comes to its first plan, if at all, before its third answer. */
  lemma {:induction false} EarlyStages(b: Tx, replies: seq<Reply>)
    requires b.pc.Loading?
    ensures Stage(Answered(b, replies)) <= if |replies| < 3 then 9 - |replies| else 6
  {
    hide TrimSpace, Target.Key, Tx.Step;
    if replies != [] {
      var t := Answered(b, replies[..|replies| - 1]);
      EarlyStages(b, replies[..|replies| - 1]);
      if !t.pc.Halted? {
        Progress(t, replies[|replies| - 1]);
      } else {
        HaltedStays(t, replies[|replies| - 1]);
      }
    }
  }

  lemma HaltedStays(t: Tx, r: Reply)
    requires t.pc.Halted?
    ensures t.Step(r) == t
  {
    hide TrimSpace, Target.Key;
  }

  lemma LoadLeads(b: Tx, r: Reply)
    requires Inv(b) && b.pc.Loading?
    ensures var u := b.Step(r);
      && u.disk == b.disk && u.key == b.key && u.job == b.job && !u.pc.SavingPlan?
      && (u.pc.Processing? <==> r.verdict.Fine? && !b.Stored().completed && !b.Stored().Committed())
      && (u.pc.Processing? ==> u.mem == b.Stored())
  {
    hide TrimSpace, Target.Key, Plan.Valid, TxState.HasRequired, TxState.ShouldDelete, Tx.AfterDeliveries;
    AfterDeliveriesLands(b.(mem := b.Stored()));
  }

  lemma ProcessLeads(u: Tx, r: Reply)
    requires Stage(u) <= 8
    ensures u.Step(r).pc.SavingPlan? <==> u.pc.Processing? && |u.mem.plan.targets| == 0 && PlanComes(r, u.key)
    ensures u.pc.Processing? ==> u.Step(r).disk == u.disk
  {
    hide TrimSpace, Target.Key, Plan.Valid, TxState.HasRequired, TxState.ShouldDelete, WithReceipt, Tx.NextTarget;
    NextTargetMarks(u, 0);
    if u.pc.SavingPlan? {
      NextTargetMarks(u.Saved(r.verdict), 0);
    } else if u.pc.Delivering? {
      NextTargetMarks(u, u.pc.i + 1);
    } else if u.pc.SavingReceipt? {
      NextTargetMarks(u.Saved(r.verdict), u.pc.i + 1);
    }
  }

  /** A run stands before the save of a first plan exactly when two answers have led it there. */
  lemma AtFirstPlan(b: Tx, replies: seq<Reply>)
    requires Inv(b) && b.pc.Loading?
    ensures var t, s := Answered(b, replies), b.Stored();
      && (t.pc.SavingPlan? <==>
            |replies| == 2 && replies[0].verdict.Fine? && PlanComes(replies[1], b.key)
            && !s.completed && |s.plan.targets| == 0)
      && (t.pc.SavingPlan? ==> t.disk == b.disk)
  {
    hide TrimSpace, Target.Key, Tx.Step, Inv, PlanComes, TxState.HasRequired;
    EarlyStages(b, replies);
    if 1 <= |replies| <= 2 {
      var u := b.Step(replies[0]);
      assert Answered(b, replies[..1]) == u by { assert replies[..1][..0] == []; }
      LoadLeads(b, replies[0]);
      if |replies| == 1 {
        assert replies[..1] == replies;
      } else {
        EarlyStages(b, replies[..1]);
        ProcessLeads(u, replies[1]);
      }
    }
  }

  lemma {:induction false} RunMarks(b: Tx, replies: seq<Reply>)
    requires MarkInv(b)
    ensures MarkInv(Answered(b, replies))
  {
    hide TrimSpace, Tx.Step, MarkInv;
    if replies != [] {
      RunMarks(b, replies[..|replies| - 1]);
      MarkStep(Answered(b, replies[..|replies| - 1]), replies[|replies| - 1]);
    }
  }

  /** The record has its backing after each of the answers so far. */
  ghost predicate BackedThroughout(b: Tx, replies: seq<Reply>) {
    forall n: nat | n <= |replies| :: Backed(Answered(b, replies[..n]).Stored())
  }

  lemma {:induction false} RunBacking(b: Tx, replies: seq<Reply>)
    requires MarkInv(b) && b.pc.Loading? && Backed(b.Stored())
    ensures BackedThroughout(b, replies) <==> !(Exposed(b.Stored()) && SavesPlan(b.key, replies))
  {
    hide TrimSpace, Tx.Step, MarkInv, PlanComes, Backed;
    if replies != [] {
      var init, r := replies[..|replies| - 1], replies[|replies| - 1];
      var t := Answered(b, init);
      RunBacking(b, init);
      RunMarks(b, init);
      assert Inv(b) by { assert MarkInv(b); MarkIsInv(b); }
      AtFirstPlan(b, init);
      assert forall n: nat | n <= |init| :: replies[..n] == init[..n];
      assert replies[..|replies|] == replies && init[..|init|] == init;
      if BackedThroughout(b, init) {
        WhenACallUnbacks(t, r);
      }
    } else {
      assert Answered(b, replies[..0]) == b;
    }
  }

  lemma MarkIsInv(t: Tx)
    requires MarkInv(t)
    ensures Inv(t)
  {
    hide Inv;
  }

  /** A run on a backed record takes the backing away at some moment if and only if the record is
      exposed (acknowledged, without a plan, not completed), the processor produces a plan, and the
      save of that plan lands. A run that ends well always ends backed. */
  lemma WhenARunUnbacks(key: string, events: seq<Event>, job: Job, replies: seq<Reply>)
    requires var t := Life(NewHistory(key), events).tx; t.pc.Halted? && Backed(t.Stored())
    requires TrimSpace(job.envelope.trace.transactionKey) == key && job.envelope.Valid()
    ensures var t := Life(NewHistory(key), events).tx;
      var b := t.Begin(job);
      && (BackedThroughout(b, replies) <==> !(Exposed(t.Stored()) && SavesPlan(key, replies)))
      && (Answered(b, replies).pc == Halted(true) ==> Backed(Answered(b, replies).Stored()))
  {
    hide TrimSpace, Tx.Step, Life, SavesPlan, BackedThroughout, Inv;
    var t := Life(NewHistory(key), events).tx;
    LifeMarks(key, events);
    LifeKey(NewHistory(key), events);
    var b := t.Begin(job);
    assert MarkInv(b) by { BeginMarks(t, job); }
    RunBacking(b, replies);
    RunMarks(b, replies);
    if Answered(b, replies).pc == Halted(true) {
      GoodEndIsBacked(Answered(b, replies));
    }
  }

  lemma BeginMarks(t: Tx, job: Job)
    requires MarkInv(t)
    ensures MarkInv(t.Begin(job))
  {
    hide TrimSpace, Inv;
    BeginKeeps(t, job);
  }

  lemma GoodEndIsBacked(t: Tx)
    requires MarkInv(t) && t.pc == Halted(true)
    ensures Backed(t.Stored())
  {
    hide TrimSpace, Target.Key, Plan.Valid;
  }

  // ---- a life that loses the backing ----

  lemma LifeSnoc(h: History, events: seq<Event>, e: Event)
    ensures Life(h, events + [e]) == Apply(Life(h, events), e)
  {
    hide Tx.Step, Tx.Begin, Tx.Emits;
    assert (events + [e])[..|events|] == events;
  }

  function Told(v: Verdict, p: Transaction.Processing): Event {
    Answer(Reply(v, p, Receipt("", "", "", EmptyStore())))
  }

  lemma LifeAnswers(h: History, events: seq<Event>, v: Verdict, p: Transaction.Processing)
    ensures Life(h, events + [Told(v, p)]).tx
      == Life(h, events).tx.Step(Reply(v, p, Receipt("", "", "", EmptyStore())))
  {
    hide Tx.Step, Tx.Begin, Tx.Emits, Life;
    LifeSnoc(h, events, Told(v, p));
  }

  // The calls of a first run whose processor skips the mail.

  lemma LoadsNothing(t: Tx, r: Reply)
    requires t.pc.Loading? && t.disk.None? && r.verdict.Fine?
    ensures t.Step(r) == t.(mem := FreshState(t.key), pc := Processing)
  {
    hide TrimSpace, Target.Key, TxState.ShouldDelete, Tx.NextTarget, Tx.AfterDeliveries;
  }

  lemma SkipsToAck(t: Tx, r: Reply)
    requires t.pc.Processing? && r.verdict.Fine? && r.processing.Skip?
    requires !t.mem.sourceAcked && t.job.envelope.source.Source?
    ensures var u := t.Step(r); u == t.(mem := t.mem.(trace := u.mem.trace, skipped := true), pc := Acking)
  {
    hide TrimSpace, Target.Key, TxState.ShouldDelete, Tx.NextTarget, Tx.AfterDeliveries;
  }

  lemma AcksAndSaves(t: Tx, r: Reply)
    requires t.pc.Acking? && r.verdict.Fine?
    ensures var u := t.(mem := t.mem.(sourceAcked := true));
      && t.Step(r) == u.(pc := SavingAcked)
      && t.Step(r).Step(r) == u.(disk := Some(u.mem), mem := u.mem.(completed := true), pc := SavingCompleted)
  {
    hide TrimSpace, Target.Key, TxState.ShouldDelete, Tx.NextTarget, Tx.AfterDeliveries;
  }

  lemma DiesUnsaved(t: Tx, r: Reply)
    requires t.Saving() && r.verdict == Killed(false)
    ensures t.Step(r) == t.Halt(false)
  {
    hide TrimSpace, Target.Key, TxState.ShouldDelete, Tx.NextTarget, Tx.AfterDeliveries;
  }

  /** A run that skips the mail and dies before it can save its completion. */
  lemma SkippedAndCut(key: string, job: Job, skip: Transaction.Processing) returns (events: seq<Event>)
    requires TrimSpace(job.envelope.trace.transactionKey) == key && job.envelope.Valid()
    requires job.envelope.source.Source? && skip.Skip?
    ensures var t := Life(NewHistory(key), events).tx;
      && t.key == key && t.pc.Halted? && t.disk.Some?
      && t.disk.value.plan == NoPlan() && t.disk.value.deliveries == map[]
      && t.disk.value.sourceAcked && !t.disk.value.completed
  {
    hide TrimSpace, Tx.Step, Tx.Begin, Tx.Emits, Life;
    var h := NewHistory(key);
    var r := Reply(Fine, skip, Receipt("", "", "", EmptyStore()));
    var e1 := [] + [Start(job)];
    var e2 := e1 + [Told(Fine, skip)];
    var e3 := e2 + [Told(Fine, skip)];
    var e4 := e3 + [Told(Fine, skip)];
    var e5 := e4 + [Told(Fine, skip)];
    events := e5 + [Told(Killed(false), skip)];
    NoEvents(h);
    LifeSnoc(h, [], Start(job));
    var t := Life(h, e1).tx;
    assert t == h.tx.(job := job, pc := Loading) by { Begins(h.tx, job); }
    LifeAnswers(h, e1, Fine, skip);
    LoadsNothing(t, r);
    LifeAnswers(h, e2, Fine, skip);
    SkipsToAck(t.Step(r), r);
    LifeAnswers(h, e3, Fine, skip);
    LifeAnswers(h, e4, Fine, skip);
    AcksAndSaves(t.Step(r).Step(r), r);
    LifeAnswers(h, e5, Killed(false), skip);
    DiesUnsaved(Life(h, e5).tx, r.(verdict := Killed(false)));
  }

  lemma Begins(t: Tx, job: Job)
    requires t.pc.Halted? && job.envelope.Valid() && TrimSpace(job.envelope.trace.transactionKey) == t.key
    ensures t.Begin(job) == t.(job := job, pc := Loading)
  {
    hide TrimSpace, Envelope.Valid;
  }

  lemma NoEvents(h: History)
    ensures Life(h, []) == h
  {
  }

  /** A skip that was cut can be followed by a run that does not skip: the record then says that the
      source is acknowledged while required receipts of its plan are missing. */
  lemma AcknowledgedBeforeDelivery(key: string, job: Job, skip: Transaction.Processing, out: Transaction.Processing)
    returns (events: seq<Event>)
    requires TrimSpace(job.envelope.trace.transactionKey) == key && job.envelope.Valid()
    requires job.envelope.source.Source? && skip.Skip?
    requires out.Produced? && GoodOutput(out.trace, out.plan, out.hasMime) && out.trace.transactionKey == key
    ensures var s := Life(NewHistory(key), events).tx.Stored();
      s.sourceAcked && |s.plan.targets| > 0 && !s.HasRequired() && !Backed(s)
  {
    hide TrimSpace, Tx.Step, Tx.Begin, Tx.Emits, Life, GoodOutput;
    var h := NewHistory(key);
    var r := Reply(Fine, out, Receipt("", "", "", EmptyStore()));
    var e0 := SkippedAndCut(key, job, skip);
    var e1 := e0 + [Start(job)];
    var e2 := e1 + [Told(Fine, out)];
    var e3 := e2 + [Told(Fine, out)];
    events := e3 + [Told(Killed(true), out)];
    LifeSnoc(h, e0, Start(job));
    var t := Life(h, e1).tx;
    Begins(Life(h, e0).tx, job);
    LifeAnswers(h, e1, Fine, out);
    LoadsNoPlan(t, r);
    LifeAnswers(h, e2, Fine, out);
    LifeAnswers(h, e3, Killed(true), out);
    PlanIsSaved(t.Step(r), r, r.(verdict := Killed(true)));
    PlanLacksReceipts(out);
  }

  lemma LoadsNoPlan(t: Tx, r: Reply)
    requires t.pc.Loading? && r.verdict.Fine? && !t.Stored().completed && |t.Stored().plan.targets| == 0
    ensures t.Step(r) == t.(mem := t.Stored(), pc := Processing)
  {
    hide TrimSpace, Target.Key, TxState.ShouldDelete, Tx.NextTarget, Tx.AfterDeliveries;
  }

  lemma PlanIsSaved(t: Tx, r: Reply, death: Reply)
    requires t.pc.Processing? && |t.mem.plan.targets| == 0 && death.verdict == Killed(true)
    requires r.verdict.Fine? && r.processing.Produced? && r.processing.trace.transactionKey == t.key
    requires GoodOutput(r.processing.trace, r.processing.plan, r.processing.hasMime)
    ensures var u := t.mem.(trace := r.processing.trace, skipped := false, plan := r.processing.plan);
      t.Step(r).Step(death).disk == Some(u)
  {
    hide TrimSpace, Target.Key, Plan.Valid, TxState.ShouldDelete, Tx.NextTarget, Tx.AfterDeliveries;
  }

  lemma PlanLacksReceipts(out: Transaction.Processing)
    requires out.Produced? && GoodOutput(out.trace, out.plan, out.hasMime)
    ensures |out.plan.targets| > 0
    ensures forall s: TxState | s.plan == out.plan && s.deliveries == map[] :: !s.HasRequired()
  {
    hide TrimSpace, Target.Key, Target.Valid;
    var t :| t in out.plan.targets && t.required;
    var i :| 0 <= i < |out.plan.targets| && out.plan.targets[i] == t;
    assert out.plan.targets[i].required;
  }
}
