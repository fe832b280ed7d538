/** The rules a transaction follows, in the terms of mails, receipts and stores: what a delivery leaves on
    record, when the source is deleted, what stops a run and what does not. */
module TransactionRules {
  import opened Text
  import opened Mailflow
  import opened Transaction
  import opened TransactionInvariant
  import opened TransactionEffects
  import opened Recovery

  // ---- what goes on record ----

  /** The same text, but for the case of ASCII letters. */
  predicate SameLetters(a: string, b: string) {
    |a| == |b| && forall i | 0 <= i < |a| :: SameLetter(a[i], b[i])
  }

  /** A successful delivery puts one receipt on record, under the key of its target: the consumer's own,
      except that a blank target is that key and a blank consumer the target's. If it comes from a backup
      store and has an id, the trace keeps that id as the backup path. Nothing else changes. */
  lemma WhatADeliveryRecords(t: Tx, r: Reply)
    requires t.pc.Delivering? && t.pc.i < |t.mem.plan.targets| && r.verdict.Fine?
    ensures var target, given, m := t.mem.plan.targets[t.pc.i], r.receipt, t.Step(r).mem;
      var key := target.Key();
      && t.Step(r).pc == SavingReceipt(t.pc.i) && t.Step(r).disk == t.disk
      && m.deliveries.Keys == t.mem.deliveries.Keys + {key}
      && (forall k | k in t.mem.deliveries && k != key :: m.deliveries[k] == t.mem.deliveries[k])
      && m.deliveries[key].id == given.id && m.deliveries[key].store == given.store
      && m.deliveries[key].target == (if TrimSpace(given.target) != "" then given.target else key)
      && m.deliveries[key].consumer == (if TrimSpace(given.consumer) != "" then given.consumer else target.consumer)
    ensures var given, m := r.receipt, t.Step(r).mem;
      m == t.mem.(deliveries := m.deliveries, trace := t.mem.trace.(attributes := m.trace.attributes))
      && m.trace.attributes ==
           if SameLetters(TrimSpace(given.store.driver), "backup") && TrimSpace(given.id) != ""
           then t.mem.trace.attributes["backup_path" := TrimSpace(given.id)] else t.mem.trace.attributes
  {
    hide TrimSpace, Target.Key, Tx.NextTarget;
    EqualFoldMeans(TrimSpace(r.receipt.store.driver), "backup");
    DeliveryStep(t, r);
  }

  lemma {:induction false} SkipsKeepAttributes(t: Tx, i: nat)
    ensures t.NextTarget(i).mem.trace == t.mem.trace
    ensures t.NextTarget(i).pc.Processing? == false
    decreases |t.mem.plan.targets| - i
  {
    hide TrimSpace, Target.Key, TxState.HasRequired, TxState.ShouldDelete;
    if i < |t.mem.plan.targets| {
      SkipsKeepAttributes(t, i + 1);
    }
  }

  /** Where the trace on record comes from: a first plan brings the trace that the processor answered with
      it, a skip the one that the processor gave, or the envelope's if that one names no transaction. No
      other call touches it, except for the backup path. */
  lemma WhereTheTraceComesFrom(t: Tx, r: Reply)
    requires !t.pc.Halted? && !t.pc.Loading?
    ensures t.pc.Processing? && r.verdict.Fine? && r.processing.Skip? ==>
      t.Step(r).mem.trace ==
        if r.processing.trace.transactionKey != "" then r.processing.trace else t.job.envelope.trace
    ensures t.Step(r).pc.SavingPlan? ==>
      r.processing.Produced? && t.Step(r).mem.trace == r.processing.trace && t.Step(r).mem.plan == r.processing.plan
    ensures !t.Step(r).pc.SavingPlan? && !(t.pc.Processing? && r.verdict.Fine? && r.processing.Skip?) ==>
      var m := t.Step(r).mem; m.trace == t.mem.trace.(attributes := m.trace.attributes)
  {
    hide TrimSpace, Target.Key, Plan.Valid, TxState.HasRequired, TxState.ShouldDelete, Tx.NextTarget;
    SkipsKeepAttributes(t, 0);
    NextTargetLands(t, 0);
    match t.pc
    case SavingPlan =>
      SkipsKeepAttributes(t.Saved(r.verdict), 0);
      NextTargetLands(t.Saved(r.verdict), 0);
    case Delivering(i) =>
      SkipsKeepAttributes(t, i + 1);
      NextTargetLands(t, i + 1);
    case SavingReceipt(i) =>
      SkipsKeepAttributes(t.Saved(r.verdict), i + 1);
      NextTargetLands(t.Saved(r.verdict), i + 1);
    case _ =>
  }

  // ---- what the processor may answer ----

  /** The first plan of a transaction is taken if and only if it comes with a MIME body and the key of the
      transaction, some target is required, all targets name a consumer, and no two have the same key. */
  lemma WhenAFirstPlanIsTaken(t: Tx, r: Reply)
    requires t.pc.Processing? && r.verdict.Fine? && r.processing.Produced?
    requires |t.mem.plan.targets| == 0 && TrimSpace(t.key) != ""
    ensures var out := r.processing;
      var targets := out.plan.targets;
      t.Step(r).pc.SavingPlan? <==>
        && out.hasMime && out.trace.transactionKey == t.key
        && |targets| > 0 && (exists i | 0 <= i < |targets| :: targets[i].required)
        && (forall i | 0 <= i < |targets| :: TrimSpace(targets[i].consumer) != "")
        && forall i, j | 0 <= i < j < |targets| :: targets[i].Key() != targets[j].Key()
    ensures t.Step(r).pc.SavingPlan? || t.Step(r).pc == Halted(false)
  {
    hide TrimSpace, Target.Key, Plan.Valid, Tx.NextTarget;
    ValidMeans(r.processing.plan);
  }

  /** A run is refused before its first call if and only if its mail has no MIME body or no key. */
  lemma WhenARunIsRefused(t: Tx, job: Job)
    requires t.pc.Halted? && TrimSpace(job.envelope.trace.transactionKey) == t.key
    ensures t.Begin(job).pc == Loading <==> job.envelope.hasMime && t.key != ""
    ensures t.Begin(job).pc == Loading || t.Begin(job).pc == Halted(false)
  {
    hide TrimSpace;
  }

  // ---- what stops the deliveries ----

  /** The first target from `i` on that has no receipt has no consumer either. */
  ghost predicate Unserved(t: Tx, i: nat) {
    var targets := t.mem.plan.targets;
    exists j | i <= j < |targets| ::
      && targets[j].Key() !in t.mem.deliveries && TrimSpace(targets[j].consumer) !in t.job.consumers
      && forall k | i <= k < j :: targets[k].Key() in t.mem.deliveries
  }

  /** The source can be deleted for good, if the plan wants that at all. */
  predicate DeletionPossible(t: Tx) {
    t.mem.plan.deleteSource.enabled ==>
      t.job.envelope.source.Source? && t.job.envelope.source.deletable && t.job.envelope.semantics == Hard
  }

  lemma {:induction false} WhatStopsTheLoop(t: Tx, i: nat)
    requires DeletionPossible(t)
    ensures t.NextTarget(i).pc == Halted(false) <==> Unserved(t, i)
    decreases |t.mem.plan.targets| - i
  {
    hide TrimSpace, Target.Key, TxState.HasRequired, TxState.ShouldDelete;
    var targets := t.mem.plan.targets;
    if i < |targets| && targets[i].Key() in t.mem.deliveries {
      WhatStopsTheLoop(t, i + 1);
      if Unserved(t, i + 1) {
        var j :| i + 1 <= j < |targets| && targets[j].Key() !in t.mem.deliveries
          && TrimSpace(targets[j].consumer) !in t.job.consumers
          && forall k | i + 1 <= k < j :: targets[k].Key() in t.mem.deliveries;
        assert forall k | i <= k < j :: targets[k].Key() in t.mem.deliveries;
      }
      if Unserved(t, i) {
        var j :| i <= j < |targets| && targets[j].Key() !in t.mem.deliveries
          && TrimSpace(targets[j].consumer) !in t.job.consumers
          && forall k | i <= k < j :: targets[k].Key() in t.mem.deliveries;
        assert j != i;
      }
    }
  }

  /** After the save of a first plan the run goes on if and only if the source can be deleted as the plan
      wants, and the first target to be served has a consumer. */
  lemma WhenDeliveriesStart(t: Tx, r: Reply)
    requires t.pc.SavingPlan? && r.verdict.Fine?
    ensures t.Step(r).pc != Halted(false) <==> DeletionPossible(t) && !Unserved(t, 0)
  {
    hide TrimSpace, Target.Key, TxState.HasRequired, TxState.ShouldDelete, Tx.NextTarget;
    var u := t.Saved(Fine);
    assert Unserved(u, 0) <==> Unserved(t, 0);
    if DeletionPossible(t) {
      WhatStopsTheLoop(u, 0);
    }
  }

  /** A delivery that fails leaves no receipt. If its target is required it ends the run with an error; if
      not, the run goes on to the next target without a receipt, and ends with an error only if that one has
      no consumer. */
  lemma WhatAFailedDeliveryDoes(t: Tx, r: Reply)
    requires Inv(t) && t.pc.Delivering? && r.verdict.Failed?
    ensures t.Step(r).disk == t.disk && t.Step(r).mem.deliveries == t.mem.deliveries
    ensures t.mem.plan.targets[t.pc.i].required ==> t.Step(r).pc == Halted(false)
    ensures !t.mem.plan.targets[t.pc.i].required ==>
      (t.Step(r).pc == Halted(false) <==> Unserved(t, t.pc.i + 1))
  {
    hide TrimSpace, Target.Key, Target.Valid, TxState.HasRequired, TxState.ShouldDelete, Tx.NextTarget, Sound, Extends;
    DeliveryStep(t, r);
    NextTargetLands(t, t.pc.i + 1);
    WhatStopsTheLoop(t, t.pc.i + 1);
  }

  /** Any other error ends the run with an error; so does the death of the process in any call. */
  lemma WhatAnErrorDoes(t: Tx, r: Reply)
    requires !t.pc.Halted? && !r.verdict.Fine?
    requires t.pc.Delivering? && t.pc.i < |t.mem.plan.targets| && !t.mem.plan.targets[t.pc.i].required ==>
      r.verdict.Killed?
    ensures t.Step(r).pc == Halted(false)
    ensures t.Step(r).disk ==
      if r.verdict.landed && (t.pc.SavingPlan? || t.pc.SavingReceipt? || t.pc.SavingDeleted? || t.pc.SavingAcked?
                              || t.pc.SavingCompleted?)
      then Some(t.mem) else t.disk
  {
    hide TrimSpace, Target.Key, Tx.NextTarget;
  }

  /** No consumer is called for a mail whose plan wants a deletion that its source cannot do. */
  lemma NoDeliveryWithoutDeletability(key: string, events: seq<Event>)
    requires Life(NewHistory(key), events).tx.pc.Delivering?
    ensures DeletionPossible(Life(NewHistory(key), events).tx)
  {
    hide TrimSpace, Life, Sound, Extends;
    LifeKeeps(key, events);
  }

  // ---- the deletion ----

  /** A receipt that warrants the deletion of the source: its consumer is on the list, if there is one,
      and, if the plan asks for it, it lies in the mailbox store that the mail came from. */
  ghost predicate Warrant(s: TxState, receipt: Receipt) {
    var policy, source := s.plan.deleteSource, s.trace.sourceStore;
    && (|policy.eligibleConsumers| > 0 ==>
          exists i | 0 <= i < |policy.eligibleConsumers| ::
            TrimSpace(policy.eligibleConsumers[i]) == TrimSpace(receipt.consumer))
    && (policy.requireSameStore ==>
          && TrimSpace(source.account) != "" && TrimSpace(source.driver) != ""
          && TrimSpace(receipt.store.account) == TrimSpace(source.account)
          && SameLetters(TrimSpace(receipt.store.driver), TrimSpace(source.driver)))
  }

  ghost predicate Warranted(s: TxState) {
    s.plan.deleteSource.enabled && exists k | k in s.deliveries :: Warrant(s, s.deliveries[k])
  }

  lemma EligibleMeans(s: TxState, receipt: Receipt)
    ensures s.Eligible(receipt) <==> Warrant(s, receipt)
  {
    hide TrimSpace, EqualFold, SameLetter;
    var policy := s.plan.deleteSource;
    EqualFoldMeans(TrimSpace(receipt.store.driver), TrimSpace(s.trace.sourceStore.driver));
    if exists c | c in policy.eligibleConsumers :: TrimSpace(c) == TrimSpace(receipt.consumer) {
      var c :| c in policy.eligibleConsumers && TrimSpace(c) == TrimSpace(receipt.consumer);
      var i :| 0 <= i < |policy.eligibleConsumers| && policy.eligibleConsumers[i] == c;
      assert TrimSpace(policy.eligibleConsumers[i]) == TrimSpace(receipt.consumer);
    }
    assert forall i | 0 <= i < |policy.eligibleConsumers| :: policy.eligibleConsumers[i] in policy.eligibleConsumers;
  }

  lemma ShouldDeleteMeans(s: TxState)
    ensures s.ShouldDelete() <==> Warranted(s)
  {
    hide TrimSpace, TxState.Eligible, Warrant;
    forall k | k in s.deliveries ensures s.Eligible(s.deliveries[k]) <==> Warrant(s, s.deliveries[k]) {
      EligibleMeans(s, s.deliveries[k]);
    }
  }

  /** When a deletion reaches the source, the record on disk has a receipt that warrants it. */
  lemma DeletionHonoursPolicy(key: string, events: seq<Event>, r: Reply)
    requires var t := Life(NewHistory(key), events).tx; Deleted in t.Emits(r)
    ensures var t := Life(NewHistory(key), events).tx;
      && t.disk.Some? && t.disk.value.plan.deleteSource.enabled
      && exists k | k in t.disk.value.deliveries :: Warrant(t.disk.value, t.disk.value.deliveries[k])
  {
    hide TrimSpace, Life, Warrant, TxState.ShouldDelete, Tx.Emits;
    DeletionIsWriteAhead(key, events, r);
    ShouldDeleteMeans(Life(NewHistory(key), events).tx.disk.value);
  }

  lemma {:induction false} OpeningHasNoDeletion(s: TxState, plan: Plan, i: nat)
    ensures Deleted !in Missing(s, plan, i)
    decreases |plan.targets| - i
  {
    hide Target.Key;
    if i < |plan.targets| {
      OpeningHasNoDeletion(s, plan, i + 1);
    }
  }

  /** The store the mail came from, as a run finds or sets it: a first plan brings the processor's word. */
  function SourceOf(s: TxState, p: Transaction.Processing): StoreRef {
    if s.Committed() || p.Skip? || |s.plan.targets| > 0 then s.trace.sourceStore else p.trace.sourceStore
  }

  lemma {:induction false} DriveKeepsStore(h: History, calm: Calm)
    requires !h.tx.pc.Loading? && !h.tx.pc.Processing?
    ensures Drive(h, calm).tx.mem.trace.sourceStore == h.tx.mem.trace.sourceStore
    decreases Stage(h.tx), Rest(h.tx)
  {
    hide TrimSpace, Target.Key, Tx.Step, Tx.Emits;
    if !h.tx.pc.Halted? {
      var r := calm.Answer(h.tx.pc);
      Progress(h.tx, r);
      LeavesProcessing(h.tx, r);
      WhereTheTraceComesFrom(h.tx, r);
      DriveKeepsStore(h.Step(r), calm);
    }
  }

  lemma LeavesProcessing(t: Tx, r: Reply)
    requires !t.pc.Loading? && !t.pc.Processing? && !t.pc.Halted?
    ensures !t.Step(r).pc.Loading? && !t.Step(r).pc.Processing? && !t.Step(r).pc.SavingPlan?
  {
    hide TrimSpace, Target.Key, Plan.Valid, TxState.HasRequired, WithReceipt, Tx.NextTarget, Stage, Rest;
    match t.pc
    case SavingPlan => NextTargetLands(t.Saved(r.verdict), 0);
    case Delivering(i) => NextTargetLands(t, i + 1);
    case SavingReceipt(i) => NextTargetLands(t.Saved(r.verdict), i + 1);
    case _ =>
  }

  /** The store that the mail came from, on the record of a good run. */
  lemma GoodRunStore(h: History, calm: Calm)
    requires Inv(h.tx) && h.tx.pc.Loading? && !h.tx.Stored().completed
    requires Drive(h, calm).tx.pc == Halted(true) && !Skips(h.tx.Stored(), calm.processing)
    ensures Drive(h, calm).tx.mem.trace.sourceStore == SourceOf(h.tx.Stored(), calm.processing)
  {
    hide TrimSpace, Target.Key, Plan.Valid, TxState.HasRequired, TxState.ShouldDelete, Drive, Tx.NextTarget;
    hide Tx.AfterDeliveries, Sound, Extends;
    var a := h.Step(calm.Answer(Loading));
    Unfold(h, calm);
    AfterDeliveriesLands(h.tx.(mem := h.tx.Stored()));
    LoadStays(h.tx.(mem := h.tx.Stored()));
    if h.tx.Stored().Committed() {
      DriveKeepsStore(a, calm);
    } else {
      assert a.tx.pc.Processing? && a.tx.mem == h.tx.Stored();
      var b := a.Step(calm.Answer(Processing));
      Unfold(a, calm);
      WhereTheTraceComesFrom(a.tx, calm.Answer(Processing));
      AfterPlan(a.tx, calm.Answer(Processing));
      DriveKeepsStore(b, calm);
      if b.tx.pc.Halted? {
        Stop(b, calm);
      }
    }
  }

  lemma LoadStays(t: Tx)
    ensures t.AfterDeliveries().mem.trace == t.mem.trace
  {
    hide TrimSpace, TxState.HasRequired, TxState.ShouldDelete;
  }

  lemma AfterPlan(t: Tx, r: Reply)
    requires t.pc.Processing? && r.verdict.Fine? && r.processing.Produced?
    ensures var u := t.Step(r);
      && !u.pc.Loading? && !u.pc.Processing?
      && (|t.mem.plan.targets| == 0 ==> u.pc.SavingPlan? || u.pc == Halted(false))
      && (|t.mem.plan.targets| > 0 ==> !u.pc.SavingPlan?)
  {
    hide TrimSpace, Target.Key, Plan.Valid, TxState.HasRequired, Tx.NextTarget;
    NextTargetLands(t, 0);
  }

  /** A good run without faults, on a record that is not completed, deletes the source if and only if no
      deletion is on record, the processor has not skipped the mail, and the final record has a receipt
      that warrants it, in the store that the processor's answer to the first run named. */
  lemma WhenTheSourceIsDeleted(key: string, events: seq<Event>, job: Job, calm: Calm)
    requires Life(NewHistory(key), events).tx.pc.Halted? && !Life(NewHistory(key), events).tx.Stored().completed
    requires TrimSpace(job.envelope.trace.transactionKey) == key && job.envelope.Valid()
    requires Drive(Life(NewHistory(key), events).Begin(job), calm).tx.pc == Halted(true)
    ensures var h := Life(NewHistory(key), events);
      var s, g := h.tx.Stored(), Drive(h.Begin(job), calm);
      && g.tx.disk.Some? && |h.log| <= |g.log|
      && (Deleted in g.log[|h.log|..] <==>
            !s.sourceDeleted && !Skips(s, calm.processing) && Warranted(g.tx.disk.value))
      && (!Skips(s, calm.processing) ==> g.tx.disk.value.trace.sourceStore == SourceOf(s, calm.processing))
  {
    hide TrimSpace, Target.Key, TxState.HasRequired, TxState.ShouldDelete, Drive, Life, Warranted, Missing, Ready;
    hide Sound, Extends, Tx.Step;
    var h := Life(NewHistory(key), events);
    RecoveryConverges(key, events, job, calm);
    var g := Drive(h.Begin(job), calm);
    ShouldDeleteMeans(g.tx.disk.value);
    if calm.processing.Produced? {
      OpeningHasNoDeletion(h.tx.Stored(), calm.processing.plan, 0);
    }
    DeletionInLog(h, g, calm.processing, job);
    LifeKeeps(key, events);
    LifeKey(NewHistory(key), events);
    BeginKeeps(h.tx, job);
    if !Skips(h.tx.Stored(), calm.processing) {
      GoodRunStore(h.Begin(job), calm);
    }
    DriveKeeps(h.Begin(job), calm);
  }

  lemma {:induction false} DriveKeeps(h: History, calm: Calm)
    requires Inv(h.tx)
    ensures Inv(Drive(h, calm).tx)
    ensures Drive(h, calm).tx.pc == Halted(true) ==> Drive(h, calm).tx.disk == Some(Drive(h, calm).tx.mem)
    decreases Stage(h.tx), Rest(h.tx)
  {
    hide TrimSpace, Target.Key, Tx.Step, Tx.Emits, Sound, Extends;
    if !h.tx.pc.Halted? {
      Progress(h.tx, calm.Answer(h.tx.pc));
      StepKeeps(h.tx, calm.Answer(h.tx.pc));
      DriveKeeps(h.Step(calm.Answer(h.tx.pc)), calm);
    }
  }

  lemma DeletionInLog(h: History, g: History, p: Transaction.Processing, job: Job)
    requires g.tx.disk.Some? && !h.tx.Stored().completed
    requires var s := h.tx.Stored(); g.log == h.log + Opening(s, p) + Closing(s, g.tx.disk.value, job, Skips(s, p))
    requires p.Produced? ==> Deleted !in Missing(h.tx.Stored(), p.plan, 0)
    ensures |h.log| <= |g.log|
    ensures Deleted in g.log[|h.log|..] <==>
      !h.tx.Stored().sourceDeleted && !Skips(h.tx.Stored(), p) && g.tx.disk.value.ShouldDelete()
  {
    hide TrimSpace, Target.Key, Missing, TxState.HasRequired, TxState.ShouldDelete;
    var s := h.tx.Stored();
    assert g.log[|h.log|..] == Opening(s, p) + Closing(s, g.tx.disk.value, job, Skips(s, p));
  }
}
