/** What the runs of one transaction do to the outside world, counted over whole lives. */
module TransactionEffects {
  import opened Text
  import opened Mailflow
  import opened Transaction
  import opened TransactionInvariant

  ghost function Hits(log: seq<Effect>, p: Effect -> bool): nat {
    if log == [] then 0
    else Hits(log[..|log| - 1], p) + if p(log[|log| - 1]) then 1 else 0
  }

  lemma HitsAppend(log: seq<Effect>, more: seq<Effect>, p: Effect -> bool)
    requires |more| <= 2
    ensures Hits(log + more, p) == Hits(log, p) + Hits(more, p)
  {
    if |more| == 0 {
      assert log + more == log;
    } else if |more| == 1 {
      assert (log + more)[..|log|] == log;
    } else {
      assert (log + more)[..|log| + 1] == log + [more[0]];
      assert (log + more)[..|log| + 1][..|log|] == log;
      assert more[..1] == [more[0]];
    }
  }

  // ---- the total ----

  predicate Durable(e: Effect) {
    e.Consumed? || e.Deleted? || e.Acked?
  }

  /** The effects a state has on record. */
  ghost function Recorded(s: TxState): nat {
    |s.deliveries| + (if s.sourceDeleted then 1 else 0) + (if s.sourceAcked then 1 else 0)
  }

  /** The record a run is working on. */
  ghost function Current(t: Tx): TxState {
    if t.pc.Halted? || t.pc.Loading? then t.Stored() else t.mem
  }

  ghost predicate TotalInv(h: History) {
    Inv(h.tx) && Hits(h.log, Durable) <= h.cuts + Recorded(Current(h.tx))
  }

  /** A save adds at most one effect to the record. */
  lemma RecordLag(t: Tx)
    requires Inv(t)
    ensures Recorded(Current(t)) <= Recorded(t.Stored()) + 1
    ensures !t.Saving() ==> Recorded(Current(t)) == Recorded(t.Stored())
  {
    hide TrimSpace, Target.Key, Target.Valid, TxState.ShouldDelete, TxState.HasRequired, Sound, Extends;
  }

  /** Control moved from `t` to `u` without touching receipts or the deletion. */
  ghost predicate Moves(t: Tx, u: Tx) {
    && u.mem.plan == t.mem.plan
    && u.mem.deliveries == t.mem.deliveries
    && u.mem.sourceDeleted == t.mem.sourceDeleted
    && (t.mem.sourceAcked ==> u.mem.sourceAcked)
  }

  ghost predicate PastDeliveries(t: Tx) {
    t.pc.Deleting? || t.pc.Acking? || t.pc.SavingAcked? || t.pc.SavingCompleted?
  }

  lemma AfterDeliveriesLands(t: Tx)
    ensures var u := t.AfterDeliveries();
      Moves(t, u) && (u.pc.Halted? || (PastDeliveries(u) && t.mem.HasRequired()))
  {
    hide TrimSpace, Target.Key, TxState.ShouldDelete;
  }

  lemma {:induction false} NextTargetLands(t: Tx, i: nat)
    ensures var u := t.NextTarget(i);
      && Moves(t, u)
      && (u.pc.Delivering? ==> i <= u.pc.i < |t.mem.plan.targets|)
      && (u.pc.Delivering? || u.pc.Halted? || (PastDeliveries(u) && t.mem.HasRequired()))
    decreases |t.mem.plan.targets| - i
  {
    hide TrimSpace, Target.Key, Tx.AfterDeliveries;
    AfterDeliveriesLands(t);
    if i < |t.mem.plan.targets| && t.mem.plan.targets[i].Key() in t.mem.deliveries {
      NextTargetLands(t, i + 1);
    }
  }

  lemma EmitsHits(t: Tx, r: Reply, p: Effect -> bool)
    requires !p(Processed) && !p(Skipped)
    ensures |t.Emits(r)| <= 2
    ensures Hits(t.Emits(r), p) ==
      if !t.pc.Processing? && |t.Emits(r)| == 1 && p(t.Emits(r)[0]) then 1 else 0
    ensures t.Saving() || t.pc.Halted? ==> t.Emits(r) == []
  {
    hide TrimSpace, Target.Key;
    if |t.Emits(r)| == 2 {
      assert t.Emits(r) == [Processed, Skipped];
      assert t.Emits(r)[..1] == [Processed];
      assert Hits([Processed], p) == 0;
    }
  }

  /** A consumer call that succeeds puts its receipt on the working record. */
  lemma DeliveryRecords(t: Tx, r: Reply)
    requires Inv(t) && t.pc.Delivering? && t.Step(r).pc != Halted(false)
    ensures Recorded(Current(t.Step(r))) >= Recorded(Current(t)) + if r.verdict.Fine? then 1 else 0
  {
    hide TrimSpace, Target.Key, Target.Valid, TxState.HasRequired, FilledReceipt, WithReceipt;
    hide Tx.NextTarget, Sound, Extends;
    if r.verdict.Fine? {
      ReceiptAdds(t.mem, t.mem.plan.targets[t.pc.i], r.receipt);
    } else {
      NextTargetLands(t, t.pc.i + 1);
    }
  }

  lemma ProcessingRecords(t: Tx, r: Reply)
    requires Inv(t) && t.pc.Processing? && t.Step(r).pc != Halted(false)
    ensures Recorded(Current(t.Step(r))) >= Recorded(Current(t))
  {
    hide TrimSpace, Target.Key, Plan.Valid, TxState.HasRequired, Tx.NextTarget, Sound, Extends;
    NextTargetLands(t, 0);
  }

  lemma SaveRecords(t: Tx, r: Reply)
    requires Inv(t) && t.Saving() && t.Step(r).pc != Halted(false)
    ensures Recorded(Current(t.Step(r))) >= Recorded(Current(t))
  {
    hide TrimSpace, Target.Key, Plan.Valid, TxState.HasRequired, Tx.NextTarget, Sound, Extends;
    match t.pc
    case SavingPlan => NextTargetLands(t.Saved(r.verdict), 0);
    case SavingReceipt(i) => NextTargetLands(t.Saved(r.verdict), i + 1);
    case _ =>
  }

  /** Short of a cut, the record in force grows by what the call did. */
  lemma StepRecords(t: Tx, r: Reply)
    requires Inv(t) && t.Step(r).pc != Halted(false)
    ensures Recorded(Current(t.Step(r))) >= Recorded(Current(t)) + Hits(t.Emits(r), Durable)
  {
    hide TrimSpace, Target.Key, Plan.Valid, TxState.HasRequired, WithReceipt;
    hide Tx.NextTarget, Tx.AfterDeliveries, Tx.AfterProcessing, Sound, Extends, Hits;
    EmitsHits(t, r, Durable);
    if t.Saving() {
      SaveRecords(t, r);
    } else {
      match t.pc
      case Loading => AfterDeliveriesLands(t.(mem := t.Stored()));
      case Processing => ProcessingRecords(t, r);
      case Delivering(i) => DeliveryRecords(t, r);
      case _ =>
    }
  }

  lemma TotalStep(h: History, r: Reply)
    requires TotalInv(h)
    ensures TotalInv(h.Step(r))
  {
    hide TrimSpace, Target.Key, Tx.Proceed, Tx.NextTarget, Tx.Emits, Inv, Recorded, Hits;
    var t := h.tx.Step(r);
    StepKeeps(h.tx, r);
    EmitsHits(h.tx, r, Durable);
    HitsAppend(h.log, h.tx.Emits(r), Durable);
    RecordLag(h.tx);
    if t.pc != Halted(false) {
      StepRecords(h.tx, r);
    }
  }

  lemma {:induction false} KeysBound(targets: seq<Target>)
    ensures |set i | 0 <= i < |targets| :: targets[i].Key()| <= |targets|
  {
    hide Target.Key;
    if targets != [] {
      var init := targets[..|targets| - 1];
      KeysBound(init);
      var all, most := set i | 0 <= i < |targets| :: targets[i].Key(), set i | 0 <= i < |init| :: init[i].Key();
      assert all == most + {targets[|targets| - 1].Key()};
    }
  }

  lemma SubsetBound<T>(a: set<T>, b: set<T>)
    requires a <= b
    ensures |a| <= |b|
  {
    if a != {} {
      var x :| x in a;
      SubsetBound(a - {x}, b - {x});
    }
  }

  lemma RecordBound(t: Tx)
    requires Inv(t)
    ensures Recorded(Current(t)) <= |t.Stored().plan.targets| + 2
  {
    hide TrimSpace, Target.Key, Target.Valid, TxState.ShouldDelete, TxState.HasRequired;
    KeysBound(t.Stored().plan.targets);
    SubsetBound(Current(t).deliveries.Keys, t.Stored().plan.Keys());
  }

  lemma {:induction false} LifeTotal(key: string, events: seq<Event>)
    ensures TotalInv(Life(NewHistory(key), events))
  {
    hide TrimSpace, Tx.Step, Inv;
    var h := Life(NewHistory(key), events);
    if events != [] {
      var m := Life(NewHistory(key), events[..|events| - 1]);
      LifeTotal(key, events[..|events| - 1]);
      match events[|events| - 1]
      case Start(job) => BeginKeeps(m.tx, job);
      case Answer(r) => TotalStep(m, r);
    } else {
      LifeKeeps(key, events);
    }
  }

  /** However many runs a transaction takes and wherever they are cut, all deliveries, deletions and
      acknowledgements together number at most one per target, plus two, plus one per cut run.
      Effects whose call reported an error count too, as long as the error ended the run. */
  lemma EffectsBounded(key: string, events: seq<Event>)
    ensures var h := Life(NewHistory(key), events);
      Hits(h.log, Durable) <= |h.tx.Stored().plan.targets| + 2 + h.cuts
  {
    hide TrimSpace, Inv, Recorded, Hits;
    LifeTotal(key, events);
    RecordBound(Life(NewHistory(key), events).tx);
  }

  // ---- each single effect ----

  ghost function Reaches(target: string): Effect -> bool {
    (e: Effect) => e == Consumed(target) || e == Swallowed(target)
  }

  ghost predicate IsDeleted(e: Effect) {
    e == Deleted
  }

  ghost predicate IsAcked(e: Effect) {
    e == Acked
  }

  /** The current run has already dealt with the target named `k`. */
  ghost predicate Visited(t: Tx, k: string) {
    match t.pc
    case Delivering(i) => exists j :: 0 <= j < i && j < |t.mem.plan.targets| && t.mem.plan.targets[j].Key() == k
    case SavingReceipt(i) => exists j :: 0 <= j <= i && j < |t.mem.plan.targets| && t.mem.plan.targets[j].Key() == k
    case _ => false
  }

  /** `k` needs no further delivery, as far as this run or the store can tell. */
  ghost predicate Settled(t: Tx, k: string) {
    || k in Current(t).deliveries
    || Visited(t, k)
    || (!t.pc.Delivering? && !t.pc.SavingReceipt? && t.Stored().Committed())
    || t.Stored().completed
  }

  ghost predicate TargetInv(h: History, k: string) {
    Inv(h.tx) && Hits(h.log, Reaches(k)) <= h.cuts + if Settled(h.tx, k) then 1 else 0
  }

  ghost predicate OnceInv(h: History) {
    && Inv(h.tx)
    && Hits(h.log, IsDeleted) <= h.cuts + (if Current(h.tx).sourceDeleted then 1 else 0)
    && Hits(h.log, IsAcked) <= h.cuts + (if Current(h.tx).sourceAcked then 1 else 0)
  }

  lemma DeliverySettles(t: Tx, r: Reply, k: string)
    requires Inv(t) && t.pc.Delivering? && t.Step(r).pc != Halted(false)
    ensures Settled(t, k) ==> Settled(t.Step(r), k)
    ensures t.mem.plan.targets[t.pc.i].Key() == k ==> !Settled(t, k) && Settled(t.Step(r), k)
  {
    hide TrimSpace, Target.Key, Target.Valid, FilledReceipt, WithReceipt, Tx.NextTarget, Sound, Extends;
    if r.verdict.Fine? {
      ReceiptAdds(t.mem, t.mem.plan.targets[t.pc.i], r.receipt);
    } else {
      NextTargetLands(t, t.pc.i + 1);
      DeliveryKeeps(t, r);
    }
  }

  lemma SaveSettles(t: Tx, r: Reply, k: string)
    requires Inv(t) && t.Saving() && t.Step(r).pc != Halted(false)
    ensures Settled(t, k) ==> Settled(t.Step(r), k)
  {
    hide TrimSpace, Target.Key, Plan.Valid, TxState.ShouldDelete, Tx.NextTarget, Sound, Extends, RequiredUpTo;
    if t.pc.SavingReceipt? {
      ReceiptSettles(t, r, k);
    } else if t.pc.SavingPlan? {
      NextTargetLands(t.Saved(r.verdict), 0);
    }
  }

  lemma ReceiptSettles(t: Tx, r: Reply, k: string)
    requires Inv(t) && t.pc.SavingReceipt? && t.Step(r).pc != Halted(false)
    ensures Settled(t, k) ==> Settled(t.Step(r), k)
  {
    hide TrimSpace, Target.Key, Plan.Valid, TxState.ShouldDelete, Tx.NextTarget, Tx.Step, Sound, Extends;
    var u := t.Saved(Fine);
    if !r.verdict.Fine? {
      FaultySave(t, r);
    } else {
      ReceiptStep(t, r);
      SavedStepKeeps(t, r);
      NextTargetLands(u, t.pc.i + 1);
    }
  }

  lemma FaultySave(t: Tx, r: Reply)
    requires t.Saving() && !r.verdict.Fine?
    ensures t.Step(r).pc == Halted(false)
  {
  }

  lemma ProcessingSettles(t: Tx, r: Reply, k: string)
    requires Inv(t) && t.pc.Processing? && t.Step(r).pc != Halted(false)
    ensures Settled(t, k) ==> Settled(t.Step(r), k)
  {
    hide TrimSpace, Target.Key, Target.Valid, Tx.NextTarget, Sound;
    NextTargetLands(t, 0);
  }

  lemma StepSettles(t: Tx, r: Reply, k: string)
    requires Inv(t) && t.Step(r).pc != Halted(false)
    ensures Settled(t, k) ==> Settled(t.Step(r), k)
    ensures Hits(t.Emits(r), Reaches(k)) == 1 ==> !Settled(t, k) && Settled(t.Step(r), k)
  {
    hide TrimSpace, Target.Key, Plan.Valid, TxState.HasRequired, WithReceipt;
    hide Tx.NextTarget, Tx.AfterDeliveries, Tx.AfterProcessing, Sound, Extends, Hits;
    EmitsHits(t, r, Reaches(k));
    if t.Saving() {
      SaveSettles(t, r, k);
    } else {
      match t.pc
      case Loading => AfterDeliveriesLands(t.(mem := t.Stored()));
      case Processing => ProcessingSettles(t, r, k);
      case Delivering(i) => DeliverySettles(t, r, k);
      case _ =>
    }
  }

  lemma TargetStep(h: History, r: Reply, k: string)
    requires TargetInv(h, k)
    ensures TargetInv(h.Step(r), k)
  {
    hide TrimSpace, Target.Key, Tx.Proceed, Tx.NextTarget, Inv, Hits, Settled;
    StepKeeps(h.tx, r);
    EmitsHits(h.tx, r, Reaches(k));
    HitsAppend(h.log, h.tx.Emits(r), Reaches(k));
    if h.tx.Step(r).pc != Halted(false) {
      StepSettles(h.tx, r, k);
    } else {
      CutSettles(h.tx, r, k);
    }
  }

  /** A cut costs at most one: either a fresh delivery or a receipt that was not stored. */
  lemma CutSettles(t: Tx, r: Reply, k: string)
    requires Inv(t) && t.Step(r).pc == Halted(false)
    ensures Hits(t.Emits(r), Reaches(k)) == 1 ==> !Settled(t, k)
    ensures t.pc.Halted? ==> t.Emits(r) == [] && t.Step(r) == t
  {
    hide TrimSpace, Target.Key, Target.Valid, Tx.Proceed, Tx.NextTarget, Sound, Extends, Hits;
    EmitsHits(t, r, Reaches(k));
  }

  lemma OnceStep(h: History, r: Reply)
    requires OnceInv(h)
    ensures OnceInv(h.Step(r))
  {
    hide TrimSpace, Target.Key, Plan.Valid, TxState.HasRequired, Tx.NextTarget, Tx.AfterDeliveries, Tx.AfterProcessing;
    hide Hits, Sound, Extends;
    StepKeeps(h.tx, r);
    EmitsHits(h.tx, r, IsDeleted);
    EmitsHits(h.tx, r, IsAcked);
    HitsAppend(h.log, h.tx.Emits(r), IsDeleted);
    HitsAppend(h.log, h.tx.Emits(r), IsAcked);
  }

  lemma {:induction false} LifeOnce(key: string, events: seq<Event>, k: string)
    ensures TargetInv(Life(NewHistory(key), events), k)
    ensures OnceInv(Life(NewHistory(key), events))
  {
    hide TrimSpace, Tx.Step, Inv;
    if events != [] {
      var m := Life(NewHistory(key), events[..|events| - 1]);
      LifeOnce(key, events[..|events| - 1], k);
      match events[|events| - 1]
      case Start(job) => BeginKeeps(m.tx, job);
      case Answer(r) => TargetStep(m, r, k); OnceStep(m, r);
    } else {
      LifeKeeps(key, events);
    }
  }

  /** Each target is reached at most once, plus once per cut run, even by calls that reported an
      error; and so are the deletion and the acknowledgement. */
  lemma EachEffectOnce(key: string, events: seq<Event>, target: string)
    ensures var h := Life(NewHistory(key), events);
      && Hits(h.log, Reaches(target)) <= 1 + h.cuts
      && Hits(h.log, IsDeleted) <= 1 + h.cuts
      && Hits(h.log, IsAcked) <= 1 + h.cuts
  {
    hide TrimSpace, Inv, Hits;
    LifeOnce(key, events, target);
  }

  // ---- deletion is write-ahead, completion is final ----

  /** No further processing or delivery can happen. */
  ghost predicate Quiet(t: Tx) {
    && Inv(t)
    && t.Stored().Committed()
    && !t.pc.Processing? && !t.pc.SavingPlan? && !t.pc.Delivering? && !t.pc.SavingReceipt?
  }

  lemma QuietStep(t: Tx, r: Reply)
    requires Quiet(t)
    ensures Quiet(t.Step(r))
    ensures forall e | e in t.Emits(r) :: e.Deleted? || e.Acked?
  {
    hide TrimSpace, Target.Key, Plan.Valid, TxState.ShouldDelete, Sound;
    hide Tx.NextTarget, Tx.AfterProcessing, Tx.AfterDeliveries;
    StepKeeps(t, r);
    if t.pc.Loading? {
      AfterDeliveriesLands(t.(mem := t.Stored()));
    }
  }

  /** The source is deleted only when the store already holds a receipt for every required target
      and one that satisfies the deletion policy, and only a source that deletes for good. */
  lemma DeletionIsWriteAhead(key: string, events: seq<Event>, r: Reply)
    requires var t := Life(NewHistory(key), events).tx; Deleted in t.Emits(r)
    ensures var t := Life(NewHistory(key), events).tx;
      && t.disk.Some? && t.disk.value.Committed() && t.disk.value.ShouldDelete()
      && !t.disk.value.sourceDeleted
      && t.job.envelope.source.Source? && t.job.envelope.source.deletable
      && t.job.envelope.semantics == Hard
  {
    hide TrimSpace, Target.Key, Target.Valid, TxState.Eligible;
    LifeKeeps(key, events);
  }

  /** From the moment the source may be deleted, no run reads the mail again: the processor and the
      consumers are never called, only deletions and acknowledgements can follow. */
  lemma NothingReadsADeletedMail(key: string, before: seq<Event>, events: seq<Event>)
    requires Life(NewHistory(key), before).tx.pc.Deleting?
    ensures var h := Life(NewHistory(key), before);
      var g := Life(h, events);
      && !g.tx.pc.Processing? && !g.tx.pc.Delivering?
      && |h.log| <= |g.log| && forall e | e in g.log[|h.log|..] :: e.Deleted? || e.Acked?
  {
    hide Inv, Life;
    LifeKeeps(key, before);
    QuietLife(Life(NewHistory(key), before), events);
  }

  lemma {:induction false} QuietLife(h: History, events: seq<Event>)
    requires Inv(h.tx) && h.tx.pc.Deleting?
    ensures Quiet(Life(h, events).tx)
    ensures |h.log| <= |Life(h, events).log|
    ensures forall e | e in Life(h, events).log[|h.log|..] :: e.Deleted? || e.Acked?
    decreases |events|
  {
    hide TrimSpace, Target.Key, Target.Valid, Tx.Step, Tx.Emits, Sound, Extends;
    if events != [] {
      var m := Life(h, events[..|events| - 1]);
      QuietLife(h, events[..|events| - 1]);
      match events[|events| - 1]
      case Start(job) => BeginKeeps(m.tx, job);
      case Answer(r) =>
        QuietStep(m.tx, r);
        assert Life(h, events).log[|h.log|..] == m.log[|h.log|..] + m.tx.Emits(r);
    }
  }

  lemma CompletedStep(t: Tx, r: Reply)
    requires Inv(t) && t.Stored().completed
    ensures t.Step(r).disk == t.disk && t.Emits(r) == []
  {
    hide TrimSpace, Target.Key, Target.Valid, Tx.NextTarget, Tx.AfterDeliveries;
  }

  /** Once a transaction is completed, no run of it, however it is answered or cut, changes the store
      or touches the outside world except to clean up the source. */
  lemma CompletedIsFinal(key: string, before: seq<Event>, events: seq<Event>)
    requires Life(NewHistory(key), before).tx.Stored().completed
    ensures var h := Life(NewHistory(key), before);
      Life(h, events).tx.disk == h.tx.disk && Life(h, events).log == h.log
  {
    hide Inv, Life;
    LifeKeeps(key, before);
    CompletedLife(Life(NewHistory(key), before), events);
  }

  lemma {:induction false} CompletedLife(h: History, events: seq<Event>)
    requires Inv(h.tx) && h.tx.Stored().completed
    ensures Inv(Life(h, events).tx)
    ensures Life(h, events).tx.disk == h.tx.disk
    ensures Life(h, events).log == h.log
    decreases |events|
  {
    hide TrimSpace, Tx.Step, Tx.Emits, Inv;
    if events != [] {
      var m := Life(h, events[..|events| - 1]);
      CompletedLife(h, events[..|events| - 1]);
      assert m.tx.key == h.tx.key by { LifeKey(h, events[..|events| - 1]); }
      match events[|events| - 1]
      case Start(job) => BeginKeeps(m.tx, job);
      case Answer(r) => StepKeeps(m.tx, r); CompletedStep(m.tx, r);
    }
  }

  lemma {:induction false} LifeKey(h: History, events: seq<Event>)
    ensures Life(h, events).tx.key == h.tx.key
    decreases |events|
  {
    hide TrimSpace, Tx.Step, Tx.Begin;
    if events != [] {
      LifeKey(h, events[..|events| - 1]);
    }
  }

  /** A run that ends without an error leaves a completed transaction in the store: the early return
      for missing receipts is never taken. */
  lemma GoodRunsComplete(key: string, events: seq<Event>)
    requires Life(NewHistory(key), events).tx.pc == Halted(true)
    ensures Life(NewHistory(key), events).tx.Stored().completed
  {
    LifeKeeps(key, events);
  }

  // ---- what stands behind an acknowledgement ----

  /** Every required target has a receipt on disk, or the processor has skipped the mail. */
  ghost predicate Accounted(h: History) {
    h.tx.Stored().Committed() || Skipped in h.log
  }

  ghost predicate Acknowledging(t: Tx) {
    t.pc.Acking? || t.pc.SavingAcked? || t.pc.SavingCompleted? || t.pc.Finalizing?
  }

  ghost predicate AckInv(h: History) {
    Inv(h.tx) && (Acknowledging(h.tx) || h.tx.Stored().sourceAcked || h.tx.Stored().completed ==> Accounted(h))
  }

  lemma SaveAccounted(t: Tx, r: Reply)
    requires Inv(t) && t.Saving() && Acknowledging(t.Step(r))
    ensures t.Step(r).Stored().Committed() || Acknowledging(t)
  {
    hide TrimSpace, Target.Key, Target.Valid, TxState.ShouldDelete, Sound, Extends, Tx.NextTarget;
    match t.pc
    case SavingPlan => NextTargetLands(t.Saved(r.verdict), 0);
    case SavingReceipt(i) => NextTargetLands(t.Saved(r.verdict), i + 1);
    case _ =>
  }

  lemma CallAccounted(t: Tx, r: Reply)
    requires Inv(t) && !t.Saving() && Acknowledging(t.Step(r)) && !t.Stored().completed
    ensures t.Step(r).Stored().Committed() || Skipped in t.Emits(r) || Acknowledging(t)
  {
    hide TrimSpace, Target.Key, Plan.Valid, TxState.ShouldDelete, Sound, Extends;
    hide Tx.NextTarget, Tx.AfterDeliveries, WithReceipt;
    match t.pc
    case Loading => AfterDeliveriesLands(t.(mem := t.Stored()));
    case Processing => NextTargetLands(t, 0);
    case Delivering(i) => NextTargetLands(t, i + 1);
    case _ =>
  }

  /** The source is acknowledged only for a mail that is accounted for. */
  lemma AckStep(h: History, r: Reply)
    requires AckInv(h)
    ensures AckInv(h.Step(r))
    ensures Accounted(h) ==> Accounted(h.Step(r))
  {
    hide TrimSpace, Target.Key, Plan.Valid, TxState.ShouldDelete, Sound, Tx.Proceed, Tx.NextTarget;
    StepKeeps(h.tx, r);
    if Acknowledging(h.tx.Step(r)) && !h.tx.Stored().completed {
      if h.tx.Saving() {
        SaveAccounted(h.tx, r);
      } else {
        CallAccounted(h.tx, r);
      }
    }
  }

  /** `h` is what some sequence of runs, answered and cut somehow, makes of the transaction `key`. */
  ghost predicate IsLife(key: string, h: History) {
    exists events :: h == Life(NewHistory(key), events)
  }

  lemma NewIsLife(key: string)
    ensures IsLife(key, NewHistory(key))
  {
    assert Life(NewHistory(key), []) == NewHistory(key);
  }

  lemma ApplyIsLife(key: string, h: History, e: Event)
    requires IsLife(key, h)
    ensures IsLife(key, Apply(h, e))
  {
    hide Tx.Step, Tx.Begin, Tx.Emits;
    var events :| h == Life(NewHistory(key), events);
    var more := events + [e];
    assert more[..|more| - 1] == events;
    assert Apply(h, e) == Life(NewHistory(key), more);
  }

  lemma EventsOf(key: string, h: History) returns (events: seq<Event>)
    requires IsLife(key, h)
    ensures h == Life(NewHistory(key), events)
  {
    hide Tx.Step, Tx.Begin;
    events :| h == Life(NewHistory(key), events);
  }

  lemma LifeFacts(key: string, h: History)
    requires IsLife(key, h)
    ensures Inv(h.tx) && h.tx.key == key
  {
    hide Tx.Step, Tx.Begin, Inv;
    var events :| h == Life(NewHistory(key), events);
    LifeKeeps(key, events);
    LifeKey(NewHistory(key), events);
  }

  lemma {:induction false} LifeAccounted(key: string, events: seq<Event>)
    ensures AckInv(Life(NewHistory(key), events))
  {
    hide TrimSpace, Tx.Step, Inv;
    if events != [] {
      var m := Life(NewHistory(key), events[..|events| - 1]);
      LifeAccounted(key, events[..|events| - 1]);
      match events[|events| - 1]
      case Start(job) => BeginKeeps(m.tx, job);
      case Answer(r) => AckStep(m, r);
    } else {
      LifeKeeps(key, events);
    }
  }

  /** Whenever the source is being or has been acknowledged, its mail is accounted for. */
  lemma AcknowledgedIsAccounted(key: string, events: seq<Event>)
    ensures var h := Life(NewHistory(key), events);
      h.tx.pc.Acking? || h.tx.Stored().sourceAcked || h.tx.Stored().completed ==> Accounted(h)
  {
    hide Inv, Life, Accounted;
    LifeAccounted(key, events);
  }
}
