/** One round of a polling source under arbitrary answers. */
module PollRounds {
  import opened Text
  import opened Mailflow
  import opened Transaction
  import opened TransactionInvariant
  import opened TransactionEffects
  import opened Recovery
  import opened PollingProducer
  import opened PollSystem
  import opened PollTheorems

  /** The worker's run to its end, call `n` and later answered by `oracle`. */
  function Play(c: Setting, s: Sys, oracle: nat -> Reply, n: nat): Sys
    decreases if s.worker.Some? then Stage(TxOf(c, s, s.worker.value).tx) + 1 else 0,
              if s.worker.Some? then Rest(TxOf(c, s, s.worker.value).tx) else 0
  {
    if s.worker.None? || TxOf(c, s, s.worker.value).tx.pc.Halted? then s
    else
      Progress(TxOf(c, s, s.worker.value).tx, oracle(n));
      Play(c, WorkStep(c, s, s.worker.value, oracle(n)), oracle, n + 1)
  }

  // ---- on the way to the acknowledgement ----

  lemma AckIsAhead(t: Tx)
    requires !t.mem.sourceAcked && t.job.envelope.source.Source?
    ensures t.ToAck().pc.Acking? && (t.AfterDeliveries().pc.Halted? || BeforeAck(t.AfterDeliveries().pc))
  {
    hide TrimSpace, TxState.HasRequired, TxState.ShouldDelete;
  }

  lemma {:induction false} TargetsAreAhead(t: Tx, i: nat)
    requires !t.mem.sourceAcked && t.job.envelope.source.Source?
    ensures t.NextTarget(i).pc.Halted? || BeforeAck(t.NextTarget(i).pc)
    decreases |t.mem.plan.targets| - i
  {
    hide TrimSpace, Target.Key, Tx.AfterDeliveries;
    if i >= |t.mem.plan.targets| {
      AckIsAhead(t);
    } else if t.mem.plan.targets[i].Key() in t.mem.deliveries {
      TargetsAreAhead(t, i + 1);
    }
  }

  /** Short of its acknowledgement, a run has nothing else to acknowledge in its working copy. */
  lemma NotYetAcked(t: Tx)
    requires Inv(t) && BeforeAck(t.pc) && !t.Stored().sourceAcked
    ensures !t.pc.Loading? ==> !t.mem.sourceAcked
    ensures !t.Stored().completed
    ensures t.Saving() ==> !t.mem.sourceAcked
  {
    hide TrimSpace, Target.Key, Plan.Valid, TxState.HasRequired, Extends;
  }

  /** A run passes its acknowledgement only through the call that makes it. */
  lemma StaysAhead(t: Tx, r: Reply)
    requires Inv(t) && BeforeAck(t.pc) && !t.Stored().sourceAcked && t.job.envelope.source.Source?
    requires !t.pc.Acking?
    ensures t.Step(r).pc.Halted? || BeforeAck(t.Step(r).pc)
    ensures !t.Step(r).Stored().sourceAcked
  {
    hide TrimSpace, Target.Key, Plan.Valid, TxState.HasRequired, WithReceipt, FilledReceipt, Inv;
    hide Tx.NextTarget, Tx.AfterDeliveries, Tx.ToAck, Stage;
    NotYetAcked(t);
    match t.pc
    case Loading =>
      if !t.Stored().sourceAcked {
        AckIsAhead(t.(mem := t.Stored()));
      }
    case Processing =>
      TargetsAreAhead(t, 0);
      if r.processing.Skip? {
        AckIsAhead(t.(mem := t.mem.(trace := if r.processing.trace.transactionKey != "" then r.processing.trace
                                             else t.job.envelope.trace, skipped := true)));
      }
    case SavingPlan => TargetsAreAhead(t.Saved(r.verdict), 0);
    case Delivering(i) => TargetsAreAhead(t, i + 1);
    case SavingReceipt(i) => TargetsAreAhead(t.Saved(r.verdict), i + 1);
    case SavingDeleted => AckIsAhead(t.Saved(r.verdict));
    case _ =>
  }

  /** A run that has ended well has its acknowledgement on disk. */
  lemma GoodEnd(t: Tx)
    requires Inv(t) && t.pc == Halted(true)
    ensures t.Stored().completed && t.Stored().sourceAcked && t.mem == t.Stored()
  {
    hide TrimSpace, Target.Key, Plan.Valid, TxState.HasRequired;
  }

  // ---- the round ----

  /** The worker is on message `id`; the list is `listed`, less that message once it is acknowledged. */
  ghost predicate AtWork(c: Setting, s: Sys, id: string, listed: PollState) {
    var t := TxOf(c, s, id).tx;
    && s.worker == Some(id) && !t.pc.Halted? && t.job.envelope.source.Source?
    && if BeforeAck(t.pc) then s.poll == listed && !t.Stored().sourceAcked else s.poll == AfterAck(listed, id)
  }

  /** The worker is done with message `id`. */
  ghost predicate Done(c: Setting, s: Sys, id: string, listed: PollState) {
    var t := TxOf(c, s, id).tx;
    && s.worker.None? && t.pc.Halted?
    && (t.pc.ok ==> t.Stored().completed && t.mem == t.Stored() && s.poll == AfterAck(listed, id))
    && (s.poll == listed || s.poll == AfterAck(listed, id))
    && (t.Stored().sourceAcked ==> s.poll == AfterAck(listed, id))
  }

  lemma WorkAdvances(c: Setting, s: Sys, id: string, listed: PollState, r: Reply)
    requires SysInv(c, s) && AtWork(c, s, id, listed)
    ensures var u := WorkStep(c, s, id, r);
      && Others(c, s, u, id)
      && (AtWork(c, u, id, listed) || Done(c, u, id, listed))
  {
    hide TrimSpace, Target.Key, Tx.Step, AfterAck, Inv, IsLife, SysInv;
    var t := TxOf(c, s, id).tx;
    WorkerIsHead(c, s);
    LifeFacts(c.txKey(id), s.txs[id]);
    StepKeeps(t, r);
    var u := t.Step(r);
    if !BeforeAck(t.pc) {
      BackOfAck(t, r);
    } else if t.pc.Acking? {
      LeavingAck(t, r);
      AckEnds(t, r);
    } else {
      StaysAhead(t, r);
    }
    if u.pc == Halted(true) {
      GoodEnd(u);
    }
    assert u.job == t.job;
  }

  /** An acknowledgement that reports an error ends the run; one that does not has taken effect. */
  lemma AckEnds(t: Tx, r: Reply)
    requires t.pc.Acking?
    ensures t.Step(r).pc.Halted? ==> t.Step(r).pc == Halted(false)
    ensures t.Step(r).Stored() == t.Stored()
    ensures !t.Step(r).pc.Halted? ==> r.verdict.Landed()
  {
  }

  /** Whatever is answered, the run ends. If it ends without an error, the transaction is completed and
      the message is off the list; otherwise the message is still at the head, unless its
      acknowledgement took effect before the error. No other transaction is touched. */
  lemma {:induction false} PlayEnds(c: Setting, s: Sys, id: string, listed: PollState, oracle: nat -> Reply, n: nat)
    requires SysInv(c, s) && AtWork(c, s, id, listed)
    ensures var t := Play(c, s, oracle, n); SysInv(c, t) && Others(c, s, t, id) && Done(c, t, id, listed)
    decreases Stage(TxOf(c, s, id).tx), Rest(TxOf(c, s, id).tx)
  {
    hide TrimSpace, Target.Key, Tx.Step, AfterAck, WorkStep, SysInv, TxOf, BeforeAck;
    var u := WorkStep(c, s, id, oracle(n));
    Progress(TxOf(c, s, id).tx, oracle(n));
    WorkAdvances(c, s, id, listed, oracle(n));
    WorkKeeps(c, s, id, oracle(n));
    WorkMoves(c, s, id, oracle(n));
    if u.worker.Some? {
      PlayEnds(c, u, id, listed, oracle, n + 1);
    }
  }

  lemma WorkMoves(c: Setting, s: Sys, id: string, r: Reply)
    ensures TxOf(c, WorkStep(c, s, id, r), id).tx == TxOf(c, s, id).tx.Step(r)
  {
    hide Tx.Step, AfterAck;
  }

  /** The round starts on the first message of the list. */
  lemma RoundStarts(c: Setting, s: Sys, fetch: Fetch, save: Verdict, job: Job)
    requires SysInv(c, s) && s.worker.None? && NextOf(s.poll, c.includeExisting, fetch, save).1.Emit?
    requires var id := NextOf(s.poll, c.includeExisting, fetch, save).1.message.id;
      ForMessage(c, job, id) && job.envelope.Valid() && !TxOf(c, s, id).tx.Stored().sourceAcked
    ensures var (listed, out) := NextOf(s.poll, c.includeExisting, fetch, save);
      var u := Next(c, s, Take(fetch, save, job));
      && SysInv(c, u) && AtWork(c, u, out.message.id, listed)
      && listed.pending != [] && listed.pending[0] == out.message
      && forall k | k != out.message.id :: TxOf(c, u, k) == TxOf(c, s, k)
  {
    hide TrimSpace, IsLife, Inv, SysInv, NextOf, Envelope.Valid;
    var id := NextOf(s.poll, c.includeExisting, fetch, save).1.message.id;
    NextKeeps(c, s, Take(fetch, save, job));
    HaltedLife(c, s, id);
    LifeFacts(c.txKey(id), TxOf(c, s, id));
    ListFacts(s.poll, c.includeExisting, fetch, save);
  }
}
