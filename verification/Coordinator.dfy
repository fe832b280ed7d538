/** The coordinator itself: one method that drives a mail through its transaction, step by step over
    a mutable store, proved to follow the machine of `Transaction`. */
module CoordinatorRun {
  import opened Text
  import opened Mailflow
  import opened Transaction
  import opened TransactionInvariant

  /** The machine after `n` answered calls. */
  ghost function Iterate(h: History, oracle: nat -> Reply, n: nat): History {
    if n == 0 then h else Iterate(h, oracle, n - 1).Step(oracle(n - 1))
  }

  ghost function Lookup(states: map<string, TxState>, key: string): Option<TxState> {
    if key in states then Some(states[key]) else None
  }

  /** The machine as a run for `job` on the given store finds it. */
  ghost function Entry(states: map<string, TxState>, log: seq<Effect>, job: Job): History {
    var key := TrimSpace(job.envelope.trace.transactionKey);
    History(NewTx(key).(disk := Lookup(states, key)).Begin(job), log, 0)
  }

  /** Where control goes next depends on the working copy, not on where it stands. */
  lemma {:induction false} NextTargetAgain(t: Tx, i: nat)
    ensures t.NextTarget(i).(mem := t.mem).NextTarget(i) == t.NextTarget(i)
    ensures t.NextTarget(i).(mem := t.mem).AfterDeliveries() == t.AfterDeliveries()
    decreases |t.mem.plan.targets| - i
  {
    hide TrimSpace, Target.Key, TxState.HasRequired, TxState.ShouldDelete;
    if i < |t.mem.plan.targets| && t.mem.plan.targets[i].Key() in t.mem.deliveries {
      NextTargetAgain(t, i + 1);
    }
  }

  lemma AfterDeliveriesAgain(t: Tx)
    ensures t.AfterDeliveries().(mem := t.mem).AfterDeliveries() == t.AfterDeliveries()
  {
    hide TrimSpace, Target.Key, TxState.HasRequired, TxState.ShouldDelete;
  }

  lemma NextTargetCases(t: Tx, i: nat)
    ensures t.NextTarget(i) ==
      if i >= |t.mem.plan.targets| then t.AfterDeliveries()
      else if t.mem.plan.targets[i].Key() in t.mem.deliveries then t.NextTarget(i + 1)
      else if TrimSpace(t.mem.plan.targets[i].consumer) !in t.job.consumers then t.Halt(false)
      else t.(pc := Delivering(i))
  {
    hide TrimSpace, Target.Key, Tx.AfterDeliveries;
  }

  lemma AckSteps(t: Tx, r: Reply)
    requires r.verdict.Fine?
    ensures t.pc.Acking? ==> t.Step(r) == t.(mem := t.mem.(sourceAcked := true), pc := SavingAcked)
    ensures t.pc.SavingAcked? ==> t.Step(r) == t.Saved(Fine).ToComplete()
    ensures t.pc.SavingCompleted? ==> t.Step(r) == t.Saved(Fine).Cleanup()
  {
    hide TrimSpace, Target.Key, WithReceipt, Tx.NextTarget, Tx.AfterDeliveries, Tx.AfterProcessing;
  }

  class Coordinator {
    /** The durable store, keyed by transaction. */
    var states: map<string, TxState>
    var consumers: set<string>
    /** Everything done to the outside world so far. */
    var log: seq<Effect>

    constructor (consumers: set<string>)
      ensures states == map[] && log == [] && this.consumers == consumers
    {
      states, log, this.consumers := map[], [], consumers;
    }

    /** The save of the working copy that the machine `h` is about to make. */
    method SaveStep(state: TxState, oracle: nat -> Reply, n: nat,
                    ghost h: History, ghost start: History, ghost before: map<string, TxState>)
      returns (ok: bool, ghost next: History)
      requires Follows(h, start, oracle, n, before)
      requires h.tx.Saving() && h.tx.mem == state && state.key == h.tx.key
      modifies `states
      ensures Follows(next, start, oracle, n + 1, before) && next == h.Step(oracle(n))
      ensures ok == oracle(n).verdict.Fine?
      ensures !ok ==> next.tx.pc == Halted(false)
    {
      hide Tx.Proceed, TrimSpace, Target.Key;
      ok := Save(state, oracle(n).verdict);
      next := h.Step(oracle(n));
      assert states == if next.tx.disk.Some? then before[h.tx.key := next.tx.disk.value] else before;
    }

    /** `StateStore.Save`: replaces the entry of one key, unless the write was lost. */
    method Save(state: TxState, verdict: Verdict) returns (ok: bool)
      modifies `states
      ensures ok == verdict.Fine?
      ensures states == if verdict.Landed() then old(states)[state.key := state] else old(states)
    {
      if verdict.Landed() {
        states := states[state.key := state];
      }
      ok := verdict.Fine?;
    }

    method Perform(effect: Effect, verdict: Verdict) returns (ok: bool)
      modifies `log
      ensures ok == verdict.Fine?
      ensures log == if verdict.Landed() then old(log) + [effect] else old(log)
    {
      if verdict.Landed() {
        log := log + [effect];
      }
      ok := verdict.Fine?;
    }

    /** The machine state `h` is what this object holds, with `state` as the working copy. */
    ghost predicate Mirrors(h: History, before: map<string, TxState>)
      reads this
    {
      && log == h.log
      && states == (if h.tx.disk.Some? then before[h.tx.key := h.tx.disk.value] else before)
      && (h.tx.disk.None? ==> h.tx.key !in before)
    }

    /** Answer `n` of the environment to a run that began at `start` leaves the machine at `h`. */
    ghost predicate Follows(h: History, start: History, oracle: nat -> Reply, n: nat, before: map<string, TxState>)
      reads this
    {
      h == Iterate(start, oracle, n) && Mirrors(h, before)
    }

    /** The source call that the machine `h` is about to make, with `effect` as its effect. */
    method SourceStep(effect: Effect, oracle: nat -> Reply, n: nat,
                      ghost h: History, ghost start: History, ghost before: map<string, TxState>)
      returns (ok: bool, ghost next: History)
      requires Follows(h, start, oracle, n, before)
      requires (h.tx.pc.Acking? && effect == Acked) || (h.tx.pc.Deleting? && effect == Deleted)
      modifies `log
      ensures Follows(next, start, oracle, n + 1, before) && next == h.Step(oracle(n))
      ensures ok == oracle(n).verdict.Fine?
      ensures !ok ==> next.tx.pc == Halted(false)
    {
      hide Tx.Proceed, TrimSpace, Target.Key;
      ok := Perform(effect, oracle(n).verdict);
      next := h.Step(oracle(n));
      assert log == h.log + h.tx.Emits(oracle(n));
    }

    /** `finalizeSourceAcknowledge`. */
    method Finalize(source: Source, oracle: nat -> Reply, n0: nat,
                    ghost h0: History, ghost start: History, ghost before: map<string, TxState>)
      returns (ok: bool, n: nat, ghost h: History)
      requires Follows(h0, start, oracle, n0, before)
      requires source == h0.tx.job.envelope.source && h0.tx == h0.tx.Cleanup()
      ensures Follows(h, start, oracle, n, before)
      ensures h.tx.pc == Halted(ok) && h.tx.mem == h0.tx.mem
      ensures ok == (source.Source? && source.finalizer ==> oracle(n0).verdict.Fine?)
      ensures n == n0 + if source.Source? && source.finalizer then 1 else 0
    {
      hide Tx.NextTarget, Tx.AfterDeliveries, Tx.AfterProcessing, TrimSpace, Target.Key;
      n, h, ok := n0, h0, true;
      if source.Source? && source.finalizer {
        ok := oracle(n).verdict.Fine?;
        h, n := h.Step(oracle(n)), n + 1;
      }
    }

    /** `ackAndComplete`, with `state0` as the working copy. */
    method AckAndComplete(state0: TxState, source: Source, oracle: nat -> Reply, n0: nat,
                          ghost h0: History, ghost start: History, ghost before: map<string, TxState>)
      returns (ok: bool, state: TxState, n: nat, ghost h: History)
      requires Follows(h0, start, oracle, n0, before) && state0.key == h0.tx.key
      requires source == h0.tx.job.envelope.source && h0.tx == h0.tx.(mem := state0).ToAck()
      modifies `states, `log
      ensures Follows(h, start, oracle, n, before)
      ensures h.tx.pc == Halted(ok) && (ok ==> h.tx.mem == state)
    {
      hide Tx.Step, Tx.Proceed, TrimSpace, Iterate, Mirrors, Follows;
      state, n, h, ok := state0, n0, h0, false;
      if !state.sourceAcked {
        if source.Source? {
          var acked;
          acked, h := SourceStep(Acked, oracle, n, h, start, before);
          n := n + 1;
          if !acked {
            return;
          }
          AckSteps(h0.tx, oracle(n0));
        }
        state := state.(sourceAcked := true);
        var saved;
        ghost var t := h.tx;
        saved, h := SaveStep(state, oracle, n, h, start, before);
        n := n + 1;
        if !saved {
          return;
        }
        AckSteps(t, oracle(n - 1));
      }
      state := state.(completed := true);
      var saved;
      ghost var t := h.tx;
      saved, h := SaveStep(state, oracle, n, h, start, before);
      n := n + 1;
      if !saved {
        return;
      }
      AckSteps(t, oracle(n - 1));
      ok, n, h := Finalize(source, oracle, n, h, start, before);
    }

    /** The consumer call for target `i`. */
    method ConsumeStep(target: Target, oracle: nat -> Reply, n: nat,
                       ghost h: History, ghost start: History, ghost before: map<string, TxState>)
      returns (ok: bool, ghost next: History)
      requires Follows(h, start, oracle, n, before)
      requires h.tx.pc.Delivering? && h.tx.pc.i < |h.tx.mem.plan.targets| && h.tx.mem.plan.targets[h.tx.pc.i] == target
      modifies `log
      ensures Follows(next, start, oracle, n + 1, before) && next == h.Step(oracle(n))
      ensures ok == oracle(n).verdict.Fine?
    {
      hide Tx.Proceed, Tx.NextTarget, TrimSpace, Target.Key;
      var verdict := oracle(n).verdict;
      var effect := if verdict.Failed? && !target.required then Swallowed(target.Key()) else Consumed(target.Key());
      ok := Perform(effect, verdict);
      next := h.Step(oracle(n));
      assert log == h.log + h.tx.Emits(oracle(n));
    }

    /** The loop over the targets of the plan in `state0`. */
    method Deliver(state0: TxState, envelope: Envelope, oracle: nat -> Reply, n0: nat,
                   ghost h0: History, ghost start: History, ghost before: map<string, TxState>)
      returns (done: bool, state: TxState, n: nat, ghost h: History)
      requires Follows(h0, start, oracle, n0, before) && state0.key == h0.tx.key
      requires h0.tx == h0.tx.(mem := state0).NextTarget(0)
      requires h0.tx.job == Job(envelope, consumers)
      modifies `states, `log
      ensures Follows(h, start, oracle, n, before) && state.key == h.tx.key && h.tx.job == h0.tx.job
      ensures if done then h.tx == h.tx.(mem := state).AfterDeliveries() else h.tx.pc == Halted(false)
    {
      hide Tx.AfterDeliveries, TrimSpace, Target.Key, Iterate, Mirrors, Follows, WithReceipt, Tx.Step, Tx.Proceed;
      hide Tx.NextTarget, FilledReceipt;
      state, n, h := state0, n0, h0;
      var i := 0;
      while i < |state.plan.targets|
        invariant i <= |state.plan.targets| && state.key == h.tx.key && h.tx.job == h0.tx.job
        invariant Follows(h, start, oracle, n, before)
        invariant h.tx == h.tx.(mem := state).NextTarget(i)
        decreases |state0.plan.targets| - i
        invariant state.plan == state0.plan
      {
        var target := state.plan.targets[i];
        NextTargetCases(h.tx.(mem := state), i);
        i := i + 1;
        if target.Key() in state.deliveries {
          continue;
        }
        if TrimSpace(target.consumer) !in consumers {
          return false, state, n, h;
        }
        var consumed;
        ghost var t := h.tx;
        var r := oracle(n);
        DeliveryStep(t, r);
        consumed, h := ConsumeStep(target, oracle, n, h, start, before);
        n := n + 1;
        if !consumed {
          NextTargetAgain(t, i);
          if target.required || r.verdict.Killed? {
            return false, state, n, h;
          }
          continue;
        }
        ReceiptAdds(state, target, r.receipt);
        state := WithReceipt(state, target, r.receipt);
        var saved;
        t := h.tx;
        saved, h := SaveStep(state, oracle, n, h, start, before);
        n := n + 1;
        if !saved {
          return false, state, n, h;
        }
        ReceiptStep(t, oracle(n - 1));
        NextTargetAgain(t.Saved(Fine), i);
      }
      NextTargetCases(h.tx.(mem := state), i);
      done := true;
    }

    /** From the last delivery on: the deletion, if due, and the acknowledgement. */
    method Close(state0: TxState, envelope: Envelope, oracle: nat -> Reply, n0: nat,
                 ghost h0: History, ghost start: History, ghost before: map<string, TxState>)
      returns (ok: bool, state: TxState, n: nat, ghost h: History)
      requires Follows(h0, start, oracle, n0, before) && state0.key == h0.tx.key
      requires h0.tx == h0.tx.(mem := state0).AfterDeliveries() && h0.tx.job.envelope == envelope
      modifies `states, `log
      ensures Follows(h, start, oracle, n, before)
      ensures h.tx.pc == Halted(ok)
      ensures ok ==> h.tx.mem == state
    {
      hide Tx.NextTarget, Tx.AfterProcessing, Tx.AfterLoad, TrimSpace, Target.Key, WithReceipt;
      hide Iterate, Mirrors, Follows, TxState.HasRequired, TxState.Eligible;
      state, n, h, ok := state0, n0, h0, false;
      if !state.HasRequired() {
        return true, state, n, h;
      }
      if !envelope.AllowsDelete(state.plan.deleteSource) {
        return;
      }
      if !state.sourceDeleted && state.ShouldDelete() {
        var deleted, saved;
        deleted, h := SourceStep(Deleted, oracle, n, h, start, before);
        n := n + 1;
        if !deleted {
          return;
        }
        state := state.(sourceDeleted := true);
        saved, h := SaveStep(state, oracle, n, h, start, before);
        n := n + 1;
        if !saved {
          return;
        }
      }
      ok, state, n, h := AckAndComplete(state, envelope.source, oracle, n, h, start, before);
    }

    /** The processor call itself. */
    method CallProcessor(oracle: nat -> Reply, n: nat,
                         ghost h: History, ghost start: History, ghost before: map<string, TxState>)
      returns (ok: bool, ghost next: History)
      requires Follows(h, start, oracle, n, before) && h.tx.pc.Processing?
      modifies `log
      ensures Follows(next, start, oracle, n + 1, before) && next == h.Step(oracle(n))
      ensures ok == oracle(n).verdict.Fine?
    {
      hide Tx.Proceed, TrimSpace, Target.Key;
      var r := oracle(n);
      log := log + [Processed] + if r.verdict.Fine? && r.processing.Skip? then [Skipped] else [];
      ok := r.verdict.Fine?;
      next := h.Step(r);
      assert log == h.log + h.tx.Emits(r);
    }

    /** The processor call, and the save of the plan it fixes on the first run. */
    method ProcessStep(state0: TxState, envelope: Envelope, oracle: nat -> Reply, n0: nat,
                       ghost h0: History, ghost start: History, ghost before: map<string, TxState>)
      returns (verdict: ProcessOutcome, state: TxState, n: nat, ghost h: History)
      requires Follows(h0, start, oracle, n0, before) && state0.key == h0.tx.key
      requires h0.tx.pc.Processing? && h0.tx.mem == state0 && h0.tx.job.envelope == envelope
      modifies `states, `log
      ensures Follows(h, start, oracle, n, before) && state.key == h.tx.key && h.tx.job == h0.tx.job
      ensures match verdict
        case Stop => h.tx.pc == Halted(false)
        case Settle => h.tx == h.tx.(mem := state).ToAck()
        case Go => h.tx == h.tx.(mem := state).EnterDeliveries()
    {
      hide Tx.NextTarget, Tx.AfterDeliveries, TrimSpace, Target.Key, WithReceipt, TxState.HasRequired;
      hide Iterate, Mirrors, Follows;
      state, n, h, verdict := state0, n0, h0, Stop;
      var r := oracle(n);
      var processed;
      processed, h := CallProcessor(oracle, n, h, start, before);
      n := n + 1;
      if !processed {
        return;
      }
      match r.processing
      case Skip(trace) =>
        state := state.(
          trace := if trace.transactionKey != "" then trace else envelope.trace,
          skipped := true);
        return Settle, state, n, h;
      case Produced(trace, plan, hasMime) =>
        var planOk := plan.Validate();
        if !(TrimSpace(trace.transactionKey) != "" && planOk && hasMime) || trace.transactionKey != state.key {
          return;
        }
        NextTargetAgain(h0.tx, 0);
        if |state.plan.targets| == 0 {
          state := state.(trace := trace, skipped := false, plan := plan);
          var saved;
          ghost var t := h.tx.Saved(oracle(n).verdict);
          saved, h := SaveStep(state, oracle, n, h, start, before);
          n := n + 1;
          if !saved {
            return;
          }
          NextTargetAgain(t, 0);
        } else if state.plan != plan {
          return;
        }
        verdict := Go;
    }

    /** Every stored state is filed under its own key and sound. */
    ghost predicate Valid()
      reads this
    {
      forall k | k in states :: states[k].key == k && Sound(states[k])
    }

    /** The body of `Run`, once the envelope has been accepted. */
    method RunLoaded(envelope: Envelope, oracle: nat -> Reply, ghost start: History)
      returns (ok: bool, state: TxState, n: nat, ghost h: History)
      requires Valid() && envelope.Valid()
      requires start == Entry(states, log, Job(envelope, consumers))
      modifies `states, `log
      ensures Follows(h, start, oracle, n, old(states)) && h.tx.pc == Halted(ok)
      ensures ok ==> h.tx.mem == state
    {
      hide Tx.NextTarget, Tx.AfterDeliveries, Tx.AfterProcessing, TrimSpace, Target.Key, TxState.HasRequired, Sound;
      var key := TrimSpace(envelope.trace.transactionKey);
      ghost var before := states;
      h := start;
      state, n, ok := FreshState(key), 0, false;
      var r := oracle(n);
      h, n := h.Step(r), 1;
      assert h == Iterate(start, oracle, 1);
      assert Follows(h, start, oracle, n, before);
      hide Iterate, Mirrors, Follows;
      if !r.verdict.Fine? {
        return;
      }
      if key in states {
        state := states[key];
      }
      AfterDeliveriesAgain(start.tx.(mem := state));
      if state.completed {
        ok, n, h := Finalize(envelope.source, oracle, n, h, start, before);
        return;
      }
      if |state.plan.targets| == 0 || !state.HasRequired() {
        var outcome;
        outcome, state, n, h := ProcessStep(state, envelope, oracle, n, h, start, before);
        match outcome
        case Stop => return;
        case Settle =>
          ok, state, n, h := AckAndComplete(state, envelope.source, oracle, n, h, start, before);
          return;
        case Go =>
          if !envelope.AllowsDelete(state.plan.deleteSource) {
            return;
          }
          var delivered;
          delivered, state, n, h := Deliver(state, envelope, oracle, n, h, start, before);
          if !delivered {
            return;
          }
      }
      ok, state, n, h := Close(state, envelope, oracle, n, h, start, before);
    }

    /** `Coordinator.Run`: drives one mail, answered by `oracle`, until it completes or stops. The run
        takes exactly the course of the machine and leaves every other transaction alone; without an
        error it ends with the completed state in the store. */
    method Run(envelope: Envelope, oracle: nat -> Reply) returns (ok: bool, state: TxState, n: nat)
      requires Valid()
      modifies `states, `log
      ensures Valid()
      ensures var key := TrimSpace(envelope.trace.transactionKey);
        var h := Iterate(Entry(old(states), old(log), Job(envelope, consumers)), oracle, n);
        && h.tx.pc == Halted(ok) && log == h.log
        && Lookup(states, key) == h.tx.disk
        && states - {key} == old(states) - {key}
        && (ok ==> key in states && states[key] == state && state.completed)
      ensures !envelope.hasMime || TrimSpace(envelope.trace.transactionKey) == "" ==>
        !ok && n == 0 && states == old(states) && log == old(log)
    {
      hide TrimSpace, Target.Key, Tx.Begin, Tx.Step, Sound;
      ghost var key := TrimSpace(envelope.trace.transactionKey);
      ghost var start := Entry(states, log, Job(envelope, consumers));
      EntryKeeps(states, log, Job(envelope, consumers));
      if !envelope.Valid() {
        return false, FreshState(""), 0;
      }
      ghost var h;
      ok, state, n, h := RunLoaded(envelope, oracle, start);
      IterateKeeps(start, oracle, n);
    }
  }

  lemma EntryKeeps(states: map<string, TxState>, log: seq<Effect>, job: Job)
    requires forall k | k in states :: states[k].key == k && Sound(states[k])
    ensures var h := Entry(states, log, job);
      && Inv(h.tx) && h.tx.key == TrimSpace(job.envelope.trace.transactionKey)
      && h.tx.disk == Lookup(states, h.tx.key) && h.log == log
      && (!job.envelope.Valid() ==> h.tx.pc == Halted(false))
  {
    hide TrimSpace, Target.Key, Target.Valid, Sound;
  }

  lemma {:induction false} IterateKeeps(h: History, oracle: nat -> Reply, n: nat)
    requires Inv(h.tx)
    ensures Inv(Iterate(h, oracle, n).tx) && Iterate(h, oracle, n).tx.key == h.tx.key
  {
    hide TrimSpace, Target.Key, Tx.Step, Inv;
    if n > 0 {
      IterateKeeps(h, oracle, n - 1);
      StepKeeps(Iterate(h, oracle, n - 1).tx, oracle(n - 1));
    }
  }

  /** How the processing part of a run ends. */
  datatype ProcessOutcome = Stop | Settle | Go
}
