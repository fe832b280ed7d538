/** The runner: a producer and a coordinator, one after the other, take the course of the polling
    machine. */
module RunnerOnce {
  import opened Text
  import opened Mailflow
  import opened Transaction
  import opened TransactionEffects
  import opened CoordinatorRun
  import opened CoordinatorLives
  import opened Recovery
  import opened PollingProducer
  import opened PollSystem
  import opened PollTheorems
  import opened PollRounds

  // ---- a played run is an iterated one ----

  lemma {:induction false} HaltedFrom(h: History, oracle: nat -> Reply, k: nat, n: nat)
    requires k <= n && Iterate(h, oracle, k).tx.pc.Halted?
    ensures Iterate(h, oracle, n).tx == Iterate(h, oracle, k).tx
    ensures Iterate(h, oracle, n).log == Iterate(h, oracle, k).log
  {
    hide History.Step;
    if k < n {
      HaltedFrom(h, oracle, k, n - 1);
      HaltedStep(Iterate(h, oracle, n - 1), oracle(n - 1));
    }
  }

  lemma HaltedStep(h: History, r: Reply)
    requires h.tx.pc.Halted?
    ensures h.Step(r).tx == h.tx && h.Step(r).log == h.log
  {
    hide TrimSpace, Target.Key, Tx.Proceed, Tx.NextTarget;
  }

  /** What one call of the worker does to the list. */
  lemma CallFacts(c: Setting, s: Sys, id: string, r: Reply)
    ensures var h, u := TxOf(c, s, id), WorkStep(c, s, id, r);
      && TxOf(c, u, id) == h.Step(r) && Others(c, s, u, id)
      && u.worker == (if h.Step(r).tx.pc.Halted? then None else Some(id))
      && u.poll == (if Acked in h.tx.Emits(r) then AfterAck(s.poll, id) else s.poll)
      && (Acked in h.tx.Emits(r) ==> BeforeAck(h.tx.pc) && !BeforeAck(h.Step(r).tx.pc))
      && (!BeforeAck(h.tx.pc) ==> !BeforeAck(h.Step(r).tx.pc))
  {
    hide TrimSpace, Target.Key, Tx.Step, AfterAck;
    var t := TxOf(c, s, id).tx;
    if t.pc.Acking? {
      LeavingAck(t, r);
    }
    if !BeforeAck(t.pc) {
      BackOfAck(t, r);
    }
  }

  /** The worker, `k` calls into the run that began at `h0` with the list `p0`. */
  ghost predicate At(c: Setting, s: Sys, id: string, h0: History, p0: PollState, oracle: nat -> Reply, k: nat) {
    var h := TxOf(c, s, id);
    && h == Iterate(h0, oracle, k) && h0.log <= h.log
    && s.worker == (if h.tx.pc.Halted? then None else Some(id))
    && s.poll == (if Acked in h.log[|h0.log|..] then AfterAck(p0, id) else p0)
    && (Acked in h.log[|h0.log|..] ==> !BeforeAck(h.tx.pc))
  }

  lemma AtNext(c: Setting, s: Sys, id: string, h0: History, p0: PollState, oracle: nat -> Reply, k: nat)
    requires At(c, s, id, h0, p0, oracle, k) && s.worker.Some?
    ensures At(c, WorkStep(c, s, id, oracle(k)), id, h0, p0, oracle, k + 1)
    ensures Others(c, s, WorkStep(c, s, id, oracle(k)), id)
  {
    hide TrimSpace, Tx.Step, Tx.Emits, AfterAck, WorkStep, TxOf, BeforeAck;
    var h, r := TxOf(c, s, id), oracle(k);
    CallFacts(c, s, id, r);
    assert h.Step(r).log[|h0.log|..] == h.log[|h0.log|..] + h.tx.Emits(r);
  }

  lemma {:induction false} PlayIterates(c: Setting, s: Sys, id: string, h0: History, p0: PollState,
                                        oracle: nat -> Reply, k: nat, n: nat)
    requires At(c, s, id, h0, p0, oracle, k) && k <= n && Iterate(h0, oracle, n).tx.pc.Halted?
    ensures var t, g := Play(c, s, oracle, k), Iterate(h0, oracle, n);
      && t.worker.None? && Others(c, s, t, id) && h0.log <= g.log
      && TxOf(c, t, id).tx == g.tx && TxOf(c, t, id).log == g.log
      && t.poll == if Acked in g.log[|h0.log|..] then AfterAck(p0, id) else p0
    decreases n - k
  {
    hide TrimSpace, Tx.Step, Tx.Emits, AfterAck, WorkStep, TxOf, BeforeAck, Iterate;
    if s.worker.None? {
      HaltedFrom(h0, oracle, k, n);
    } else {
      AtNext(c, s, id, h0, p0, oracle, k);
      PlayIterates(c, WorkStep(c, s, id, oracle(k)), id, h0, p0, oracle, k + 1, n);
    }
  }

  // ---- the runner ----

  /** The machine `s` stands for this producer and this store. */
  ghost predicate StandsFor(c: Setting, s: Sys, poll: PollState, states: map<string, TxState>) {
    && SysInv(c, s) && s.worker.None? && s.poll == poll
    && forall id :: TxOf(c, s, id).tx.disk == Lookup(states, c.txKey(id))
  }

  ghost predicate Injective(c: Setting) {
    forall a, b :: c.txKey(a) == c.txKey(b) ==> a == b
  }

  /** A round of the machine: the next message is taken, and its run played to the end. */
  function Turn(c: Setting, s: Sys, fetch: Fetch, save: Verdict, job: Job, oracle: nat -> Reply): Sys {
    Play(c, Next(c, s, Take(fetch, save, job)), oracle, 0)
  }

  lemma {:induction false} TurnKeeps(c: Setting, s: Sys, oracle: nat -> Reply, n: nat)
    requires SysInv(c, s)
    ensures SysInv(c, Play(c, s, oracle, n))
    decreases if s.worker.Some? then Stage(TxOf(c, s, s.worker.value).tx) + 1 else 0,
              if s.worker.Some? then Rest(TxOf(c, s, s.worker.value).tx) else 0
  {
    hide TrimSpace, Target.Key, Tx.Step, AfterAck, IsLife, Accounted, SysInv;
    if s.worker.Some? && !TxOf(c, s, s.worker.value).tx.pc.Halted? {
      Progress(TxOf(c, s, s.worker.value).tx, oracle(n));
      WorkKeeps(c, s, s.worker.value, oracle(n));
      TurnKeeps(c, WorkStep(c, s, s.worker.value, oracle(n)), oracle, n + 1);
    }
  }

  /** A turn without a message leaves the transactions alone. */
  lemma IdleTurn(c: Setting, s: Sys, fetch: Fetch, save: Verdict, job: Job, oracle: nat -> Reply)
    requires SysInv(c, s) && s.worker.None? && !NextOf(s.poll, c.includeExisting, fetch, save).1.Emit?
    ensures var t := Turn(c, s, fetch, save, job, oracle);
      SysInv(c, t) && t.worker.None? && t.txs == s.txs && t.poll == NextOf(s.poll, c.includeExisting, fetch, save).0
  {
    hide TrimSpace, SysInv, NextOf;
    NextKeeps(c, s, Take(fetch, save, job));
  }

  /** A turn on a message is a run of the coordinator on it, with the acknowledgement that this run has
      made carried over to the list. */
  lemma BusyTurn(c: Setting, s: Sys, fetch: Fetch, save: Verdict, job: Job, oracle: nat -> Reply,
                 states: map<string, TxState>, log: seq<Effect>, n: nat)
    requires StandsFor(c, s, s.poll, states) && NextOf(s.poll, c.includeExisting, fetch, save).1.Emit?
    requires ForMessage(c, job, NextOf(s.poll, c.includeExisting, fetch, save).1.message.id) && job.envelope.Valid()
    requires Iterate(Entry(states, log, job), oracle, n).tx.pc.Halted?
    ensures var (poll, out) := NextOf(s.poll, c.includeExisting, fetch, save);
      var t, e, id := Turn(c, s, fetch, save, job, oracle), Iterate(Entry(states, log, job), oracle, n), out.message.id;
      && SysInv(c, t) && t.worker.None? && log <= e.log
      && TxOf(c, t, id).tx.disk == e.tx.disk && TxOf(c, t, id).tx.pc == e.tx.pc
      && (forall k | k != id :: TxOf(c, t, k) == TxOf(c, s, k))
      && t.poll == if Acked in e.log[|log|..] then AfterAck(poll, id) else poll
  {
    hide TrimSpace, SysInv, NextOf, TxOf, Iterate, Entry, Tx.Begin, AfterAck, Play, IsLife, Envelope.Valid;
    var (poll, out) := NextOf(s.poll, c.includeExisting, fetch, save);
    var id := out.message.id;
    var u := Next(c, s, Take(fetch, save, job));
    HaltedLife(c, s, id);
    var h := TxOf(c, s, id);
    KeyOf(c, job, id);
    RunExtendsLife(c.txKey(id), h, states, log, job, oracle, n);
    NextKeeps(c, s, Take(fetch, save, job));
    TurnKeeps(c, u, oracle, 0);
    Taken(c, s, fetch, save, job);
    assert At(c, u, id, h.Begin(job), poll, oracle, 0) by { AtStart(c, u, id, h.Begin(job), poll, oracle); }
    PlayIterates(c, u, id, h.Begin(job), poll, oracle, 0, n);
    BeginLog(h, job);
  }

  lemma BeginLog(h: History, job: Job)
    ensures h.Begin(job).log == h.log
  {
  }

  lemma AtStart(c: Setting, u: Sys, id: string, h0: History, p0: PollState, oracle: nat -> Reply)
    requires TxOf(c, u, id) == h0 && u.poll == p0
    requires u.worker == if h0.tx.pc.Halted? then None else Some(id)
    ensures At(c, u, id, h0, p0, oracle, 0)
  {
    hide AfterAck;
  }

  lemma Taken(c: Setting, s: Sys, fetch: Fetch, save: Verdict, job: Job)
    requires s.worker.None? && NextOf(s.poll, c.includeExisting, fetch, save).1.Emit?
    requires ForMessage(c, job, NextOf(s.poll, c.includeExisting, fetch, save).1.message.id)
    ensures var (poll, out) := NextOf(s.poll, c.includeExisting, fetch, save);
      var u, id := Next(c, s, Take(fetch, save, job)), out.message.id;
      && u.poll == poll && TxOf(c, u, id) == TxOf(c, s, id).Begin(job)
      && u.worker == (if TxOf(c, u, id).tx.pc.Halted? then None else Some(id))
      && forall k | k != id :: TxOf(c, u, k) == TxOf(c, s, k)
  {
    hide TrimSpace, Tx.Begin, NextOf;
  }

  class Runner {
    const producer: Producer
    const coordinator: Coordinator

    constructor (producer: Producer, coordinator: Coordinator)
      ensures this.producer == producer && this.coordinator == coordinator
    {
      this.producer, this.coordinator := producer, coordinator;
    }

    /** `Runner.RunOnce`: the producer's next message, if any, goes through the coordinator. Nothing but
        the acknowledgement touches the producer's list during the run; it is carried over when the run
        has ended. Whatever is answered, producer and store end where the machine's turn ends. */
    method RunOnce(c: Setting, envelope: string -> Envelope, fetch: Fetch, save: Verdict, oracle: nat -> Reply,
                   ghost s: Sys)
      returns (err: bool, processed: bool, state: TxState, ghost t: Sys)
      requires Injective(c) && c.includeExisting == producer.includeExisting && coordinator.Valid()
      requires StandsFor(c, s, producer.state, coordinator.states)
      requires forall id :: ForMessage(c, Job(envelope(id), coordinator.consumers), id) && envelope(id).Valid()
      modifies producer`state, coordinator`states, coordinator`log
      ensures coordinator.Valid() && StandsFor(c, t, producer.state, coordinator.states)
      ensures var out := NextOf(s.poll, c.includeExisting, fetch, save).1;
        match out
        case Fault => err && !processed && t.txs == s.txs
        case NoMessages => !err && !processed && t.txs == s.txs
        case Emit(m) =>
          && processed && t == Turn(c, s, fetch, save, Job(envelope(m.id), coordinator.consumers), oracle)
          && TxOf(c, t, m.id).tx.pc == Halted(!err)
          && (!err ==> TxOf(c, t, m.id).tx.disk == Some(state) && state.completed)
    {
      hide SysInv, NextOf, TxOf, Iterate, Entry, AfterAck, Turn, Coordinator.Valid, ForMessage, Envelope.Valid;
      hide TrimSpace;
      state := FreshState("");
      var out := producer.Next(fetch, save);
      match out
      case Fault =>
        t := Turn(c, s, fetch, save, Job(envelope(""), coordinator.consumers), oracle);
        IdleTurn(c, s, fetch, save, Job(envelope(""), coordinator.consumers), oracle);
        SameDisks(c, s, t);
        return true, false, state, t;
      case NoMessages =>
        t := Turn(c, s, fetch, save, Job(envelope(""), coordinator.consumers), oracle);
        IdleTurn(c, s, fetch, save, Job(envelope(""), coordinator.consumers), oracle);
        SameDisks(c, s, t);
        return false, false, state, t;
      case Emit(m) =>
        var job := Job(envelope(m.id), coordinator.consumers);
        ghost var poll := producer.state;
        ghost var states := coordinator.states;
        var log := coordinator.log;
        var ok, n;
        ok, state, n := coordinator.Run(envelope(m.id), oracle);
        t := Turn(c, s, fetch, save, job, oracle);
        BusyTurn(c, s, fetch, save, job, oracle, states, log, n);
        KeyOf(c, job, m.id);
        if Acked in coordinator.log[|log|..] {
          var acked := producer.Acknowledge(m.id, Fine);
          AckedState(poll, m.id);
        }
        OtherDisks(c, s, t, m.id, states, coordinator.states);
        return !ok, true, state, t;
    }
  }

  lemma AckedState(poll: PollState, id: string)
    ensures (if Has(poll.pending, id) then Store(poll, AfterAck(poll, id), Fine) else poll) == AfterAck(poll, id)
  {
  }

  lemma SameDisks(c: Setting, s: Sys, t: Sys)
    requires t.txs == s.txs
    ensures forall id :: TxOf(c, t, id).tx.disk == TxOf(c, s, id).tx.disk
  {
  }

  /** Under distinct keys the transactions of the other messages are where they were. */
  lemma OtherDisks(c: Setting, s: Sys, t: Sys, id: string, states: map<string, TxState>, after: map<string, TxState>)
    requires Injective(c) && forall k | k != id :: TxOf(c, t, k) == TxOf(c, s, k)
    requires forall k :: TxOf(c, s, k).tx.disk == Lookup(states, c.txKey(k))
    requires TxOf(c, t, id).tx.disk == Lookup(after, c.txKey(id))
    requires after - {c.txKey(id)} == states - {c.txKey(id)}
    ensures forall k :: TxOf(c, t, k).tx.disk == Lookup(after, c.txKey(k))
  {
    hide TxOf;
    forall k ensures TxOf(c, t, k).tx.disk == Lookup(after, c.txKey(k)) {
      if k != id {
        OutsideSame(states, after, c.txKey(id), c.txKey(k));
      }
    }
  }
}
