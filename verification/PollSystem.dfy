/** A polling source end to end: the durable batch, one worker driving transactions, restarts. */
module PollSystem {
  import opened Text
  import opened Mailflow
  import opened Transaction
  import opened TransactionInvariant
  import opened TransactionEffects
  import opened PollingProducer

  datatype Setting = Setting(includeExisting: bool, txKey: string -> string)

  /** `batch` is the batch that was fetched last, in full. */
  datatype Sys = Sys(poll: PollState, batch: seq<Message>, worker: Option<string>, txs: map<string, History>)

  datatype Move =
    | Take(fetch: Fetch, save: Verdict, job: Job)
    | Work(reply: Reply)
    | Restart(landed: bool)

  function TxOf(c: Setting, s: Sys, id: string): History {
    if id in s.txs then s.txs[id] else NewHistory(c.txKey(id))
  }

  /** An envelope that the producer can have built for message `id`. */
  predicate ForMessage(c: Setting, job: Job, id: string) {
    TrimSpace(job.envelope.trace.transactionKey) == c.txKey(id) && job.envelope.source == Source(true, false)
  }

  function WorkStep(c: Setting, s: Sys, id: string, r: Reply): Sys {
    var h := TxOf(c, s, id);
    var next := h.Step(r);
    s.(poll := if h.tx.pc.Acking? && r.verdict.Landed() then AfterAck(s.poll, id) else s.poll,
       txs := s.txs[id := next],
       worker := if next.tx.pc.Halted? then None else Some(id))
  }

  function Next(c: Setting, s: Sys, m: Move): Sys {
    match m
    case Take(fetch, save, job) =>
      if s.worker.Some? then s
      else
        var (poll, out) := NextOf(s.poll, c.includeExisting, fetch, save);
        var batch := if s.poll.pending == [] && poll.pending != [] then poll.pending else s.batch;
        var t := s.(poll := poll, batch := batch);
        if out.Emit? && ForMessage(c, job, out.message.id) then
          var h := TxOf(c, s, out.message.id).Begin(job);
          t.(txs := s.txs[out.message.id := h], worker := if h.tx.pc.Halted? then None else Some(out.message.id))
        else t
    case Work(r) => if s.worker.None? then s else WorkStep(c, s, s.worker.value, r)
    case Restart(landed) =>
      if s.worker.None? then s else WorkStep(c, s, s.worker.value, Death(landed)).(worker := None)
  }

  function Run(c: Setting, s: Sys, moves: seq<Move>): Sys
    decreases |moves|
  {
    if moves == [] then s else Next(c, Run(c, s, moves[..|moves| - 1]), moves[|moves| - 1])
  }

  function Boot(): Sys {
    Sys(PollState("", "", []), [], None, map[])
  }

  // ---- every reachable state ----

  predicate BeforeAck(pc: Pc) {
    !pc.SavingAcked? && !pc.SavingCompleted? && !pc.Finalizing? && !pc.Halted?
  }

  /** The messages of the batch that have left the list. */
  function Gone(s: Sys): nat {
    if |s.poll.pending| <= |s.batch| then |s.batch| - |s.poll.pending| else 0
  }

  ghost predicate TxInv(c: Setting, s: Sys, id: string)
    requires id in s.txs
  {
    && IsLife(c.txKey(id), s.txs[id])
    && (s.worker == Some(id) <==> !s.txs[id].tx.pc.Halted?)
  }

  ghost predicate SysInv(c: Setting, s: Sys) {
    && (forall id | id in s.txs :: TxInv(c, s, id))
    && (s.worker.Some? ==> s.worker.value in s.txs)
    && (s.worker.Some? && BeforeAck(s.txs[s.worker.value].tx.pc) ==>
          s.poll.pending != [] && s.poll.pending[0].id == s.worker.value)
    && |s.poll.pending| <= |s.batch| && s.poll.pending == s.batch[Gone(s)..]
    && (forall i | 0 <= i < Gone(s) :: Accounted(TxOf(c, s, s.batch[i].id)))
  }

  lemma BackOfAck(t: Tx, r: Reply)
    requires !BeforeAck(t.pc)
    ensures !BeforeAck(t.Step(r).pc)
  {
    hide TrimSpace, Target.Key, Tx.NextTarget, Tx.AfterDeliveries, Tx.AfterProcessing;
  }

  lemma LeavingAck(t: Tx, r: Reply)
    requires t.pc.Acking?
    ensures !BeforeAck(t.Step(r).pc)
  {
    hide TrimSpace, Target.Key, Tx.NextTarget, Tx.AfterDeliveries, Tx.AfterProcessing;
  }

  lemma AckFacts(key: string, h: History, r: Reply)
    requires IsLife(key, h)
    ensures h.tx.pc.Acking? ==> Accounted(h)
    ensures Accounted(h) ==> Accounted(h.Step(r))
  {
    hide TrimSpace, Tx.Step, Inv;
    var events :| h == Life(NewHistory(key), events);
    LifeAccounted(key, events);
    AckStep(h, r);
  }

  lemma WorkKeeps(c: Setting, s: Sys, id: string, r: Reply)
    requires SysInv(c, s) && s.worker == Some(id)
    ensures SysInv(c, WorkStep(c, s, id, r))
  {
    hide TrimSpace, Tx.Step, IsLife, Accounted, AfterAck;
    var h, t := s.txs[id], WorkStep(c, s, id, r);
    assert TxInv(c, s, id);
    ApplyIsLife(c.txKey(id), h, Answer(r));
    AckFacts(c.txKey(id), h, r);
    if !BeforeAck(h.tx.pc) {
      BackOfAck(h.tx, r);
    }
    if h.tx.pc.Acking? {
      LeavingAck(h.tx, r);
      AckedHead(s.poll);
    }
    forall k | k in t.txs ensures TxInv(c, t, k) {
      assert k != id ==> TxInv(c, s, k);
    }
    forall i | 0 <= i < Gone(t) ensures Accounted(TxOf(c, t, t.batch[i].id)) {
      assert i < Gone(s) || t.batch[i] == s.poll.pending[0];
    }
  }

  lemma StartKeeps(c: Setting, s: Sys, id: string, job: Job)
    requires SysInv(c, s) && s.worker.None?
    ensures var h := TxOf(c, s, id).Begin(job);
      && IsLife(c.txKey(id), h) && (Accounted(TxOf(c, s, id)) ==> Accounted(h))
      && TxOf(c, s, id).tx.pc.Halted?
  {
    hide TrimSpace, Tx.Begin, IsLife;
    NewIsLife(c.txKey(id));
    assert id in s.txs ==> TxInv(c, s, id);
    ApplyIsLife(c.txKey(id), TxOf(c, s, id), Start(job));
  }

  lemma ListFacts(s: PollState, includeExisting: bool, fetch: Fetch, save: Verdict)
    ensures var (poll, out) := NextOf(s, includeExisting, fetch, save);
      && (s.pending != [] ==> poll == s)
      && (out.Emit? ==> poll.pending != [] && poll.pending[0] == out.message)
  {
  }

  lemma TakeLives(c: Setting, s: Sys, fetch: Fetch, save: Verdict, job: Job)
    requires SysInv(c, s) && s.worker.None?
    ensures var t := Next(c, s, Take(fetch, save, job));
      && (forall k | k in t.txs :: TxInv(c, t, k))
      && (forall k :: Accounted(TxOf(c, s, k)) ==> Accounted(TxOf(c, t, k)))
  {
    hide TrimSpace, Tx.Begin, IsLife, ForMessage, Accounted, NextOf;
    var t := Next(c, s, Take(fetch, save, job));
    var out := NextOf(s.poll, c.includeExisting, fetch, save).1;
    if out.Emit? {
      StartKeeps(c, s, out.message.id, job);
    }
    forall k | k in t.txs ensures TxInv(c, t, k) {
      assert k in s.txs ==> TxInv(c, s, k);
    }
  }

  lemma TakeKeeps(c: Setting, s: Sys, fetch: Fetch, save: Verdict, job: Job)
    requires SysInv(c, s)
    ensures SysInv(c, Next(c, s, Take(fetch, save, job)))
  {
    hide TrimSpace, Tx.Begin, TxInv, ForMessage, Accounted, NextOf;
    if s.worker.None? {
      ListFacts(s.poll, c.includeExisting, fetch, save);
      TakeLives(c, s, fetch, save, job);
      TakeAccounts(c, s, Next(c, s, Take(fetch, save, job)));
    }
  }

  /** Fetching or starting on a message leaves the accounts in order. */
  lemma TakeAccounts(c: Setting, s: Sys, t: Sys)
    requires forall i | 0 <= i < Gone(s) :: Accounted(TxOf(c, s, s.batch[i].id))
    requires |s.poll.pending| <= |s.batch|
    requires s.poll.pending != [] ==> t.poll == s.poll
    requires t.batch == if s.poll.pending == [] && t.poll.pending != [] then t.poll.pending else s.batch
    requires forall id :: Accounted(TxOf(c, s, id)) ==> Accounted(TxOf(c, t, id))
    ensures forall i | 0 <= i < Gone(t) :: Accounted(TxOf(c, t, t.batch[i].id))
  {
    hide Accounted, TxOf;
  }

  lemma NextKeeps(c: Setting, s: Sys, m: Move)
    requires SysInv(c, s)
    ensures SysInv(c, Next(c, s, m))
  {
    hide TrimSpace, Tx.Begin, Tx.Step, IsLife, Accounted, WorkStep;
    match m
    case Take(fetch, save, job) => TakeKeeps(c, s, fetch, save, job);
    case Work(r) => if s.worker.Some? { WorkKeeps(c, s, s.worker.value, r); }
    case Restart(landed) => if s.worker.Some? { RestartKeeps(c, s, landed); }
  }

  lemma RestartKeeps(c: Setting, s: Sys, landed: bool)
    requires SysInv(c, s) && s.worker.Some?
    ensures SysInv(c, Next(c, s, Restart(landed)))
    ensures Next(c, s, Restart(landed)) == WorkStep(c, s, s.worker.value, Death(landed))
  {
    hide TrimSpace, IsLife, Accounted, Tx.NextTarget, Tx.Proceed, Target.Key;
    WorkKeeps(c, s, s.worker.value, Death(landed));
  }
}
