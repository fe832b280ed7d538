/** A polling source that is only ever given new messages: none of them blocks it. */
module PollFresh {
  import opened Text
  import opened Transaction
  import opened TransactionInvariant
  import opened TransactionEffects
  import opened PollingProducer
  import opened PollSystem
  import opened PollTheorems
  import opened PollRounds

  ghost predicate Listed(messages: seq<Message>, id: string) {
    exists m | m in messages :: m.id == id
  }

  /** The messages to come are all new: distinct, and none acknowledged. */
  ghost predicate AllNew(c: Setting, s: Sys, messages: seq<Message>) {
    Distinct(messages) && forall m | m in messages :: !TxOf(c, s, m.id).tx.Stored().sourceAcked
  }

  ghost predicate FreshInv(c: Setting, s: Sys) {
    && SysInv(c, s) && AllNew(c, s, s.poll.pending)
    && (s.worker.Some? ==>
          var t := TxOf(c, s, s.worker.value).tx;
          t.job.envelope.source.Source? && (!BeforeAck(t.pc) ==> !Listed(s.poll.pending, s.worker.value)))
  }

  /** The batch that this move fetches, if it does. */
  predicate Fetches(s: Sys, m: Move) {
    m.Take? && s.worker.None? && s.poll.pending == [] && m.fetch.Fetched?
  }

  lemma HeadIsGone(pending: seq<Message>)
    requires pending != [] && Distinct(pending)
    ensures Distinct(pending[1..]) && !Listed(pending[1..], pending[0].id)
  {
  }

  lemma NewStays(c: Setting, s: Sys, u: Sys, id: string)
    requires AllNew(c, s, s.poll.pending) && forall k | k != id :: TxOf(c, u, k) == TxOf(c, s, k)
    requires u.poll.pending == s.poll.pending
      || (s.poll.pending != [] && u.poll.pending == s.poll.pending[1..])
    requires Listed(u.poll.pending, id) ==> !TxOf(c, u, id).tx.Stored().sourceAcked
    ensures AllNew(c, u, u.poll.pending)
  {
    hide TxOf;
    forall m | m in u.poll.pending ensures !TxOf(c, u, m.id).tx.Stored().sourceAcked {
      assert m in s.poll.pending;
    }
  }

  /** The acknowledgement of the message in hand: it takes the message off the list, or fails. */
  lemma FreshAck(c: Setting, s: Sys, id: string, r: Reply)
    requires FreshInv(c, s) && s.worker == Some(id) && TxOf(c, s, id).tx.pc.Acking?
    ensures var u := WorkStep(c, s, id, r);
      && (u.poll.pending == s.poll.pending || (s.poll.pending != [] && u.poll.pending == s.poll.pending[1..]))
      && (Listed(u.poll.pending, id) ==> !TxOf(c, u, id).tx.Stored().sourceAcked)
      && (u.worker.Some? ==> !Listed(u.poll.pending, id))
  {
    hide TrimSpace, Tx.Step, AfterAck, IsLife, SysInv, Inv, Distinct, Listed;
    var t := TxOf(c, s, id).tx;
    WorkerIsHead(c, s);
    LifeFacts(c.txKey(id), s.txs[id]);
    WorkMoves(c, s, id, r);
    AckedHead(s.poll);
    AckEnds(t, r);
    HeadIsGone(s.poll.pending);
    assert s.poll.pending[0] in s.poll.pending;
  }

  /** Any other call of the worker leaves the list alone. */
  lemma FreshCall(c: Setting, s: Sys, id: string, r: Reply)
    requires FreshInv(c, s) && s.worker == Some(id) && !TxOf(c, s, id).tx.pc.Acking?
    ensures var u := WorkStep(c, s, id, r);
      && u.poll == s.poll
      && (Listed(u.poll.pending, id) ==> !TxOf(c, u, id).tx.Stored().sourceAcked)
      && (u.worker.Some? && !BeforeAck(TxOf(c, u, id).tx.pc) ==> !Listed(u.poll.pending, id))
  {
    hide TrimSpace, Tx.Step, AfterAck, IsLife, SysInv, Inv, Distinct, Listed, BeforeAck;
    var t := TxOf(c, s, id).tx;
    WorkerIsHead(c, s);
    LifeFacts(c.txKey(id), s.txs[id]);
    WorkMoves(c, s, id, r);
    if BeforeAck(t.pc) {
      assert s.poll.pending[0] in s.poll.pending;
      StaysAhead(t, r);
    } else {
      BackOfAck(t, r);
    }
  }

  lemma FreshWork(c: Setting, s: Sys, r: Reply)
    requires FreshInv(c, s) && s.worker.Some?
    ensures FreshInv(c, WorkStep(c, s, s.worker.value, r))
  {
    hide TrimSpace, Tx.Step, AfterAck, IsLife, SysInv, Inv, Distinct, Listed, BeforeAck, AllNew;
    var id := s.worker.value;
    var u := WorkStep(c, s, id, r);
    WorkKeeps(c, s, id, r);
    WorkMoves(c, s, id, r);
    if TxOf(c, s, id).tx.pc.Acking? {
      FreshAck(c, s, id, r);
    } else {
      FreshCall(c, s, id, r);
    }
    assert forall k | k != id :: TxOf(c, u, k) == TxOf(c, s, k);
    NewStays(c, s, u, id);
  }

  /** Fetching and starting on a message; what is fetched must be new. */
  lemma FreshTake(c: Setting, s: Sys, m: Move)
    requires FreshInv(c, s) && m.Take?
    requires Fetches(s, m) ==> AllNew(c, s, m.fetch.messages)
    ensures FreshInv(c, Next(c, s, m))
  {
    hide TrimSpace, IsLife, SysInv, Distinct, Listed, Tx.Begin;
    NextKeeps(c, s, m);
    if s.worker.None? {
      TakeLeaves(c, s, m);
      var u := Next(c, s, m);
      forall x | x in u.poll.pending ensures !TxOf(c, u, x.id).tx.Stored().sourceAcked {
        assert TxOf(c, u, x.id).tx.Stored() == TxOf(c, s, x.id).tx.Stored();
      }
    }
  }

  lemma TakeLeaves(c: Setting, s: Sys, m: Move)
    requires SysInv(c, s) && m.Take? && s.worker.None?
    ensures var u := Next(c, s, m);
      && (forall k :: TxOf(c, u, k).tx.Stored() == TxOf(c, s, k).tx.Stored())
      && (u.poll.pending == s.poll.pending
          || (Fetches(s, m) && (u.poll.pending == [] || u.poll.pending == m.fetch.messages)))
      && (u.worker.Some? ==>
            TxOf(c, u, u.worker.value).tx.job.envelope.source.Source?
            && BeforeAck(TxOf(c, u, u.worker.value).tx.pc))
  {
    hide TrimSpace, SysInv, NextOf, Tx.Begin;
    var out := NextOf(s.poll, c.includeExisting, m.fetch, m.save).1;
    ListLeaves(s.poll, c.includeExisting, m.fetch, m.save);
    if out.Emit? {
      HaltedLife(c, s, out.message.id);
      BeginLeaves(TxOf(c, s, out.message.id).tx, m.job);
    }
  }

  lemma ListLeaves(s: PollState, includeExisting: bool, fetch: Fetch, save: Verdict)
    ensures var poll := NextOf(s, includeExisting, fetch, save).0;
      poll.pending == s.pending
      || (s.pending == [] && fetch.Fetched? && (poll.pending == [] || poll.pending == fetch.messages))
  {
  }

  lemma BeginLeaves(t: Tx, job: Job)
    requires t.pc.Halted?
    ensures t.Begin(job).Stored() == t.Stored()
    ensures !t.Begin(job).pc.Halted? ==> t.Begin(job).job == job && BeforeAck(t.Begin(job).pc)
  {
    hide TrimSpace;
  }

  lemma FreshMove(c: Setting, s: Sys, m: Move)
    requires FreshInv(c, s)
    requires Fetches(s, m) ==> AllNew(c, s, m.fetch.messages)
    ensures FreshInv(c, Next(c, s, m))
  {
    hide TrimSpace, FreshInv, AllNew, WorkStep, Tx.Begin, NextOf;
    match m
    case Take(_, _, _) => FreshTake(c, s, m);
    case Work(r) => if s.worker.Some? { FreshWork(c, s, r); }
    case Restart(landed) =>
      if s.worker.Some? {
        FreshWork(c, s, Death(landed));
        assert FreshInv(c, s) ==> SysInv(c, s) by { FreshIsSound(c, s); }
        RestartKeeps(c, s, landed);
      }
  }

  lemma FreshIsSound(c: Setting, s: Sys)
    ensures FreshInv(c, s) ==> SysInv(c, s)
  {
    hide SysInv, AllNew;
  }

  /** A source that is only given new messages is never blocked. */
  lemma FreshIsNotBlocked(c: Setting, s: Sys, id: string)
    requires FreshInv(c, s)
    ensures !Blocked(c, s, id)
  {
    hide SysInv, TxOf, Distinct;
  }
}
