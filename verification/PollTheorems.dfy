/** What follows for a polling source: the cursor, the order of messages, and when a run makes progress. */
module PollTheorems {
  import opened Text
  import opened Mailflow
  import opened Transaction
  import opened TransactionInvariant
  import opened TransactionEffects
  import opened Recovery
  import opened PollingProducer
  import opened PollSystem

  /** In every reachable state the list is what remains of the batch, in its order, and every message
      that has left it has all its required receipts in the store or was skipped by the processor. */
  lemma {:induction false} BatchIsAccountedFor(c: Setting, moves: seq<Move>)
    ensures SysInv(c, Run(c, Boot(), moves))
    ensures var s := Run(c, Boot(), moves);
      && s.poll.pending == s.batch[Gone(s)..] && Gone(s) + |s.poll.pending| == |s.batch|
      && forall i | 0 <= i < Gone(s) :: Accounted(TxOf(c, s, s.batch[i].id))
  {
    hide Next, IsLife, Accounted, TxInv;
    if moves != [] {
      var m := Run(c, Boot(), moves[..|moves| - 1]);
      BatchIsAccountedFor(c, moves[..|moves| - 1]);
      NextKeeps(c, m, moves[|moves| - 1]);
    }
  }

  /** The last message of the batch leaves the list. */
  predicate BatchEnds(c: Setting, s: Sys, m: Move) {
    s.poll.pending != [] && Next(c, s, m).poll.pending == []
  }

  /** The server has nothing, or its first answer is passed over, and the new position is saved. */
  predicate NothingFetched(c: Setting, s: Sys, m: Move) {
    && m.Take? && s.worker.None? && s.poll.pending == []
    && m.fetch.Fetched? && (m.fetch.messages == [] || (s.poll.delta == "" && !c.includeExisting))
    && m.save.Landed()
  }

  lemma CursorStep(c: Setting, s: Sys, m: Move)
    requires SysInv(c, s)
    ensures Next(c, s, m).poll.delta ==
      if BatchEnds(c, s, m) then s.poll.next else if NothingFetched(c, s, m) then m.fetch.next else s.poll.delta
    ensures s.poll.pending != [] ==> Next(c, s, m).batch == s.batch
  {
    hide TrimSpace, Tx.Begin, Tx.Step, IsLife, Accounted, AfterAck, TxInv;
    if s.poll.pending != [] {
      AckedHead(s.poll);
    } else {
      assert AfterAck(s.poll, if s.worker.Some? then s.worker.value else "") == s.poll by { NothingToAck(s.poll); }
    }
  }

  lemma NothingToAck(s: PollState)
    requires s.pending == []
    ensures forall id :: AfterAck(s, id) == s
  {
  }

  /** The cursor moves in two cases only: to the position that came with the batch, when the last
      message of the batch leaves the list, and then every message of the batch is accounted for; or to
      the position of an answer without messages (or of a first one that is passed over). */
  lemma CursorMovesPastAccountedBatches(c: Setting, moves: seq<Move>, m: Move)
    ensures var s := Run(c, Boot(), moves);
      var t := Next(c, s, m);
      && t.poll.delta == (if BatchEnds(c, s, m) then s.poll.next
                          else if NothingFetched(c, s, m) then m.fetch.next
                          else s.poll.delta)
      && (BatchEnds(c, s, m) ==> forall i | 0 <= i < |s.batch| :: Accounted(TxOf(c, t, s.batch[i].id)))
  {
    hide Next, IsLife, Accounted, TxInv;
    var s := Run(c, Boot(), moves);
    BatchIsAccountedFor(c, moves);
    NextKeeps(c, s, m);
    CursorStep(c, s, m);
  }

  // ---- a message that was acknowledged before ----

  /** The first message of the list has a transaction that is already acknowledged. */
  ghost predicate Blocked(c: Setting, s: Sys, id: string) {
    s.poll.pending != [] && s.poll.pending[0].id == id && TxOf(c, s, id).tx.Stored().sourceAcked
  }

  lemma NoSecondAck(t: Tx)
    requires Inv(t) && t.Stored().sourceAcked
    ensures !t.pc.Acking?
  {
    hide TrimSpace, Target.Key, Sound, Extends;
  }

  lemma BlockedMove(c: Setting, s: Sys, m: Move, id: string)
    requires SysInv(c, s) && Blocked(c, s, id)
    ensures Blocked(c, Next(c, s, m), id) && Next(c, s, m).poll == s.poll
  {
    hide TrimSpace, Tx.Begin, Tx.Step, Inv, IsLife, Accounted, AfterAck, SysInv;
    if s.worker.Some? && !m.Take? {
      var w, r := s.worker.value, if m.Work? then m.reply else Death(m.landed);
      WorkerIsHead(c, s);
      var h := s.txs[w];
      LifeFacts(c.txKey(w), h);
      StepKeeps(h.tx, r);
      if w == id {
        NoSecondAck(h.tx);
      }
    }
  }

  lemma WorkerIsHead(c: Setting, s: Sys)
    requires SysInv(c, s) && s.worker.Some?
    ensures var w := s.worker.value;
      && w in s.txs && IsLife(c.txKey(w), s.txs[w]) && TxOf(c, s, w) == s.txs[w]
      && (BeforeAck(s.txs[w].tx.pc) ==> s.poll.pending != [] && s.poll.pending[0].id == w)
  {
    hide IsLife, Accounted;
    assert TxInv(c, s, s.worker.value);
  }

  /** Such a message stays at the head of the list for ever, whatever the server answers, however runs
      and saves end and wherever the process dies: the list and the cursor never change again. */
  lemma {:induction false} BlockedForEver(c: Setting, s: Sys, moves: seq<Move>, id: string)
    requires SysInv(c, s) && Blocked(c, s, id)
    ensures SysInv(c, Run(c, s, moves)) && Blocked(c, Run(c, s, moves), id) && Run(c, s, moves).poll == s.poll
    decreases |moves|
  {
    hide Next, SysInv, Blocked;
    if moves != [] {
      var m := Run(c, s, moves[..|moves| - 1]);
      BlockedForEver(c, s, moves[..|moves| - 1], id);
      NextKeeps(c, m, moves[|moves| - 1]);
      BlockedMove(c, m, moves[|moves| - 1], id);
    }
  }

  lemma CompletedIsAcked(c: Setting, s: Sys, id: string)
    requires SysInv(c, s) && TxOf(c, s, id).tx.Stored().completed
    ensures TxOf(c, s, id).tx.Stored().sourceAcked
  {
    hide IsLife, Accounted, TrimSpace;
    NewIsLife(c.txKey(id));
    assert id in s.txs ==> TxInv(c, s, id);
    LifeFacts(c.txKey(id), TxOf(c, s, id));
  }

  // ---- one fault-free round ----

  function DriveSys(c: Setting, s: Sys, calm: Calm): Sys
    decreases if s.worker.Some? then Stage(TxOf(c, s, s.worker.value).tx) + 1 else 0,
              if s.worker.Some? then Rest(TxOf(c, s, s.worker.value).tx) else 0
  {
    if s.worker.None? || TxOf(c, s, s.worker.value).tx.pc.Halted? then s
    else
      var pc := TxOf(c, s, s.worker.value).tx.pc;
      Progress(TxOf(c, s, s.worker.value).tx, calm.Answer(pc));
      DriveSys(c, WorkStep(c, s, s.worker.value, calm.Answer(pc)), calm)
  }

  lemma {:induction false} DriveGrows(h: History, calm: Calm)
    ensures |h.log| <= |Drive(h, calm).log| && Drive(h, calm).log[..|h.log|] == h.log
    ensures !BeforeAck(h.tx.pc) ==> Acked !in Drive(h, calm).log[|h.log|..]
    decreases Stage(h.tx), Rest(h.tx)
  {
    hide TrimSpace, Target.Key, Tx.Step;
    if !h.tx.pc.Halted? {
      var r := calm.Answer(h.tx.pc);
      Progress(h.tx, r);
      DriveGrows(h.Step(r), calm);
      var g := Drive(h, calm);
      assert g.log[..|h.log|] == h.Step(r).log[..|h.log|];
      if !BeforeAck(h.tx.pc) {
        BackOfAck(h.tx, r);
        assert h.Step(r).log == h.log;
      }
    }
  }

  ghost predicate Others(c: Setting, s: Sys, t: Sys, id: string) {
    && t.batch == s.batch
    && forall k | k != id :: TxOf(c, t, k) == TxOf(c, s, k)
  }

  lemma WorkFacts(c: Setting, s: Sys, id: string, r: Reply)
    requires r.verdict.Fine?
    ensures var h, u := TxOf(c, s, id), WorkStep(c, s, id, r);
      && TxOf(c, u, id) == h.Step(r) && Others(c, s, u, id)
      && u.worker == (if h.Step(r).tx.pc.Halted? then None else Some(id))
      && u.poll == (if Acked in h.tx.Emits(r) then AfterAck(s.poll, id) else s.poll)
      && (Acked in h.tx.Emits(r) ==> !BeforeAck(h.Step(r).tx.pc))
  {
    hide TrimSpace, Target.Key, Tx.Step, AfterAck;
    var t := TxOf(c, s, id).tx;
    if t.pc.Acking? {
      LeavingAck(t, r);
    }
  }

  lemma {:induction false} DriveSysRuns(c: Setting, s: Sys, id: string, calm: Calm)
    requires s.worker == Some(id) && !TxOf(c, s, id).tx.pc.Halted?
    ensures var t, h, g := DriveSys(c, s, calm), TxOf(c, s, id), Drive(TxOf(c, s, id), calm);
      && t.worker.None? && TxOf(c, t, id) == g && Others(c, s, t, id)
      && |h.log| <= |g.log|
      && t.poll == if Acked in g.log[|h.log|..] then AfterAck(s.poll, id) else s.poll
    decreases Stage(TxOf(c, s, id).tx), Rest(TxOf(c, s, id).tx)
  {
    hide TrimSpace, Target.Key, Tx.Step, Tx.Emits, AfterAck, WorkStep, TxOf, BeforeAck;
    var h := TxOf(c, s, id);
    var r := calm.Answer(h.tx.pc);
    var u := WorkStep(c, s, id, r);
    Progress(h.tx, r);
    WorkFacts(c, s, id, r);
    DriveGrows(h, calm);
    DriveGrows(h.Step(r), calm);
    var g := Drive(h, calm);
    assert g.log[|h.log|..] == h.tx.Emits(r) + g.log[|h.Step(r).log|..];
    if u.worker.Some? {
      DriveSysRuns(c, u, id, calm);
    }
  }

  /** A fault-free round on the first message of the list, from the state `s`. */
  function Round(c: Setting, s: Sys, fetch: Fetch, job: Job, calm: Calm): Sys {
    DriveSys(c, Next(c, s, Take(fetch, Fine, job)), calm)
  }

  /** The state right after a fault-free `Next`. */
  function Listed(c: Setting, s: Sys, fetch: Fetch): PollState {
    NextOf(s.poll, c.includeExisting, fetch, Fine).0
  }

  /** A round without faults completes the transaction of the message at the head of the list. It
      takes the message off the list if and only if its source was not already acknowledged by an
      earlier run. */
  lemma RoundAdvances(c: Setting, s: Sys, fetch: Fetch, job: Job, calm: Calm)
    requires SysInv(c, s) && s.worker.None?
    requires NextOf(s.poll, c.includeExisting, fetch, Fine).1.Emit?
    requires ForMessage(c, job, NextOf(s.poll, c.includeExisting, fetch, Fine).1.message.id) && job.envelope.Valid()
    requires var id := NextOf(s.poll, c.includeExisting, fetch, Fine).1.message.id;
      Ready(TxOf(c, s, id).tx.Stored(), job, calm.processing)
    ensures var id := NextOf(s.poll, c.includeExisting, fetch, Fine).1.message.id;
      var t := Round(c, s, fetch, job, calm);
      && SysInv(c, t) && t.worker.None?
      && TxOf(c, t, id).tx.pc == Halted(true)
      && TxOf(c, t, id).tx.Stored().completed
      && (forall k | k != id :: TxOf(c, t, k) == TxOf(c, s, k))
      && t.poll == (if TxOf(c, s, id).tx.Stored().sourceAcked then Listed(c, s, fetch)
                    else AfterAck(Listed(c, s, fetch), id))
      && (t.poll.pending == Listed(c, s, fetch).pending <==> TxOf(c, s, id).tx.Stored().sourceAcked)
  {
    hide TrimSpace, Target.Key, Tx.Step, Tx.Begin, AfterAck, Drive, DriveSys, Ready, IsLife, SysInv, TxOf, NextOf;
    hide TxState.HasRequired, Envelope.Valid, ForMessage;
    var id := NextOf(s.poll, c.includeExisting, fetch, Fine).1.message.id;
    var u := Next(c, s, Take(fetch, Fine, job));
    NextKeeps(c, s, Take(fetch, Fine, job));
    HaltedLife(c, s, id);
    KeyOf(c, job, id);
    CalmRunAcks(c.txKey(id), TxOf(c, s, id), job, calm);
    TakeStarts(c, s, fetch, job);
    DriveSysRuns(c, u, id, calm);
    AckedHead(u.poll);
    AckChanges(u.poll);
    DriveSysKeeps(c, u, calm);
  }

  lemma KeyOf(c: Setting, job: Job, id: string)
    requires ForMessage(c, job, id)
    ensures TrimSpace(job.envelope.trace.transactionKey) == c.txKey(id) && job.envelope.source.Source?
  {
  }

  /** The state in which the worker starts on the message at the head. */
  lemma TakeStarts(c: Setting, s: Sys, fetch: Fetch, job: Job)
    requires s.worker.None? && NextOf(s.poll, c.includeExisting, fetch, Fine).1.Emit?
    requires ForMessage(c, job, NextOf(s.poll, c.includeExisting, fetch, Fine).1.message.id)
    requires !TxOf(c, s, NextOf(s.poll, c.includeExisting, fetch, Fine).1.message.id).Begin(job).tx.pc.Halted?
    ensures var id := NextOf(s.poll, c.includeExisting, fetch, Fine).1.message.id;
      var u := Next(c, s, Take(fetch, Fine, job));
      && u.worker == Some(id) && u.poll == Listed(c, s, fetch)
      && u.poll.pending != [] && u.poll.pending[0].id == id
      && TxOf(c, u, id) == TxOf(c, s, id).Begin(job)
      && forall k | k != id :: TxOf(c, u, k) == TxOf(c, s, k)
  {
    hide TrimSpace, Tx.Begin;
  }

  lemma AckChanges(poll: PollState)
    requires poll.pending != []
    ensures AfterAck(poll, poll.pending[0].id).pending != poll.pending
  {
    AckedHead(poll);
  }

  lemma HaltedLife(c: Setting, s: Sys, id: string)
    requires SysInv(c, s) && s.worker.None?
    ensures IsLife(c.txKey(id), TxOf(c, s, id)) && TxOf(c, s, id).tx.pc.Halted?
  {
    hide TrimSpace, IsLife, Accounted;
    NewIsLife(c.txKey(id));
    assert id in s.txs ==> TxInv(c, s, id);
  }

  lemma {:induction false} DriveSysKeeps(c: Setting, s: Sys, calm: Calm)
    requires SysInv(c, s)
    ensures SysInv(c, DriveSys(c, s, calm))
    decreases if s.worker.Some? then Stage(TxOf(c, s, s.worker.value).tx) + 1 else 0,
              if s.worker.Some? then Rest(TxOf(c, s, s.worker.value).tx) else 0
  {
    hide TrimSpace, Target.Key, Tx.Step, AfterAck, IsLife, Accounted, SysInv;
    if s.worker.Some? && !TxOf(c, s, s.worker.value).tx.pc.Halted? {
      var r := calm.Answer(TxOf(c, s, s.worker.value).tx.pc);
      Progress(TxOf(c, s, s.worker.value).tx, r);
      WorkKeeps(c, s, s.worker.value, r);
      DriveSysKeeps(c, WorkStep(c, s, s.worker.value, r), calm);
    }
  }
}
