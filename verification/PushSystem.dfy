/** A push source end to end: racing uploads, the spool, one worker driving transactions, restarts.

    Steps are as fine as the file operations they stand for: an upload reads the replay marker, looks
    into the pending and then into the processing directory, and commits by a rename, each a step of
    its own; so is each part of the clean-up of a marker: reading it, the same two looks, removing it.
    The requeue and the claim move one directory per step, and every external call of the coordinator
    is a step. Anything may happen between two steps. */
module PushSystem {
  import opened Text
  import opened Mailflow
  import opened Transaction
  import opened TransactionInvariant
  import opened TransactionEffects
  import opened PushSpool

  /** What stays fixed: the replay retention, and the transaction key of each message. */
  datatype Setting = Setting(retention: int, txKey: Key -> string)

  /** How far the two looks of `hasQueuedMessage` have come without finding the message. */
  datatype Looks = AtPending | AtProcessing | Clear

  /** An upload that has passed its marker. */
  datatype Arrival = Arrival(key: Key, meta: Meta, stage: Looks)

  /** The clean-up of one marker, which was read when its time was over. */
  datatype Sweep = Sweep(key: Key, stage: Looks)

  datatype Sys = Sys(
    spool: Spool,
    clock: int,
    uploads: map<nat, Arrival>,
    sweeps: map<nat, Sweep>,
    accepted: set<Key>,
    requeued: bool,
    worker: Option<Key>,
    txs: map<Key, History>)

  datatype Move =
    | Tick(time: nat)
    | Check(upload: nat, key: Key, meta: Meta)
    | Peek(upload: nat)
    | Commit(upload: nat)
    | Abandon(upload: nat)
    | SweepRead(sweep: nat, key: Key, cutoff: int)
    | SweepPeek(sweep: nat)
    | SweepRemove(sweep: nat)
    | Requeue(key: Key)
    | RequeueDone
    | Claim(key: Key, job: Job)
    | Work(reply: Reply)
    | Restart(landed: bool)

  function TxOf(c: Setting, s: Sys, key: Key): History {
    if key in s.txs then s.txs[key] else NewHistory(c.txKey(key))
  }

  /** One look into the queue; `None` means that the message was found. */
  function Look(spool: Spool, key: Key, stage: Looks): Option<Looks> {
    match stage
    case AtPending => if key in spool.pending then None else Some(AtProcessing)
    case AtProcessing => if key in spool.processing then None else Some(Clear)
    case Clear => Some(Clear)
  }

  /** An envelope that the producer can have built for the message. */
  predicate GoodJob(c: Setting, job: Job, key: Key) {
    && job.envelope.Valid() && TrimSpace(job.envelope.trace.transactionKey) == c.txKey(key)
    && job.envelope.source == Source(true, true)
  }

  function PeekStep(s: Sys, upload: nat): Sys {
    if upload !in s.uploads then s
    else
      var a := s.uploads[upload];
      match Look(s.spool, a.key, a.stage)
      case None => s.(uploads := s.uploads - {upload})
      case Some(stage) => s.(uploads := s.uploads[upload := a.(stage := stage)])
  }

  function SweepStep(s: Sys, sweep: nat): Sys {
    if sweep !in s.sweeps then s
    else
      var w := s.sweeps[sweep];
      match Look(s.spool, w.key, w.stage)
      case None => s.(sweeps := s.sweeps - {sweep})
      case Some(stage) => s.(sweeps := s.sweeps[sweep := w.(stage := stage)])
  }

  /** The upload is past both looks: its next step puts the message into the queue. */
  predicate Committing(s: Sys, upload: nat) {
    upload in s.uploads && s.uploads[upload].stage == Clear
  }

  /** The clean-up is past both looks: its next step removes the marker, whatever it says by now. */
  predicate Removing(s: Sys, sweep: nat) {
    sweep in s.sweeps && s.sweeps[sweep].stage == Clear
  }

  /** What a source call of the transaction on `key` does to the spool. */
  function SourceCall(spool: Spool, key: Key, pc: Pc, landed: bool, now: int): Spool {
    if !landed then spool
    else if pc.Acking? then spool.Prepared(key, now)
    else if pc.Finalizing? then spool.Finalized(key)
    else spool
  }

  /** A push source has no deletion: that call always fails, without effect. */
  function PushReply(pc: Pc, r: Reply): Reply {
    if pc.Deleting? then r.(verdict := if r.verdict.Killed? then Killed(false) else Failed(false)) else r
  }

  function WorkStep(c: Setting, s: Sys, key: Key, r0: Reply): Sys {
    var h := TxOf(c, s, key);
    var r := PushReply(h.tx.pc, r0);
    var next := h.Step(r);
    s.(spool := SourceCall(s.spool, key, h.tx.pc, r.verdict.Landed(), s.clock),
       txs := s.txs[key := next],
       worker := if next.tx.pc.Halted? then None else Some(key))
  }

  function Next(c: Setting, s: Sys, m: Move): Sys {
    match m
    case Tick(time) => s.(clock := s.clock + time)
    case Check(u, key, meta) =>
      if u in s.uploads || s.spool.Fresh(key, s.clock, c.retention) then s
      else s.(uploads := s.uploads[u := Arrival(key, meta, AtPending)])
    case Peek(u) => PeekStep(s, u)
    case Commit(u) =>
      if !Committing(s, u) then s
      else
        var a := s.uploads[u];
        s.(spool := s.spool.Committed(a.key, a.meta), uploads := s.uploads - {u}, accepted := s.accepted + {a.key})
    case Abandon(u) => s.(uploads := s.uploads - {u})
    case SweepRead(w, key, cutoff) =>
      if w !in s.sweeps && c.retention > 0 && cutoff <= s.clock - c.retention
         && key in s.spool.seen && s.spool.seen[key] <= cutoff
      then s.(sweeps := s.sweeps[w := Sweep(key, AtPending)]) else s
    case SweepPeek(w) => SweepStep(s, w)
    case SweepRemove(w) =>
      if !Removing(s, w) then s
      else s.(spool := s.spool.(seen := s.spool.seen - {s.sweeps[w].key}), sweeps := s.sweeps - {w})
    case Requeue(key) => if s.worker.None? && !s.requeued then s.(spool := s.spool.RequeuedOne(key)) else s
    case RequeueDone => s.(requeued := true)
    case Claim(key, job) =>
      if s.worker.Some? || !s.requeued || key !in s.spool.pending || key in s.spool.processing
         || TrimSpace(job.envelope.trace.transactionKey) != c.txKey(key)
         || job.envelope.source != Source(true, true)
      then s
      else
        var h := TxOf(c, s, key).Begin(job);
        s.(spool := s.spool.Claimed(key), txs := s.txs[key := h],
           worker := if h.tx.pc.Halted? then None else Some(key))
    case Work(r) => if s.worker.None? then s else WorkStep(c, s, s.worker.value, r)
    case Restart(landed) =>
      var t := if s.worker.None? then s else WorkStep(c, s, s.worker.value, Death(landed));
      t.(worker := None, requeued := false, uploads := map[], sweeps := map[])
  }

  function Run(c: Setting, s: Sys, moves: seq<Move>): Sys
    decreases |moves|
  {
    if moves == [] then s else Next(c, Run(c, s, moves[..|moves| - 1]), moves[|moves| - 1])
  }

  function Boot(clock: int): Sys {
    Sys(Spool(map[], map[], map[]), clock, map[], map[], {}, false, None, map[])
  }

  // ---- every reachable state ----

  /** An accepted message is in the queue, or its transaction is completed in the store. */
  ghost predicate Safe(c: Setting, s: Sys, key: Key) {
    s.spool.Queued(key) || TxOf(c, s, key).tx.Stored().completed
  }

  /** The transaction of a message lives a life of its own, and is in the middle of a run only while
      the worker is at it. */
  ghost predicate TxInv(c: Setting, s: Sys, key: Key)
    requires key in s.txs
  {
    && IsLife(c.txKey(key), s.txs[key])
    && (s.worker == Some(key) <==> !s.txs[key].tx.pc.Halted?)
  }

  ghost predicate SysInv(c: Setting, s: Sys) {
    && (forall k | k in s.txs :: TxInv(c, s, k))
    && (s.worker.Some? ==> s.worker.value in s.txs)
    && (forall k | k in s.accepted :: Safe(c, s, k))
  }

  /** A source call takes a message out of the spool only when its transaction is completed on disk. */
  lemma WorkKeeps(c: Setting, s: Sys, key: Key, r: Reply)
    requires SysInv(c, s) && s.worker == Some(key)
    ensures SysInv(c, WorkStep(c, s, key, r))
    ensures var t := WorkStep(c, s, key, r);
      s.spool.Queued(key) && !t.spool.Queued(key) ==> TxOf(c, t, key).tx.Stored().completed
  {
    hide TrimSpace, IsLife, Tx.Step, Inv;
    var h := s.txs[key];
    var reply := PushReply(h.tx.pc, r);
    assert TxInv(c, s, key);
    LifeFacts(c.txKey(key), h);
    ApplyIsLife(c.txKey(key), h, Answer(reply));
    StepKeeps(h.tx, reply);
    var t := WorkStep(c, s, key, r);
    if h.tx.pc.Finalizing? {
      assert h.tx.Stored().completed by { FinalizingIsCompleted(h.tx); }
    }
    forall k | k in t.accepted ensures Safe(c, t, k) {
      assert Safe(c, s, k);
    }
    forall k | k in t.txs ensures TxInv(c, t, k) {
      assert k != key ==> TxInv(c, s, k);
    }
  }

  lemma FinalizingIsCompleted(t: Tx)
    requires Inv(t) && t.pc.Finalizing?
    ensures t.Stored().completed
  {
    hide TrimSpace;
  }

  lemma ClaimKeeps(c: Setting, s: Sys, key: Key, job: Job)
    requires SysInv(c, s)
    ensures SysInv(c, Next(c, s, Claim(key, job)))
  {
    hide TrimSpace, IsLife, Inv, Tx.Begin;
    var t := Next(c, s, Claim(key, job));
    var h := TxOf(c, s, key);
    NewIsLife(c.txKey(key));
    assert key in s.txs ==> TxInv(c, s, key);
    ApplyIsLife(c.txKey(key), h, Start(job));
    if t != s {
      forall k | k in t.txs ensures TxInv(c, t, k) {
        assert k != key ==> TxInv(c, s, k);
      }
      forall k | k in t.accepted ensures Safe(c, t, k) {
        assert Safe(c, s, k);
      }
    }
  }

  lemma WorkMoveKeeps(c: Setting, s: Sys, r: Reply)
    requires SysInv(c, s)
    ensures SysInv(c, Next(c, s, Work(r)))
  {
    hide TrimSpace, SysInv, WorkStep;
    if s.worker.Some? {
      WorkKeeps(c, s, s.worker.value, r);
    }
  }

  lemma NextKeeps(c: Setting, s: Sys, m: Move)
    requires SysInv(c, s)
    ensures SysInv(c, Next(c, s, m))
  {
    hide TrimSpace, IsLife, Inv, Tx.Begin, Tx.Step, WorkStep, SysInv, Next;
    match m
    case Work(r) => WorkMoveKeeps(c, s, r);
    case Claim(key, job) => ClaimKeeps(c, s, key, job);
    case Restart(landed) => RestartKeeps(c, s, landed);
    case _ =>
      SpoolMoves(c, s, m);
      QueueGrows(c, s, Next(c, s, m));
  }

  /** The other moves leave the transactions alone and take nothing out of the queue. */
  lemma SpoolMoves(c: Setting, s: Sys, m: Move)
    requires !m.Work? && !m.Claim? && !m.Restart?
    ensures var t := Next(c, s, m);
      && t.txs == s.txs && t.worker == s.worker
      && (forall k | s.spool.Queued(k) :: t.spool.Queued(k))
      && (forall k | k in t.accepted :: k in s.accepted || t.spool.Queued(k))
  {
    hide TrimSpace, Tx.Step, Tx.Begin, WorkStep;
  }

  lemma QueueGrows(c: Setting, s: Sys, t: Sys)
    requires SysInv(c, s) && t.txs == s.txs && t.worker == s.worker
    requires forall k | s.spool.Queued(k) :: t.spool.Queued(k)
    requires forall k | k in t.accepted :: k in s.accepted || t.spool.Queued(k)
    ensures SysInv(c, t)
  {
    hide IsLife, Spool.Queued;
    forall k | k in t.txs ensures TxInv(c, t, k) {
      assert TxInv(c, s, k);
    }
    forall k | k in t.accepted ensures Safe(c, t, k) {
      assert k in s.accepted ==> Safe(c, s, k);
    }
  }

  lemma RestartKeeps(c: Setting, s: Sys, landed: bool)
    requires SysInv(c, s)
    ensures SysInv(c, Next(c, s, Restart(landed)))
  {
    hide TrimSpace, IsLife, Inv;
    if s.worker.Some? {
      WorkKeeps(c, s, s.worker.value, Death(landed));
    }
    var u := if s.worker.None? then s else WorkStep(c, s, s.worker.value, Death(landed));
    var t := Next(c, s, Restart(landed));
    forall k | k in t.txs ensures TxInv(c, t, k) {
      assert TxInv(c, u, k);
    }
    forall k | k in t.accepted ensures Safe(c, t, k) {
      assert Safe(c, u, k);
    }
  }

  /** Nothing is lost: in every reachable state, with uploads racing, crashes and restarts anywhere,
      an accepted message is still queued or its transaction is completed in the store. */
  lemma {:induction false} NothingIsLost(c: Setting, clock: int, moves: seq<Move>)
    ensures SysInv(c, Run(c, Boot(clock), moves))
    ensures var s := Run(c, Boot(clock), moves); forall k | k in s.accepted :: Safe(c, s, k)
  {
    hide Next, SysInv;
    if moves != [] {
      NothingIsLost(c, clock, moves[..|moves| - 1]);
      NextKeeps(c, Run(c, Boot(clock), moves[..|moves| - 1]), moves[|moves| - 1]);
    }
    assert SysInv(c, Boot(clock)) by { BootInv(c, clock); }
    AllSafe(c, Run(c, Boot(clock), moves));
  }

  lemma BootInv(c: Setting, clock: int)
    ensures SysInv(c, Boot(clock))
  {
  }

  lemma AllSafe(c: Setting, s: Sys)
    requires SysInv(c, s)
    ensures forall k | k in s.accepted :: Safe(c, s, k)
  {
    hide Inv, Safe;
  }
}
