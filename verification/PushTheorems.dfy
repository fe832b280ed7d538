/** What follows for a push source: effects, replays, the dedupe window, and when uploads may race. */
module PushTheorems {
  import opened Text
  import opened Mailflow
  import opened Transaction
  import opened TransactionInvariant
  import opened TransactionEffects
  import opened PushSpool
  import opened PushSystem

  /** Racing uploads, replays and crashes do not multiply effects: each target of a message is reached
      at most once, plus once per run of its transaction that was cut. */
  lemma PushEffectsBounded(c: Setting, clock: int, moves: seq<Move>, key: Key, target: string)
    ensures var h := TxOf(c, Run(c, Boot(clock), moves), key);
      && Hits(h.log, Reaches(target)) <= 1 + h.cuts
      && Hits(h.log, Durable) <= |h.tx.Stored().plan.targets| + 2 + h.cuts
  {
    hide Next, Hits, TrimSpace, Inv, Tx.Step, Tx.Begin;
    NothingIsLost(c, clock, moves);
    var s := Run(c, Boot(clock), moves);
    var h := TxOf(c, s, key);
    NewIsLife(c.txKey(key));
    assert key in s.txs ==> TxInv(c, s, key);
    var events := EventsOf(c.txKey(key), h);
    EachEffectOnce(c.txKey(key), events, target);
    EffectsBounded(c.txKey(key), events);
  }

  /** A message in the queue keeps what it was accepted with: a pending one stays or is claimed, a claimed
      one stays, is put back, or leaves the spool for good. */
  lemma MessagesKeepTheirMetadata(c: Setting, s: Sys, m: Move, key: Key)
    ensures var p, q, t := s.spool.pending, s.spool.processing, Next(c, s, m).spool;
      && (key in p ==> (key in t.pending && t.pending[key] == p[key])
                       || (key in t.processing && t.processing[key] == p[key] && m.Claim?))
      && (key in q && key !in p ==> (key in t.processing && t.processing[key] == q[key])
                                    || (key in t.pending && t.pending[key] == q[key])
                                    || (key !in t.pending && key !in t.processing && (m.Work? || m.Restart?)))
  {
    hide TrimSpace, Tx.Step, Tx.Begin, PeekStep, SweepStep, WorkStep;
    match m
    case Peek(u) => PeekLeaves(s, u);
    case SweepPeek(w) => SweepLeaves(s, w);
    case Work(r) => if s.worker.Some? { WorkTakes(c, s, s.worker.value, r); }
    case Restart(landed) => if s.worker.Some? { WorkTakes(c, s, s.worker.value, Death(landed)); }
    case _ =>
  }

  /** A call of the worker takes its own message out of the claimed ones, or none. */
  lemma WorkTakes(c: Setting, s: Sys, key: Key, r: Reply)
    ensures var t := WorkStep(c, s, key, r).spool;
      t.pending == s.spool.pending && (t.processing == s.spool.processing || t.processing == s.spool.processing - {key})
  {
    hide TrimSpace, Tx.Step;
  }

  // ---- replays ----

  lemma CompletedWork(c: Setting, s: Sys, worker: Key, r: Reply, key: Key)
    requires SysInv(c, s) && s.worker == Some(worker) && TxOf(c, s, key).tx.Stored().completed
    ensures var h, g := TxOf(c, s, key), TxOf(c, WorkStep(c, s, worker, r), key);
      g.log == h.log && g.tx.disk == h.tx.disk && g.tx.key == h.tx.key
  {
    hide TrimSpace, IsLife, Inv, Safe, Tx.Step, Tx.Emits;
    var h := TxOf(c, s, worker);
    if worker == key {
      assert TxInv(c, s, key);
      LifeFacts(c.txKey(key), h);
      CompletedStep(h.tx, PushReply(h.tx.pc, r));
    }
  }

  lemma CompletedMove(c: Setting, s: Sys, m: Move, key: Key)
    requires SysInv(c, s) && TxOf(c, s, key).tx.Stored().completed
    ensures var h, g := TxOf(c, s, key), TxOf(c, Next(c, s, m), key);
      g.log == h.log && g.tx.disk == h.tx.disk && g.tx.key == h.tx.key
  {
    hide TrimSpace, SysInv, WorkStep, Tx.Begin;
    if s.worker.Some? && m.Work? {
      CompletedWork(c, s, s.worker.value, m.reply, key);
    } else if s.worker.Some? && m.Restart? {
      CompletedWork(c, s, s.worker.value, Death(m.landed), key);
    }
  }

  /** Once its transaction is completed, a message can be uploaded, queued, claimed and run again at
      any time, inside or after the replay window and under any interleaving: no consumer is called
      for it any more, the source is not acknowledged again, the stored record stays. */
  lemma {:induction false} ReplaysAreInert(c: Setting, s: Sys, moves: seq<Move>, key: Key)
    requires SysInv(c, s) && TxOf(c, s, key).tx.Stored().completed
    ensures SysInv(c, Run(c, s, moves))
    ensures var h, g := TxOf(c, s, key), TxOf(c, Run(c, s, moves), key);
      g.log == h.log && g.tx.disk == h.tx.disk && g.tx.key == h.tx.key
    decreases |moves|
  {
    hide Next, SysInv;
    if moves != [] {
      var m := Run(c, s, moves[..|moves| - 1]);
      ReplaysAreInert(c, s, moves[..|moves| - 1], key);
      NextKeeps(c, m, moves[|moves| - 1]);
      CompletedMove(c, m, moves[|moves| - 1], key);
    }
  }

  // ---- the dedupe window ----

  ghost predicate Stamped(s: Sys, key: Key, at: int) {
    key in s.spool.seen && s.spool.seen[key] == at
  }

  ghost predicate InWindow(c: Setting, s: Sys, at: int) {
    c.retention <= 0 || s.clock - at < c.retention
  }

  /** No clean-up that has read an older marker of the message is still under way. */
  ghost predicate Unswept(s: Sys, key: Key) {
    forall w | w in s.sweeps :: s.sweeps[w].key != key
  }

  /** A stamp is lost exactly when a clean-up of that message's marker, past its looks, removes it. */
  lemma WhenAStampIsLost(c: Setting, s: Sys, m: Move, key: Key, at: int)
    requires Stamped(s, key, at)
    ensures Stamped(Next(c, s, m), key, at)
      <==> !(m.SweepRemove? && Removing(s, m.sweep) && s.sweeps[m.sweep].key == key)
  {
    hide TrimSpace, Tx.Step, Tx.Begin;
  }

  lemma StampStays(c: Setting, s: Sys, m: Move, key: Key, at: int)
    requires Stamped(s, key, at) && Unswept(s, key) && InWindow(c, s, at)
    ensures Stamped(Next(c, s, m), key, at) && Unswept(Next(c, s, m), key)
  {
    hide TrimSpace, Tx.Step, Tx.Begin;
    WhenAStampIsLost(c, s, m, key, at);
  }

  /** Inside the window no upload of the message gets past its marker. */
  ghost predicate Refused(c: Setting, s: Sys, key: Key) {
    forall upload, meta :: Next(c, s, Check(upload, key, meta)) == s
  }

  lemma StampRefuses(c: Setting, s: Sys, key: Key, at: int)
    requires Stamped(s, key, at) && InWindow(c, s, at)
    ensures Refused(c, s, key)
  {
    hide TrimSpace, Tx.Step, Tx.Begin;
  }

  lemma {:induction false} FreeUpload(uploads: set<nat>) returns (upload: nat)
    ensures forall u | u in uploads :: u < upload
  {
    if uploads == {} {
      upload := 0;
    } else {
      var u :| u in uploads;
      var rest := FreeUpload(uploads - {u});
      upload := if u < rest then rest else u + 1;
      assert forall x | x in uploads :: x == u || x in uploads - {u};
    }
  }

  /** The marker of a message turns its uploads away if and only if there is one and its window lasts: while
      less than the retention has passed since its stamp, or for ever without a retention. */
  lemma WhenUploadsAreRefused(c: Setting, s: Sys, key: Key)
    ensures Refused(c, s, key) <==>
      key in s.spool.seen && (c.retention <= 0 || s.clock - s.spool.seen[key] < c.retention)
  {
    hide TrimSpace, Tx.Step, Tx.Begin;
    var upload := FreeUpload(s.uploads.Keys);
    assert upload !in s.uploads;
    if Refused(c, s, key) {
      assert Next(c, s, Check(upload, key, Meta(0))) == s;
      assert upload !in Next(c, s, Check(upload, key, Meta(0))).uploads;
    }
  }

  /** An acknowledgement that takes effect stamps the message in hand, unless it bears a stamp already. */
  lemma AcknowledgingStamps(c: Setting, s: Sys, key: Key, r: Reply)
    requires s.worker == Some(key) && TxOf(c, s, key).tx.pc.Acking? && key in s.spool.processing
    ensures var t := Next(c, s, Work(r));
      t.spool.seen == if r.verdict.Landed() && key !in s.spool.seen then s.spool.seen[key := s.clock] else s.spool.seen
  {
    hide TrimSpace, Tx.Step;
  }

  /** A replay marker holds for the whole window, unless a clean-up that read an older one is still
      under way: however the source moves on, while less than the retention has passed since the stamp
      (or for ever, without a retention), the first stamp is there and every upload is refused. */
  lemma {:induction false} DedupeWindow(c: Setting, s: Sys, moves: seq<Move>, key: Key, at: int)
    requires Stamped(s, key, at) && Unswept(s, key)
    ensures s.clock <= Run(c, s, moves).clock
    ensures InWindow(c, Run(c, s, moves), at) ==>
      Stamped(Run(c, s, moves), key, at) && Unswept(Run(c, s, moves), key) && Refused(c, Run(c, s, moves), key)
    decreases |moves|
  {
    hide Next, Refused, Stamped;
    if moves != [] {
      var init := moves[..|moves| - 1];
      var m := Run(c, s, init);
      DedupeWindow(c, s, init, key, at);
      ClockGrows(c, m, moves[|moves| - 1]);
      if InWindow(c, Run(c, s, moves), at) {
        assert InWindow(c, m, at);
        StampStays(c, m, moves[|moves| - 1], key, at);
      }
    }
    if InWindow(c, Run(c, s, moves), at) {
      StampRefuses(c, Run(c, s, moves), key, at);
    }
  }

  lemma ClockGrows(c: Setting, s: Sys, m: Move)
    ensures s.clock <= Next(c, s, m).clock
  {
    hide TrimSpace, Tx.Step, Tx.Begin;
  }

  // ---- exclusivity ----

  /** The move puts a message into the queue that has been claimed since the upload looked. */
  predicate Collides(s: Sys, m: Move) {
    m.Commit? && Committing(s, m.upload) && s.uploads[m.upload].key in s.spool.processing
  }

  /** A move makes a message both pending and claimed if and only if it is such a commit. */
  lemma WhenExclusivityBreaks(c: Setting, s: Sys, m: Move)
    requires s.spool.Exclusive()
    ensures Next(c, s, m).spool.Exclusive() <==> !Collides(s, m)
  {
    hide TrimSpace, Tx.Step, Tx.Begin;
    if Collides(s, m) {
      var key := s.uploads[m.upload].key;
      assert key in Next(c, s, m).spool.pending && key in Next(c, s, m).spool.processing;
    }
  }

  /** Uploads of one message are serialised: none begins while another is under way. */
  ghost predicate OneUpload(s: Sys, m: Move) {
    m.Check? ==> forall u | u in s.uploads :: s.uploads[u].key != m.key
  }

  /** No message is moved back to the queue while its upload is between the two looks. */
  ghost predicate NoRequeueBetweenLooks(s: Sys, m: Move) {
    m.Requeue? ==> forall u | u in s.uploads :: !(s.uploads[u].key == m.key && s.uploads[u].stage == AtProcessing)
  }

  ghost predicate Serial(s: Sys, m: Move) {
    OneUpload(s, m) && NoRequeueBetweenLooks(s, m)
  }

  ghost predicate AllSerial(c: Setting, s: Sys, moves: seq<Move>) {
    forall i | 0 <= i < |moves| :: Serial(Run(c, s, moves[..i]), moves[i])
  }

  /** No message is both pending and claimed, and what an upload has not found is still not there. */
  ghost predicate Tidy(s: Sys) {
    && s.spool.Exclusive()
    && (forall u | u in s.uploads && s.uploads[u].stage != AtPending :: s.uploads[u].key !in s.spool.pending)
    && (forall u | u in s.uploads && s.uploads[u].stage == Clear :: s.uploads[u].key !in s.spool.processing)
    && (forall u, v | u in s.uploads && v in s.uploads && u != v :: s.uploads[u].key != s.uploads[v].key)
  }

  lemma PeekTidies(s: Sys, upload: nat)
    requires Tidy(s)
    ensures Tidy(PeekStep(s, upload))
  {
  }

  /** A look of the clean-up changes nothing else. */
  lemma SweepLeaves(s: Sys, sweep: nat)
    ensures var t := SweepStep(s, sweep);
      t.uploads == s.uploads && t.spool == s.spool && t.worker == s.worker && t.txs == s.txs
  {
  }

  /** The worker takes messages out of the spool, and puts none in. */
  lemma WorkShrinks(c: Setting, s: Sys, key: Key, r: Reply)
    ensures var t := WorkStep(c, s, key, r);
      t.uploads == s.uploads && t.spool.pending == s.spool.pending
      && t.spool.processing.Keys <= s.spool.processing.Keys
  {
    hide TrimSpace, Tx.Step;
  }

  lemma TidyMove(c: Setting, s: Sys, m: Move)
    requires Tidy(s) && Serial(s, m)
    ensures Tidy(Next(c, s, m))
  {
    hide TrimSpace, Tx.Step, Tx.Begin, WorkStep, PeekStep, SweepStep;
    match m
    case Peek(u) => PeekTidies(s, u);
    case Work(r) => if s.worker.Some? { WorkShrinks(c, s, s.worker.value, r); }
    case Restart(landed) => if s.worker.Some? { WorkShrinks(c, s, s.worker.value, Death(landed)); }
    case SweepPeek(w) => SweepLeaves(s, w);
    case _ => OtherTidies(c, s, m);
  }

  lemma OtherTidies(c: Setting, s: Sys, m: Move)
    requires Tidy(s) && Serial(s, m) && !m.Peek? && !m.Work? && !m.Restart? && !m.SweepPeek?
    ensures Tidy(Next(c, s, m))
  {
    hide TrimSpace, Tx.Step, Tx.Begin, WorkStep, PeekStep, SweepStep, Spool.Fresh, Spool.Prepared, Spool.Finalized;
  }

  /** With uploads serialised per message, and no requeue between the two looks of an upload, no
      message is ever both pending and claimed. */
  lemma {:induction false} SerialUploadsStayExclusive(c: Setting, clock: int, moves: seq<Move>)
    requires AllSerial(c, Boot(clock), moves)
    ensures Tidy(Run(c, Boot(clock), moves))
  {
    hide Next;
    if moves != [] {
      var init := moves[..|moves| - 1];
      forall i | 0 <= i < |init| ensures Serial(Run(c, Boot(clock), init[..i]), init[i]) {
        assert init[..i] == moves[..i];
      }
      SerialUploadsStayExclusive(c, clock, init);
      TidyMove(c, Run(c, Boot(clock), init), moves[|moves| - 1]);
    }
  }

  /** Both pending and claimed, with no worker at it. */
  ghost predicate Wedged(s: Sys, key: Key) {
    key in s.spool.pending && key in s.spool.processing && s.worker != Some(key)
  }

  lemma WedgedMove(c: Setting, s: Sys, m: Move, key: Key)
    requires Wedged(s, key)
    ensures Wedged(Next(c, s, m), key) && TxOf(c, Next(c, s, m), key) == TxOf(c, s, key)
  {
    hide TrimSpace, Tx.Step, Tx.Begin, WorkStep, PeekStep, SweepStep;
    match m
    case Peek(u) => PeekLeaves(s, u);
    case SweepPeek(w) => SweepLeaves(s, w);
    case Work(r) => if s.worker.Some? { WorkLeaves(c, s, s.worker.value, r, key); }
    case Restart(landed) => if s.worker.Some? { WorkLeaves(c, s, s.worker.value, Death(landed), key); }
    case _ =>
  }

  lemma PeekLeaves(s: Sys, upload: nat)
    ensures var t := PeekStep(s, upload); t.spool == s.spool && t.worker == s.worker && t.txs == s.txs
  {
  }

  /** The worker's calls concern the message it is on. */
  lemma WorkLeaves(c: Setting, s: Sys, worker: Key, r: Reply, key: Key)
    requires worker != key
    ensures var t := WorkStep(c, s, worker, r);
      && TxOf(c, t, key) == TxOf(c, s, key) && t.spool.pending == s.spool.pending
      && (key in t.spool.processing <==> key in s.spool.processing)
      && (t.worker.None? || t.worker == Some(worker))
  {
    hide TrimSpace, Tx.Step;
  }

  /** Neither the requeue nor the claim ever frees such a message again: its transaction makes no
      further step, whatever happens. */
  lemma {:induction false} WedgedForEver(c: Setting, s: Sys, moves: seq<Move>, key: Key)
    requires Wedged(s, key)
    ensures Wedged(Run(c, s, moves), key) && TxOf(c, Run(c, s, moves), key) == TxOf(c, s, key)
    decreases |moves|
  {
    hide Next;
    if moves != [] {
      WedgedForEver(c, s, moves[..|moves| - 1], key);
      WedgedMove(c, Run(c, s, moves[..|moves| - 1]), moves[|moves| - 1], key);
    }
  }

  lemma RunSnoc(c: Setting, s: Sys, moves: seq<Move>, m: Move)
    ensures Run(c, s, moves + [m]) == Next(c, Run(c, s, moves), m)
  {
    hide Next;
    assert (moves + [m])[..|moves|] == moves;
  }

  lemma RunNothing(c: Setting, s: Sys)
    ensures Run(c, s, []) == s
  {
  }

  lemma {:induction false} RunConcat(c: Setting, s: Sys, a: seq<Move>, b: seq<Move>)
    ensures Run(c, s, a + b) == Run(c, Run(c, s, a), b)
    decreases |b|
  {
    hide Next;
    if b == [] {
      assert a + b == a;
    } else {
      RunConcat(c, s, a, b[..|b| - 1]);
      assert (a + b)[..|a + b| - 1] == a + b[..|b| - 1];
    }
  }

  /** An upload that finds nothing on its way to the commit. */
  lemma Passes(c: Setting, s: Sys, upload: nat, key: Key, meta: Meta)
    requires upload !in s.uploads && !s.spool.Queued(key) && !s.spool.Fresh(key, s.clock, c.retention)
    ensures Run(c, s, [Check(upload, key, meta), Peek(upload), Peek(upload)])
      == s.(uploads := s.uploads[upload := Arrival(key, meta, Clear)])
  {
    hide Run, Next, Spool.Fresh;
    ThreeMoves(c, s, Check(upload, key, meta), Peek(upload), Peek(upload));
    CheckAndPeek(c, s, upload, key, meta);
    TwoPeeks(s, upload, key, meta);
  }

  /** The steps of one upload, taken without interruption, have the effect of `Enqueue`. */
  lemma UploadIsEnqueue(c: Setting, s: Sys, upload: nat, key: Key, meta: Meta)
    requires upload !in s.uploads
    ensures var t := Run(c, s, [Check(upload, key, meta), Peek(upload), Peek(upload)] + [Commit(upload)]);
      && t.spool == s.spool.Enqueued(key, meta, s.clock, c.retention)
      && t.uploads == s.uploads && t.txs == s.txs && t.clock == s.clock
      && t.accepted == (if s.spool.Queued(key) || s.spool.Fresh(key, s.clock, c.retention) then s.accepted
                        else s.accepted + {key})
  {
    hide Run, TrimSpace, Tx.Step, Tx.Begin;
    var looks := [Check(upload, key, meta), Peek(upload), Peek(upload)];
    RunSnoc(c, s, looks, Commit(upload));
    if s.spool.Queued(key) || s.spool.Fresh(key, s.clock, c.retention) {
      Refuses(c, s, upload, key, meta);
    } else {
      Passes(c, s, upload, key, meta);
      assert s.uploads[upload := Arrival(key, meta, Clear)] - {upload} == s.uploads;
    }
  }

  /** An upload that is stopped at its marker or at one of its looks. */
  lemma Refuses(c: Setting, s: Sys, upload: nat, key: Key, meta: Meta)
    requires upload !in s.uploads && (s.spool.Queued(key) || s.spool.Fresh(key, s.clock, c.retention))
    ensures Run(c, s, [Check(upload, key, meta), Peek(upload), Peek(upload)]) == s
  {
    hide Run, Next, Spool.Fresh;
    ThreeMoves(c, s, Check(upload, key, meta), Peek(upload), Peek(upload));
    CheckAndPeek(c, s, upload, key, meta);
    if s.spool.Fresh(key, s.clock, c.retention) {
      NoPeek(s, upload);
    } else {
      TwoPeeks(s, upload, key, meta);
    }
  }

  lemma ThreeMoves(c: Setting, s: Sys, a: Move, b: Move, d: Move)
    ensures Run(c, s, [a, b, d]) == Next(c, Next(c, Next(c, s, a), b), d)
  {
    hide Run, Next;
    RunNothing(c, s);
    RunSnoc(c, s, [], a);
    RunSnoc(c, s, [a], b);
    RunSnoc(c, s, [a, b], d);
    assert [] + [a] == [a] && [a] + [b] == [a, b] && [a, b] + [d] == [a, b, d];
  }

  lemma CheckAndPeek(c: Setting, s: Sys, upload: nat, key: Key, meta: Meta)
    requires upload !in s.uploads
    ensures Next(c, s, Check(upload, key, meta)) ==
      if s.spool.Fresh(key, s.clock, c.retention) then s
      else s.(uploads := s.uploads[upload := Arrival(key, meta, AtPending)])
    ensures forall t :: Next(c, t, Peek(upload)) == PeekStep(t, upload)
  {
    hide TrimSpace, Tx.Step, Tx.Begin, PeekStep, SweepStep, WorkStep;
  }

  lemma NoPeek(s: Sys, upload: nat)
    requires upload !in s.uploads
    ensures PeekStep(s, upload) == s
  {
  }

  /** Both looks of an upload. */
  lemma TwoPeeks(s: Sys, upload: nat, key: Key, meta: Meta)
    requires upload !in s.uploads
    ensures PeekStep(PeekStep(s.(uploads := s.uploads[upload := Arrival(key, meta, AtPending)]), upload), upload)
      == if s.spool.Queued(key) then s else s.(uploads := s.uploads[upload := Arrival(key, meta, Clear)])
  {
    var a := s.(uploads := s.uploads[upload := Arrival(key, meta, AtPending)]);
    var b := s.(uploads := s.uploads[upload := Arrival(key, meta, AtProcessing)]);
    assert a.uploads - {upload} == s.uploads && b.uploads - {upload} == s.uploads;
    assert a.uploads[upload := Arrival(key, meta, AtProcessing)] == b.uploads;
    assert b.uploads[upload := Arrival(key, meta, Clear)] == s.uploads[upload := Arrival(key, meta, Clear)];
  }

  /** Both looks of a clean-up. */
  lemma TwoLooks(s: Sys, sweep: nat, key: Key)
    requires sweep !in s.sweeps
    ensures SweepStep(SweepStep(s.(sweeps := s.sweeps[sweep := Sweep(key, AtPending)]), sweep), sweep)
      == if s.spool.Queued(key) then s else s.(sweeps := s.sweeps[sweep := Sweep(key, Clear)])
  {
    var a := s.(sweeps := s.sweeps[sweep := Sweep(key, AtPending)]);
    var b := s.(sweeps := s.sweeps[sweep := Sweep(key, AtProcessing)]);
    assert a.sweeps - {sweep} == s.sweeps && b.sweeps - {sweep} == s.sweeps;
    assert a.sweeps[sweep := Sweep(key, AtProcessing)] == b.sweeps;
    assert b.sweeps[sweep := Sweep(key, Clear)] == s.sweeps[sweep := Sweep(key, Clear)];
  }

  /** The steps of the clean-up of one marker, taken without interruption, remove it if it is stale, and
      do nothing else. */
  lemma SweepIsCleanup(c: Setting, s: Sys, sweep: nat, key: Key)
    requires sweep !in s.sweeps
    ensures var cutoff := s.clock - c.retention;
      Run(c, s, [] + [SweepRead(sweep, key, cutoff)] + [SweepPeek(sweep)] + [SweepPeek(sweep)] + [SweepRemove(sweep)])
        == if s.spool.Stale(key, s.clock, c.retention) then s.(spool := s.spool.(seen := s.spool.seen - {key})) else s
  {
    hide Run, TrimSpace, Tx.Step, Tx.Begin, SweepStep;
    var read := SweepRead(sweep, key, s.clock - c.retention);
    var m1 := [] + [read];
    var m2 := m1 + [SweepPeek(sweep)];
    var m3 := m2 + [SweepPeek(sweep)];
    RunNothing(c, s);
    RunSnoc(c, s, [], read);
    RunSnoc(c, s, m1, SweepPeek(sweep));
    RunSnoc(c, s, m2, SweepPeek(sweep));
    RunSnoc(c, s, m3, SweepRemove(sweep));
    if c.retention > 0 && key in s.spool.seen && s.spool.seen[key] <= s.clock - c.retention {
      TwoLooks(s, sweep, key);
      assert s.sweeps[sweep := Sweep(key, Clear)] - {sweep} == s.sweeps;
    } else {
      NoSweep(s, sweep);
    }
  }

  lemma NoSweep(s: Sys, sweep: nat)
    requires sweep !in s.sweeps
    ensures SweepStep(s, sweep) == s
  {
  }

  /** The worker claims a pending message while an upload of it is past its looks; the upload commits
      and the process dies. */
  lemma ClaimThenCommitWedges(c: Setting, s: Sys, job: Job, upload: nat, key: Key)
    requires s.worker.None? && s.requeued && key in s.spool.pending && key !in s.spool.processing
    requires Committing(s, upload) && s.uploads[upload].key == key
    requires TrimSpace(job.envelope.trace.transactionKey) == c.txKey(key)
    requires job.envelope.source == Source(true, true)
    ensures Wedged(Run(c, s, [Claim(key, job), Commit(upload), Restart(false)]), key)
  {
    hide Run, TrimSpace, Tx.Step, Tx.Begin;
    RunNothing(c, s);
    RunSnoc(c, s, [], Claim(key, job));
    RunSnoc(c, s, [Claim(key, job)], Commit(upload));
    RunSnoc(c, s, [Claim(key, job), Commit(upload)], Restart(false));
    assert [] + [Claim(key, job)] == [Claim(key, job)];
    assert [Claim(key, job)] + [Commit(upload)] == [Claim(key, job), Commit(upload)];
    assert [Claim(key, job), Commit(upload)] + [Restart(false)] == [Claim(key, job), Commit(upload), Restart(false)];
  }

  /** Two racing uploads of one message, a claim between their commits and a crash end there. */
  lemma RacingUploadsWedge(c: Setting, job: Job, key: Key, meta: Meta) returns (moves: seq<Move>)
    requires TrimSpace(job.envelope.trace.transactionKey) == c.txKey(key)
    requires job.envelope.source == Source(true, true)
    ensures Wedged(Run(c, Boot(0), moves), key)
  {
    hide TrimSpace, Tx.Step, Tx.Begin, Run;
    var boot := Boot(0).(requeued := true);
    var m0, m1 := [Check(0, key, meta), Peek(0), Peek(0)], [Check(1, key, meta), Peek(1), Peek(1)];
    RunNothing(c, Boot(0));
    RunSnoc(c, Boot(0), [], RequeueDone);
    Passes(c, boot, 0, key, meta);
    var s0 := Run(c, boot, m0);
    Passes(c, s0, 1, key, meta);
    var s1 := Run(c, s0, m1);
    RunSnoc(c, s0, m1, Commit(0));
    var s2 := Next(c, s1, Commit(0));
    assert s2.spool.pending == map[key := meta] && s2.uploads == map[1 := Arrival(key, meta, Clear)];
    ClaimThenCommitWedges(c, s2, job, 1, key);
    var last := [Claim(key, job), Commit(1), Restart(false)];
    RunConcat(c, s0, m1 + [Commit(0)], last);
    RunConcat(c, boot, m0, m1 + [Commit(0)] + last);
    moves := [] + [RequeueDone] + (m0 + (m1 + [Commit(0)] + last));
    RunConcat(c, Boot(0), [] + [RequeueDone], m0 + (m1 + [Commit(0)] + last));
  }

  /** One upload at a time is enough: it looks into the pending directory while the message is claimed, and into
      the other after the requeue has moved it back. The worker claims the message again, and the upload
      commits a second copy under its name. */
  lemma OneUploadWedges(c: Setting, s: Sys, job: Job, key: Key, meta: Meta)
    requires s.worker.None? && !s.requeued && s.uploads == map[]
    requires key in s.spool.processing && key !in s.spool.pending && !s.spool.Fresh(key, s.clock, c.retention)
    requires TrimSpace(job.envelope.trace.transactionKey) == c.txKey(key)
    requires job.envelope.source == Source(true, true)
    ensures Wedged(Run(c, s, [Check(0, key, meta), Peek(0), Requeue(key), Peek(0), RequeueDone]
                             + [Claim(key, job), Commit(0), Restart(false)]), key)
  {
    hide TrimSpace, Tx.Step, Tx.Begin, Run;
    var m0: seq<Move> := [];
    var m1 := m0 + [Check(0, key, meta)];
    var m2 := m1 + [Peek(0)];
    var m3 := m2 + [Requeue(key)];
    var m4 := m3 + [Peek(0)];
    var m5 := m4 + [RequeueDone];
    RunNothing(c, s);
    RunSnoc(c, s, m0, Check(0, key, meta));
    RunSnoc(c, s, m1, Peek(0));
    assert Run(c, s, m2).uploads[0] == Arrival(key, meta, AtProcessing);
    RunSnoc(c, s, m2, Requeue(key));
    assert key in Run(c, s, m3).spool.pending && key !in Run(c, s, m3).spool.processing;
    RunSnoc(c, s, m3, Peek(0));
    RunSnoc(c, s, m4, RequeueDone);
    ClaimThenCommitWedges(c, Run(c, s, m5), job, 0, key);
    RunConcat(c, s, m5, [Claim(key, job), Commit(0), Restart(false)]);
    assert m5 == [Check(0, key, meta), Peek(0), Requeue(key), Peek(0), RequeueDone];
  }

  /** A crash in the middle of the first run of a message leads to such a state, after one upload. */
  lemma ClaimedAtRestart(c: Setting, job: Job, key: Key, meta: Meta) returns (moves: seq<Move>)
    requires TrimSpace(job.envelope.trace.transactionKey) == c.txKey(key)
    requires job.envelope.source == Source(true, true)
    ensures var s := Run(c, Boot(0), moves);
      && s.worker.None? && !s.requeued && s.uploads == map[]
      && key in s.spool.processing && key !in s.spool.pending && !s.spool.Fresh(key, s.clock, c.retention)
    ensures forall i | 0 <= i < |moves| && moves[i].Check? :: Run(c, Boot(0), moves[..i]).uploads == map[]
  {
    hide TrimSpace, Tx.Step, Tx.Begin, Run;
    var boot := Boot(0).(requeued := true);
    var m0 := [Check(0, key, meta), Peek(0), Peek(0)];
    RunNothing(c, Boot(0));
    RunSnoc(c, Boot(0), [], RequeueDone);
    Passes(c, boot, 0, key, meta);
    RunSnoc(c, boot, m0, Commit(0));
    RunSnoc(c, boot, m0 + [Commit(0)], Claim(key, job));
    RunSnoc(c, boot, m0 + [Commit(0)] + [Claim(key, job)], Restart(false));
    moves := [] + [RequeueDone] + (m0 + [Commit(0)] + [Claim(key, job)] + [Restart(false)]);
    RunConcat(c, Boot(0), [] + [RequeueDone], m0 + [Commit(0)] + [Claim(key, job)] + [Restart(false)]);
    assert forall i | 0 <= i < |moves| && moves[i].Check? :: i == 1;
    assert moves[..1] == [] + [RequeueDone];
  }

  /** From the first start on, with uploads strictly one after another. */
  lemma SerialisedUploadsCanWedge(c: Setting, job: Job, key: Key, meta: Meta) returns (moves: seq<Move>)
    requires TrimSpace(job.envelope.trace.transactionKey) == c.txKey(key)
    requires job.envelope.source == Source(true, true)
    ensures Wedged(Run(c, Boot(0), moves), key)
    ensures forall i | 0 <= i < |moves| && moves[i].Check? :: Run(c, Boot(0), moves[..i]).uploads == map[]
  {
    hide TrimSpace, Next, Run;
    var a := ClaimedAtRestart(c, job, key, meta);
    var b := [Check(0, key, meta), Peek(0), Requeue(key), Peek(0), RequeueDone]
      + [Claim(key, job), Commit(0), Restart(false)];
    OneUploadWedges(c, Run(c, Boot(0), a), job, key, meta);
    RunConcat(c, Boot(0), a, b);
    moves := a + b;
    assert forall i | 0 <= i < |a| :: moves[..i] == a[..i];
    assert moves[..|a|] == a;
  }
}
