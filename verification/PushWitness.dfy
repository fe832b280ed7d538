/** A stamp that does not last: a clean-up that was under way removes it. */
module PushWitness {
  import opened Text
  import opened Mailflow
  import opened Transaction
  import opened PushSpool
  import opened PushSystem
  import opened PushTheorems

  /** Nothing has been saved for the message, and no run of it is under way. */
  ghost predicate Untried(h: History) {
    h.tx.pc.Halted? && h.tx.disk.None?
  }

  /** A first run whose processor skips the mail comes to its acknowledgement. */
  function AtAck(h: History, job: Job): History {
    h.Begin(job).Step(Skipping()).Step(Skipping())
  }

  lemma ComesToAck(c: Setting, h: History, job: Job, key: Key)
    requires Untried(h) && h.tx.key == c.txKey(key) && GoodJob(c, job, key)
    ensures var a := AtAck(h, job);
      && h.Begin(job).tx.pc.Loading? && h.Begin(job).Step(Skipping()).tx.pc.Processing?
      && a.tx.pc.Acking? && a.tx.key == c.txKey(key)
      && Untried(a.Step(Death(true))) && a.Step(Death(true)).tx.key == c.txKey(key)
      && a.Step(Skipping()).tx.pc.SavingAcked?
  {
    hide TrimSpace, Target.Key, Plan.Valid, Tx.NextTarget, Tx.AfterDeliveries;
  }

  /** The worker claims the message and comes to its acknowledgement. */
  lemma WorkerComesToAck(c: Setting, s: Sys, job: Job, key: Key)
    requires s.worker.None? && s.requeued && key in s.spool.pending && key !in s.spool.processing
    requires Untried(TxOf(c, s, key)) && TxOf(c, s, key).tx.key == c.txKey(key) && GoodJob(c, job, key)
    ensures var h := AtAck(TxOf(c, s, key), job);
      Run(c, s, [Claim(key, job), Work(Skipping()), Work(Skipping())])
        == s.(spool := s.spool.Claimed(key), txs := s.txs[key := h], worker := Some(key))
  {
    hide TrimSpace, Tx.Step, Tx.Begin, Run;
    var h := TxOf(c, s, key);
    ComesToAck(c, h, job, key);
    var m1 := [] + [Claim(key, job)];
    var m2 := m1 + [Work(Skipping())];
    var m3 := m2 + [Work(Skipping())];
    RunNothing(c, s);
    RunSnoc(c, s, [], Claim(key, job));
    RunSnoc(c, s, m1, Work(Skipping()));
    RunSnoc(c, s, m2, Work(Skipping()));
    assert m3 == [Claim(key, job), Work(Skipping()), Work(Skipping())];
    assert Run(c, s, m1).txs[key] == h.Begin(job);
    assert Run(c, s, m2).txs[key] == h.Begin(job).Step(Skipping());
    assert Run(c, s, m2).txs == s.txs[key := h.Begin(job).Step(Skipping())];
  }

  /** The message is claimed and stamped, its acknowledgement is not on record, the process starts. */
  ghost predicate StampedOnce(c: Setting, s: Sys, key: Key, meta: Meta) {
    && s.spool == Spool(map[], map[key := meta], map[key := 0]) && s.clock == 0
    && s.sweeps == map[] && s.worker.None? && !s.requeued
    && Untried(TxOf(c, s, key)) && TxOf(c, s, key).tx.key == c.txKey(key)
  }

  /** The first run dies after its acknowledgement has taken effect. */
  lemma FirstStamp(c: Setting, job: Job, key: Key, meta: Meta) returns (moves: seq<Move>)
    requires GoodJob(c, job, key)
    ensures StampedOnce(c, Run(c, Boot(0), moves), key, meta)
  {
    hide TrimSpace, Tx.Step, Tx.Begin, Run, AtAck;
    var boot := Boot(0).(requeued := true);
    var m0 := [Check(0, key, meta), Peek(0), Peek(0)];
    var m1 := m0 + [Commit(0)];
    var work := [Claim(key, job), Work(Skipping()), Work(Skipping())];
    RunNothing(c, Boot(0));
    RunSnoc(c, Boot(0), [], RequeueDone);
    Passes(c, boot, 0, key, meta);
    RunSnoc(c, boot, m0, Commit(0));
    var s1 := Run(c, boot, m1);
    assert s1.spool == Spool(map[key := meta], map[], map[]) && s1.txs == map[] && s1.uploads == map[];
    ComesToAck(c, NewHistory(c.txKey(key)), job, key);
    WorkerComesToAck(c, s1, job, key);
    RunConcat(c, boot, m1, work);
    RunSnoc(c, boot, m1 + work, Work(Death(true)));
    Dies(c, Run(c, boot, m1 + work), key, meta);
    RunSnoc(c, boot, m1 + work + [Work(Death(true))], Restart(false));
    moves := [] + [RequeueDone] + (m1 + work + [Work(Death(true))] + [Restart(false)]);
    RunConcat(c, Boot(0), [] + [RequeueDone], m1 + work + [Work(Death(true))] + [Restart(false)]);
  }

  lemma Dies(c: Setting, s: Sys, key: Key, meta: Meta)
    requires s.spool.processing == map[key := meta] && s.spool.pending == map[] && s.spool.seen == map[]
    requires s.worker == Some(key) && key in s.txs && s.txs[key].tx.pc.Acking?
    requires Untried(s.txs[key].Step(Death(true)))
    ensures var t := Next(c, s, Work(Death(true)));
      && t.spool == Spool(map[], map[key := meta], map[key := s.clock]) && t.clock == s.clock
      && t.worker.None? && t.txs == s.txs[key := s.txs[key].Step(Death(true))]
      && t.uploads == s.uploads && t.sweeps == s.sweeps && t.requeued == s.requeued
  {
    hide TrimSpace, Tx.Step;
  }

  /** Two clean-ups read the stamp when its time is over, and miss the message on its way back to the
      queue; the first removes the stamp. The second is still under way. */
  lemma TwoSweeps(c: Setting, s: Sys, key: Key, meta: Meta) returns (moves: seq<Move>)
    requires StampedOnce(c, s, key, meta) && c.retention > 0
    ensures var t := Run(c, s, moves);
      && t.spool == Spool(map[key := meta], map[], map[]) && t.clock == c.retention
      && t.sweeps == map[1 := Sweep(key, Clear)] && t.worker.None? && t.requeued && t.txs == s.txs
  {
    hide TrimSpace, Tx.Step, Tx.Begin, Run;
    var m0: seq<Move> := [];
    var m1 := m0 + [Tick(c.retention)];
    var m2 := m1 + [SweepRead(0, key, 0)];
    var m3 := m2 + [SweepRead(1, key, 0)];
    var m4 := m3 + [SweepPeek(0)];
    var m5 := m4 + [SweepPeek(1)];
    RunNothing(c, s);
    RunSnoc(c, s, m0, Tick(c.retention));
    RunSnoc(c, s, m1, SweepRead(0, key, 0));
    RunSnoc(c, s, m2, SweepRead(1, key, 0));
    RunSnoc(c, s, m3, SweepPeek(0));
    RunSnoc(c, s, m4, SweepPeek(1));
    var a := Run(c, s, m5);
    assert a.sweeps == map[0 := Sweep(key, AtProcessing), 1 := Sweep(key, AtProcessing)];
    var n := SweepsMiss(c, a, key, meta);
    moves := m5 + n;
    RunConcat(c, s, m5, n);
  }

  lemma SweepsMiss(c: Setting, s: Sys, key: Key, meta: Meta) returns (moves: seq<Move>)
    requires s.spool == Spool(map[], map[key := meta], map[key := 0]) && s.worker.None? && !s.requeued
    requires s.sweeps == map[0 := Sweep(key, AtProcessing), 1 := Sweep(key, AtProcessing)]
    ensures Run(c, s, moves) == s.(
      spool := Spool(map[key := meta], map[], map[]), sweeps := map[1 := Sweep(key, Clear)], requeued := true)
  {
    hide TrimSpace, Tx.Step, Tx.Begin, Run;
    var m0: seq<Move> := [];
    var m1 := m0 + [Requeue(key)];
    var m2 := m1 + [SweepPeek(0)];
    var m3 := m2 + [SweepPeek(1)];
    var back := [] + [SweepRemove(0)] + [RequeueDone];
    moves := m3 + back;
    RunNothing(c, s);
    RunSnoc(c, s, m0, Requeue(key));
    RunSnoc(c, s, m1, SweepPeek(0));
    RunSnoc(c, s, m2, SweepPeek(1));
    var t := s.(
      spool := Spool(map[key := meta], map[], map[key := 0]),
      sweeps := map[0 := Sweep(key, Clear), 1 := Sweep(key, Clear)]);
    assert Run(c, s, m3) == t by {
      var u := s.(spool := Spool(map[key := meta], map[], map[key := 0]));
      assert Next(c, s, Requeue(key)) == u by { assert map[key := meta] - {key} == map[]; }
      var w := u.(sweeps := map[0 := Sweep(key, Clear), 1 := Sweep(key, AtProcessing)]);
      assert Next(c, u, SweepPeek(0)) == w;
      assert Next(c, w, SweepPeek(1)) == t;
    }
    FirstSweepRemoves(c, t, key);
    RunConcat(c, s, m3, back);
  }

  lemma FirstSweepRemoves(c: Setting, s: Sys, key: Key)
    requires s.sweeps == map[0 := Sweep(key, Clear), 1 := Sweep(key, Clear)] && s.spool.seen == map[key := 0]
    ensures Run(c, s, [] + [SweepRemove(0)] + [RequeueDone]) == s.(
      spool := s.spool.(seen := map[]), sweeps := map[1 := Sweep(key, Clear)], requeued := true)
  {
    hide TrimSpace, Tx.Step, Tx.Begin, Run;
    RunNothing(c, s);
    RunSnoc(c, s, [], SweepRemove(0));
    RunSnoc(c, s, [] + [SweepRemove(0)], RequeueDone);
    assert s.sweeps - {0} == map[1 := Sweep(key, Clear)];
    assert map[key := 0] - {key} == map[];
  }

  /** After that the message is acknowledged again, and its new stamp is lost on the spot. */
  lemma FreshStampIsLost(c: Setting, job: Job, key: Key, meta: Meta) returns (moves: seq<Move>)
    requires GoodJob(c, job, key) && c.retention > 0
    ensures var s := Run(c, Boot(0), moves);
      && Stamped(s, key, c.retention) && s.clock == c.retention && InWindow(c, s, c.retention)
      && Removing(s, 1) && s.sweeps[1].key == key
      && !Stamped(Next(c, s, SweepRemove(1)), key, c.retention)
  {
    hide TrimSpace, Tx.Step, Tx.Begin, Run, AtAck;
    var a := FirstStamp(c, job, key, meta);
    var s := Run(c, Boot(0), a);
    var b := TwoSweeps(c, s, key, meta);
    var t := Run(c, s, b);
    var work := [Claim(key, job), Work(Skipping()), Work(Skipping())];
    ComesToAck(c, TxOf(c, t, key), job, key);
    WorkerComesToAck(c, t, job, key);
    var u := Run(c, t, work);
    RunSnoc(c, t, work, Work(Skipping()));
    moves := a + (b + (work + [Work(Skipping())]));
    RunConcat(c, s, b, work + [Work(Skipping())]);
    RunConcat(c, Boot(0), a, b + (work + [Work(Skipping())]));
    var v := Next(c, u, Work(Skipping()));
    assert v.spool.seen == map[key := c.retention];
    WhenAStampIsLost(c, v, SweepRemove(1), key, c.retention);
  }
}
