/** A message whose id comes back: a run of the polling source that blocks. */
module PollWitness {
  import opened Text
  import opened Mailflow
  import opened Transaction
  import opened Recovery
  import opened PollingProducer
  import opened PollSystem
  import opened PollTheorems

  lemma RunNothing(c: Setting, s: Sys)
    ensures Run(c, s, []) == s
  {
  }

  lemma RunSnoc(c: Setting, s: Sys, moves: seq<Move>, m: Move)
    ensures Run(c, s, moves + [m]) == Next(c, Run(c, s, moves), m)
  {
    hide Next;
    assert (moves + [m])[..|moves|] == moves;
  }

  lemma {:induction false} RunConcat(c: Setting, s: Sys, a: seq<Move>, b: seq<Move>)
    ensures Run(c, s, a + b) == Run(c, Run(c, s, a), b)
    decreases |b|
  {
    hide Next;
    if b == [] {
      assert a + b == a;
    } else {
      RunConcat(c, s, a, b[..|b| - 1]);
      assert (a + b)[..|a + b| - 1] == a + b[..|b| - 1];
    }
  }

  /** A fault-free drive is a run of the machine. */
  lemma {:induction false} DriveIsRun(c: Setting, s: Sys, calm: Calm) returns (moves: seq<Move>)
    ensures DriveSys(c, s, calm) == Run(c, s, moves)
    decreases if s.worker.Some? then Stage(TxOf(c, s, s.worker.value).tx) + 1 else 0,
              if s.worker.Some? then Rest(TxOf(c, s, s.worker.value).tx) else 0
  {
    hide TrimSpace, Target.Key, Tx.Step, AfterAck, Run;
    RunNothing(c, s);
    if s.worker.None? || TxOf(c, s, s.worker.value).tx.pc.Halted? {
      moves := [];
    } else {
      var r := calm.Answer(TxOf(c, s, s.worker.value).tx.pc);
      Progress(TxOf(c, s, s.worker.value).tx, r);
      var rest := DriveIsRun(c, WorkStep(c, s, s.worker.value, r), calm);
      RunSnoc(c, s, [], Work(r));
      moves := [] + [Work(r)] + rest;
      RunConcat(c, s, [] + [Work(r)], rest);
    }
  }

  /** The state of a source that has seen nothing but an answer without messages. */
  lemma FirstAnswer(c: Setting, job: Job, link: string)
    ensures Run(c, Boot(), [Take(Fetched([], link), Fine, job)]) == Boot().(poll := PollState(link, "", []))
  {
    hide ForMessage, Tx.Begin;
    RunNothing(c, Boot());
    RunSnoc(c, Boot(), [], Take(Fetched([], link), Fine, job));
    assert [] + [Take(Fetched([], link), Fine, job)] == [Take(Fetched([], link), Fine, job)];
  }

  /** A fresh message can be worked on as soon as it is fetched. */
  ghost predicate Workable(c: Setting, job: Job, id: string, calm: Calm) {
    && ForMessage(c, job, id) && job.envelope.Valid()
    && Ready(NewHistory(c.txKey(id)).tx.Stored(), job, calm.processing)
  }

  lemma Fetches(includeExisting: bool, m: Message)
    ensures NextOf(PollState("first", "", []), includeExisting, Fetched([m], "second"), Fine)
      == (PollState("first", "second", [m]), Emit(m))
  {
  }

  /** A message is fetched, worked on without a fault and acknowledged. */
  lemma WorkedOff(c: Setting, s: Sys, job: Job, m: Message, calm: Calm)
    requires SysInv(c, s) && s.worker.None? && s.poll == PollState("first", "", []) && s.txs == map[]
    requires Workable(c, job, m.id, calm)
    ensures var t := Round(c, s, Fetched([m], "second"), job, calm);
      && SysInv(c, t) && t.worker.None? && t.poll == PollState("second", "", [])
      && TxOf(c, t, m.id).tx.Stored().sourceAcked
  {
    hide TrimSpace, Ready, DriveSys, Drive, SysInv, ForMessage, Tx.Begin, NextOf, Next;
    Fetches(c.includeExisting, m);
    RoundAdvances(c, s, Fetched([m], "second"), job, calm);
    AckedHead(PollState("first", "second", [m]));
    CompletedIsAcked(c, Round(c, s, Fetched([m], "second"), job, calm), m.id);
  }

  /** A round is a run of the machine. */
  lemma RoundIsRun(c: Setting, s: Sys, fetch: Fetch, job: Job, calm: Calm) returns (moves: seq<Move>)
    ensures Round(c, s, fetch, job, calm) == Run(c, s, moves)
  {
    hide Run, DriveSys, Next;
    var drive := DriveIsRun(c, Next(c, s, Take(fetch, Fine, job)), calm);
    RunNothing(c, s);
    RunSnoc(c, s, [], Take(fetch, Fine, job));
    RunConcat(c, s, [] + [Take(fetch, Fine, job)], drive);
    moves := [] + [Take(fetch, Fine, job)] + drive;
  }

  /** A message is fetched, worked on without a fault and acknowledged; the server then lists the same
      id again, as it does for every message once the folder has a new UIDVALIDITY. */
  lemma RepeatedIdBlocks(c: Setting, job: Job, m: Message, calm: Calm) returns (moves: seq<Move>)
    requires Workable(c, job, m.id, calm)
    ensures SysInv(c, Run(c, Boot(), moves)) && Blocked(c, Run(c, Boot(), moves), m.id)
  {
    hide Run, DriveSys, SysInv, Next, Workable, Blocked, Round, TxOf;
    var start := [Take(Fetched([], "first"), Fine, job)];
    var again := Take(Fetched([m], "third"), Fine, job);
    FirstAnswer(c, job, "first");
    BatchIsAccountedFor(c, start);
    var s := Run(c, Boot(), start);
    WorkedOff(c, s, job, m, calm);
    var round := RoundIsRun(c, s, Fetched([m], "second"), job, calm);
    RunConcat(c, Boot(), start, round);
    RunSnoc(c, Boot(), start + round, again);
    moves := start + round + [again];
    Refetched(c, Run(c, s, round), job, m, again.fetch);
    BatchIsAccountedFor(c, moves);
  }

  lemma Refetched(c: Setting, s: Sys, job: Job, m: Message, fetch: Fetch)
    requires s.worker.None? && s.poll == PollState("second", "", []) && fetch == Fetched([m], "third")
    requires TxOf(c, s, m.id).tx.Stored().sourceAcked
    ensures Blocked(c, Next(c, s, Take(fetch, Fine, job)), m.id)
  {
    hide TrimSpace;
  }
}
