/** The order in which a polling source hands out its messages, over whole lives of the source. */
module PollOrder {
  import opened Text
  import opened Transaction
  import opened TransactionEffects
  import opened PollingProducer
  import opened PollSystem
  import opened PollTheorems

  /** A message handed to the worker: the `position`-th of the `size` messages of a batch. */
  datatype Emission = Emission(batch: nat, position: nat, size: nat, message: Message)

  /** The source with the batches it has fetched and everything it has handed out. */
  datatype Tour = Tour(sys: Sys, fetched: seq<seq<Message>>, out: seq<Emission>)

  function TourNext(c: Setting, t: Tour, m: Move): Tour {
    var u := Next(c, t.sys, m);
    if !m.Take? || t.sys.worker.Some? then t.(sys := u)
    else
      var (poll, o) := NextOf(t.sys.poll, c.includeExisting, m.fetch, m.save);
      var fetched := if t.sys.poll.pending == [] && poll.pending != [] then t.fetched + [poll.pending] else t.fetched;
      Tour(u, fetched, if o.Emit? then t.out + [Emission(|fetched|, Gone(u), |u.batch|, o.message)] else t.out)
  }

  function TourOf(c: Setting, moves: seq<Move>): Tour
    decreases |moves|
  {
    if moves == [] then Tour(Boot(), [], []) else TourNext(c, TourOf(c, moves[..|moves| - 1]), moves[|moves| - 1])
  }

  /** `b` may come right after `a`: the same message again, the next one of its batch, or the first one
      of the next batch after the last one of this. */
  predicate Succeeds(a: Emission, b: Emission) {
    || b == a
    || (b.batch == a.batch && b.size == a.size && b.position == a.position + 1)
    || (b.batch == a.batch + 1 && b.position == 0 && a.position + 1 == a.size)
  }

  ghost predicate InOrder(out: seq<Emission>) {
    && (out != [] ==> out[0].batch == 1 && out[0].position == 0)
    && forall i | 0 < i < |out| :: Succeeds(out[i - 1], out[i])
  }

  ghost predicate Busy(s: Sys) {
    s.worker.Some? && s.worker.value in s.txs && BeforeAck(s.txs[s.worker.value].tx.pc)
  }

  /** The batch in hand and the last message handed out. */
  ghost predicate AtLast(t: Tour) {
    t.out != [] &&
    var last, s := t.out[|t.out| - 1], t.sys;
    && last.size == |s.batch| && last.position < last.size && s.batch[last.position] == last.message
    && last.position <= Gone(s) <= last.position + 1
    && (Busy(s) ==> Gone(s) == last.position)
  }

  /** Nothing of the batch in hand has been handed out. */
  ghost predicate Unopened(t: Tour) {
    && Gone(t.sys) == 0 && !Busy(t.sys)
    && (t.out == [] ==> |t.fetched| <= 1)
    && (t.out != [] ==>
          var last := t.out[|t.out| - 1]; last.batch + 1 == |t.fetched| && last.position + 1 == last.size)
  }

  ghost predicate Placed(t: Tour) {
    && (|t.fetched| > 0 <==> t.sys.batch != [])
    && (|t.fetched| > 0 ==> t.fetched[|t.fetched| - 1] == t.sys.batch)
    && if t.out != [] && t.out[|t.out| - 1].batch == |t.fetched| then AtLast(t) else Unopened(t)
  }

  /** What was handed out is the message at that place of that batch. */
  ghost predicate Told(t: Tour, e: Emission) {
    && 1 <= e.batch <= |t.fetched|
    && var batch := t.fetched[e.batch - 1];
       e.position < |batch| == e.size && batch[e.position] == e.message
  }

  ghost predicate AllTold(t: Tour) {
    forall i | 0 <= i < |t.out| :: Told(t, t.out[i])
  }

  ghost predicate TourInv(c: Setting, t: Tour) {
    SysInv(c, t.sys) && InOrder(t.out) && Placed(t) && AllTold(t)
  }

  /** What a call of the worker does to the list. */
  lemma WorkEffect(c: Setting, s: Sys, m: Move)
    requires SysInv(c, s) && !m.Take?
    ensures var u := Next(c, s, m);
      && u.batch == s.batch
      && (u.poll.pending == s.poll.pending || (Busy(s) && |u.poll.pending| == |s.poll.pending| - 1 && !Busy(u)))
      && (Busy(u) ==> Busy(s))
  {
    hide TrimSpace, Tx.Step, IsLife, Accounted, AfterAck, TxInv;
    if s.worker.Some? {
      var w, r := s.worker.value, if m.Work? then m.reply else Death(m.landed);
      var h := s.txs[w].tx;
      if h.pc.Acking? {
        LeavingAck(h, r);
        AckedHead(s.poll);
      }
      if !BeforeAck(h.pc) {
        BackOfAck(h, r);
      }
    }
  }

  lemma TakeEffect(c: Setting, s: Sys, m: Move)
    requires SysInv(c, s) && m.Take? && s.worker.None?
    ensures var u := Next(c, s, m);
      var (poll, o) := NextOf(s.poll, c.includeExisting, m.fetch, m.save);
      && u.poll == poll
      && (o.Emit? ==> poll.pending != [] && poll.pending[0] == o.message)
      && (s.poll.pending != [] ==> u.batch == s.batch && poll == s.poll)
      && (s.poll.pending == [] ==> u.batch == if poll.pending != [] then poll.pending else s.batch)
      && (!o.Emit? ==> u.worker.None?)
  {
    hide TrimSpace, Tx.Begin, IsLife, Accounted, TxInv;
  }

  lemma TourStep(c: Setting, t: Tour, m: Move)
    requires TourInv(c, t)
    ensures TourInv(c, TourNext(c, t, m))
  {
    hide TrimSpace, SysInv, Next, NextOf, InOrder, AtLast, Unopened, Gone;
    NextKeeps(c, t.sys, m);
    if !m.Take? {
      TourWork(c, t, m);
    } else if t.sys.worker.None? {
      TourTake(c, t, m);
    } else {
      IdleTake(c, t.sys, m);
    }
  }

  lemma TourWork(c: Setting, t: Tour, m: Move)
    requires TourInv(c, t) && !m.Take? && SysInv(c, Next(c, t.sys, m))
    ensures TourInv(c, TourNext(c, t, m))
  {
    hide SysInv, Next, NextOf, InOrder, Busy, Gone, Placed, AllTold;
    ListOf(c, t.sys);
    WorkEffect(c, t.sys, m);
    InHand(t, TourNext(c, t, m));
  }

  /** The worker has acknowledged the message it was given, or left the list alone. */
  lemma InHand(t: Tour, u: Tour)
    requires u.out == t.out && u.fetched == t.fetched && u.sys.batch == t.sys.batch
    requires |t.sys.poll.pending| <= |t.sys.batch|
    requires u.sys.poll.pending == t.sys.poll.pending
      || (Busy(t.sys) && |u.sys.poll.pending| == |t.sys.poll.pending| - 1 && !Busy(u.sys))
    requires Busy(u.sys) ==> Busy(t.sys)
    ensures Placed(t) ==> Placed(u)
    ensures AllTold(t) ==> AllTold(u)
  {
    hide Busy;
    if AllTold(t) {
      forall i | 0 <= i < |u.out| ensures Told(u, u.out[i]) {
        assert Told(t, t.out[i]);
      }
    }
  }

  /** What a batch or the lack of one makes of the list. */
  ghost predicate Restocked(t: Tour, u: Tour) {
    && |t.sys.poll.pending| <= |t.sys.batch| && |u.sys.poll.pending| <= |u.sys.batch|
    && if t.sys.poll.pending == [] && u.sys.poll.pending != []
       then u.fetched == t.fetched + [u.sys.batch] && u.sys.batch == u.sys.poll.pending
       else u.fetched == t.fetched && u.sys.batch == t.sys.batch && u.sys.poll.pending == t.sys.poll.pending
  }

  /** The move hands out the message `e`, the first one of the list. */
  ghost predicate Hands(t: Tour, u: Tour, e: Emission) {
    && u.out == t.out + [e] && u.sys.poll.pending != []
    && e.batch == |u.fetched| && e.size == |u.sys.batch| && e.position == Gone(u.sys) < |u.sys.batch|
    && u.sys.batch[e.position] == e.message
  }

  lemma TakeHands(c: Setting, t: Tour, m: Move)
    requires SysInv(c, t.sys) && m.Take? && t.sys.worker.None? && SysInv(c, Next(c, t.sys, m))
    ensures var u := TourNext(c, t, m);
      var out := NextOf(t.sys.poll, c.includeExisting, m.fetch, m.save).1;
      && u.sys == Next(c, t.sys, m) && Restocked(t, u)
      && if out.Emit? then Hands(t, u, Emission(|u.fetched|, Gone(u.sys), |u.sys.batch|, out.message))
         else u.out == t.out && u.sys.worker.None?
  {
    hide TrimSpace, SysInv, Next, NextOf;
    ListOf(c, t.sys);
    ListOf(c, Next(c, t.sys, m));
    TakeEffect(c, t.sys, m);
    var n := Next(c, t.sys, m);
    HeadOf(n);
  }

  lemma HeadOf(s: Sys)
    requires |s.poll.pending| <= |s.batch| && s.poll.pending == s.batch[Gone(s)..]
    ensures s.poll.pending != [] ==> Gone(s) < |s.batch| && s.batch[Gone(s)] == s.poll.pending[0]
  {
  }

  lemma NoneHanded(t: Tour, u: Tour)
    requires Placed(t) && Restocked(t, u) && u.out == t.out && u.sys.worker.None?
    ensures Placed(u)
  {
    assert !Busy(u.sys);
    hide Busy;
  }

  /** The message handed out is the right one. */
  lemma InPlace(t: Tour, u: Tour, e: Emission)
    requires Placed(t) && Restocked(t, u) && Hands(t, u, e)
    ensures if t.out == [] then e.batch == 1 && e.position == 0 else Succeeds(t.out[|t.out| - 1], e)
    ensures Placed(u)
  {
    hide Busy;
    assert u.out[|u.out| - 1] == e;
  }

  lemma TourTake(c: Setting, t: Tour, m: Move)
    requires TourInv(c, t) && m.Take? && t.sys.worker.None? && SysInv(c, Next(c, t.sys, m))
    ensures TourInv(c, TourNext(c, t, m))
  {
    hide SysInv, Next, NextOf, InOrder, Succeeds, Placed, Restocked, Hands, TourNext;
    var u := TourNext(c, t, m);
    var out := NextOf(t.sys.poll, c.includeExisting, m.fetch, m.save).1;
    TakeHands(c, t, m);
    if out.Emit? {
      var e := Emission(|u.fetched|, Gone(u.sys), |u.sys.batch|, out.message);
      InPlace(t, u, e);
      StaysInOrder(t, u, e);
      StaysTold(t, u, Some(e));
    } else {
      NoneHanded(t, u);
      StaysTold(t, u, None);
    }
  }

  /** Batches are only added, and what is handed out comes from the last one. */
  lemma StaysTold(t: Tour, u: Tour, e: Option<Emission>)
    requires AllTold(t) && Restocked(t, u) && Placed(u)
    requires if e.Some? then Hands(t, u, e.value) else u.out == t.out
    ensures AllTold(u)
  {
    hide AtLast, Unopened;
    forall i | 0 <= i < |u.out| ensures Told(u, u.out[i]) {
      if i < |t.out| {
        assert u.out[i] == t.out[i] && Told(t, t.out[i]);
      }
    }
  }

  lemma IdleTake(c: Setting, s: Sys, m: Move)
    requires m.Take? && s.worker.Some?
    ensures Next(c, s, m) == s
  {
  }

  lemma ListOf(c: Setting, s: Sys)
    requires SysInv(c, s)
    ensures |s.poll.pending| <= |s.batch| && s.poll.pending == s.batch[Gone(s)..]
  {
    hide TxInv, Accounted;
  }

  /** One more message in order keeps the log in order. */
  lemma StaysInOrder(t: Tour, u: Tour, e: Emission)
    requires InOrder(t.out) && Hands(t, u, e)
    requires if t.out == [] then e.batch == 1 && e.position == 0 else Succeeds(t.out[|t.out| - 1], e)
    ensures InOrder(u.out)
  {
    hide Succeeds;
    forall i | 0 < i < |u.out| ensures Succeeds(u.out[i - 1], u.out[i]) {
      if i < |t.out| {
        assert u.out[i] == t.out[i] && u.out[i - 1] == t.out[i - 1];
      }
    }
  }

  /** Over any life of the source, with fetches, saves and runs failing anywhere and restarts in
      between, messages are handed out batch after batch, each batch in the server's order from its
      first message to its last; a message is repeated as long as it is not acknowledged, none is
      skipped, and each is the one at its place of its batch. */
  lemma {:induction false} MessagesComeInBatchOrder(c: Setting, moves: seq<Move>)
    ensures var t := TourOf(c, moves);
      t.sys == Run(c, Boot(), moves) && TourInv(c, t) && InOrder(t.out) && AllTold(t)
  {
    hide Next, IsLife, Accounted, TxInv, SysInv, TourNext, InOrder;
    if moves != [] {
      MessagesComeInBatchOrder(c, moves[..|moves| - 1]);
      TourStep(c, TourOf(c, moves[..|moves| - 1]), moves[|moves| - 1]);
      TourFollows(c, TourOf(c, moves[..|moves| - 1]), moves[|moves| - 1]);
    } else {
      BatchIsAccountedFor(c, []);
      assert InOrder([]) by { NothingInOrder(); }
    }
  }

  lemma TourFollows(c: Setting, t: Tour, m: Move)
    ensures TourNext(c, t, m).sys == Next(c, t.sys, m)
  {
  }

  lemma NothingInOrder()
    ensures InOrder([])
  {
  }
}
