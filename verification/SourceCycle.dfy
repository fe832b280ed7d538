/** The drain loop of a polling source: one round after another until the server has nothing more, or
    a round ends in an error. */
module SourceCycle {
  import opened Text
  import opened Mailflow
  import opened Transaction
  import opened TransactionEffects
  import opened Recovery
  import opened PollingProducer
  import opened PollSystem
  import opened PollTheorems
  import opened PollRounds

  /** What the rest of the system answers for each message when nothing fails. */
  datatype Office = Office(job: string -> Job, calm: string -> Calm)

  /** There is an envelope for the message, and no earlier run has acknowledged it. */
  ghost predicate Unacked(c: Setting, s: Sys, office: Office, id: string) {
    && ForMessage(c, office.job(id), id) && office.job(id).envelope.Valid()
    && !TxOf(c, s, id).tx.Stored().sourceAcked
  }

  /** In fair weather, the next run of its transaction ends well. */
  ghost predicate Workable(c: Setting, s: Sys, office: Office, id: string) {
    Ready(TxOf(c, s, id).tx.Stored(), office.job(id), office.calm(id).processing)
  }

  ghost predicate Untouched(c: Setting, s: Sys, office: Office, id: string) {
    Unacked(c, s, office, id) && Workable(c, s, office, id)
  }

  /** How many of the messages have a stored state with the property `p`. */
  ghost function Tally(c: Setting, s: Sys, messages: seq<Message>, p: TxState -> bool): nat {
    if messages == [] then 0
    else Tally(c, s, messages[..|messages| - 1], p)
         + if p(TxOf(c, s, messages[|messages| - 1].id).tx.Stored()) then 1 else 0
  }

  lemma {:induction false} TallyFrame(c: Setting, s: Sys, t: Sys, messages: seq<Message>, p: TxState -> bool)
    requires forall m | m in messages :: TxOf(c, t, m.id) == TxOf(c, s, m.id)
    ensures Tally(c, t, messages, p) == Tally(c, s, messages, p)
  {
    if messages != [] {
      TallyFrame(c, s, t, messages[..|messages| - 1], p);
    }
  }

  lemma TallySnoc(c: Setting, s: Sys, messages: seq<Message>, m: Message, p: TxState -> bool)
    ensures Tally(c, s, messages + [m], p)
      == Tally(c, s, messages, p) + if p(TxOf(c, s, m.id).tx.Stored()) then 1 else 0
  {
    assert (messages + [m])[..|messages|] == messages;
  }

  lemma StoredResult(c: Setting, s: Sys, id: string)
    requires SysInv(c, s) && TxOf(c, s, id).tx.pc == Halted(true)
    ensures TxOf(c, s, id).tx.mem == TxOf(c, s, id).tx.Stored()
  {
    hide TrimSpace, IsLife, Accounted;
    if id in s.txs {
      assert TxInv(c, s, id);
      LifeFacts(c.txKey(id), s.txs[id]);
    }
  }

  /** A round on message `n` leaves the earlier ones alone. */
  lemma DoneStay(c: Setting, s: Sys, t: Sys, all: seq<Message>, n: nat)
    requires Distinct(all) && n < |all|
    requires forall k | k != all[n].id :: TxOf(c, t, k) == TxOf(c, s, k)
    ensures forall m | m in all[..n] :: TxOf(c, t, m.id) == TxOf(c, s, m.id)
  {
  }

  /** A round on message `n` counts that message and no other. */
  lemma TallyGrows(c: Setting, s: Sys, t: Sys, all: seq<Message>, n: nat, p: TxState -> bool)
    requires Distinct(all) && n < |all|
    requires forall k | k != all[n].id :: TxOf(c, t, k) == TxOf(c, s, k)
    ensures Tally(c, t, all[..n + 1], p)
      == Tally(c, s, all[..n], p) + if p(TxOf(c, t, all[n].id).tx.Stored()) then 1 else 0
  {
    hide TxOf, Distinct, Tally;
    DoneStay(c, s, t, all, n);
    TallyFrame(c, s, t, all[..n], p);
    TallySnoc(c, t, all[..n], all[n], p);
    assert all[..n] + [all[n]] == all[..n + 1];
  }

  /** A cycle can start: the messages are distinct, and none can block the source. */
  ghost predicate CanStart(c: Setting, s: Sys, office: Office, backlog: seq<Message>) {
    && SysInv(c, s) && s.worker.None?
    && (c.includeExisting || s.poll.delta != "")
    && (s.poll.pending != [] ==> s.poll.next != "")
    && Distinct(s.poll.pending + backlog)
    && forall m | m in s.poll.pending + backlog :: Unacked(c, s, office, m.id)
  }

  /** A cycle that meets no fault runs to its end from where it can start, if all messages are workable. */
  lemma WhenACycleIsFit(c: Setting, s: Sys, office: Office, backlog: seq<Message>)
    ensures FitFor(c, s, office, backlog) <==>
      CanStart(c, s, office, backlog) && forall m | m in s.poll.pending + backlog :: Workable(c, s, office, m.id)
  {
    hide Unacked, Workable, SysInv;
    if FitFor(c, s, office, backlog) {
      assert forall m | m in s.poll.pending + backlog :: Untouched(c, s, office, m.id);
    }
  }

  ghost predicate FitFor(c: Setting, s: Sys, office: Office, backlog: seq<Message>) {
    && SysInv(c, s) && s.worker.None?
    && (c.includeExisting || s.poll.delta != "")
    && (s.poll.pending != [] ==> s.poll.next != "")
    && Distinct(s.poll.pending + backlog)
    && forall m | m in s.poll.pending + backlog :: Untouched(c, s, office, m.id)
  }

  /** How many messages the next round fetches. */
  function Taken(s: Sys, backlog: seq<Message>, want: nat): (n: nat)
    ensures n <= |backlog|
  {
    if s.poll.pending != [] then 0 else if want < |backlog| then want + 1 else |backlog|
  }

  function OneRound(c: Setting, s: Sys, office: Office, fetch: Fetch, id: string): Sys {
    Round(c, s, fetch, office.job(id), office.calm(id))
  }

  /** The next round finds the first message of the list and the backlog. */
  lemma NextMessage(c: Setting, s: Sys, office: Office, backlog: seq<Message>, want: nat, cursor: string)
    requires FitFor(c, s, office, backlog) && cursor != ""
    ensures var list, fetch := s.poll.pending + backlog, Fetched(backlog[..Taken(s, backlog, want)], cursor);
      var (poll, out) := NextOf(s.poll, c.includeExisting, fetch, Fine);
      && (list == [] ==> out.NoMessages?)
      && (list != [] ==>
            && out == Emit(list[0])
            && poll.pending != [] && poll.pending[0] == list[0] && poll.next != ""
            && poll.delta == s.poll.delta
            && poll.pending + backlog[Taken(s, backlog, want)..] == list)
  {
    hide TrimSpace, SysInv, Untouched, Distinct;
  }

  lemma RoundKeepsFit(c: Setting, s: Sys, office: Office, backlog: seq<Message>, want: nat, cursor: string)
    requires FitFor(c, s, office, backlog) && cursor != "" && s.poll.pending + backlog != []
    ensures var n, list := Taken(s, backlog, want), s.poll.pending + backlog;
      var t := OneRound(c, s, office, Fetched(backlog[..n], cursor), list[0].id);
      && FitFor(c, t, office, backlog[n..])
      && t.poll.pending + backlog[n..] == list[1..]
      && (forall k | k != list[0].id :: TxOf(c, t, k) == TxOf(c, s, k))
      && TxOf(c, t, list[0].id).tx.pc == Halted(true) && TxOf(c, t, list[0].id).tx.Stored().completed
  {
    hide TrimSpace, Ready, IsLife, Accounted, DriveSys, ForMessage, SysInv, TxOf, AfterAck, NextOf;
    var n, list := Taken(s, backlog, want), s.poll.pending + backlog;
    var id := list[0].id;
    var fetch := Fetched(backlog[..n], cursor);
    NextMessage(c, s, office, backlog, want, cursor);
    assert list[0] in list && Untouched(c, s, office, id);
    RoundAdvances(c, s, fetch, office.job(id), office.calm(id));
    var poll := Listed(c, s, fetch);
    AckedHead(poll);
    var t := OneRound(c, s, office, fetch, id);
    assert t.poll.pending == poll.pending[1..];
    assert t.poll.pending + backlog[n..] == list[1..];
    forall m | m in list[1..] ensures Untouched(c, t, office, m.id) {
      assert m in list && m.id != id;
      assert Untouched(c, s, office, m.id);
    }
  }

  lemma EmptyRound(c: Setting, s: Sys, office: Office, cursor: string)
    requires FitFor(c, s, office, []) && s.poll.pending == [] && cursor != ""
    ensures var t := Next(c, s, Take(Fetched([], cursor), Fine, office.job("")));
      FitFor(c, t, office, []) && t.poll.pending == [] && forall k :: TxOf(c, t, k) == TxOf(c, s, k)
  {
    hide TrimSpace, SysInv;
    NextKeeps(c, s, Take(Fetched([], cursor), Fine, office.job("")));
  }

  // ---- a cycle on a blocked list ----

  function Rounds(c: Setting, s: Sys, fetch: Fetch, job: Job, calm: Calm, k: nat): Sys {
    if k == 0 then s else Round(c, Rounds(c, s, fetch, job, calm, k - 1), fetch, job, calm)
  }

  /** When the message at the head was acknowledged before, every fault-free round reports a processed
      mail without an error, and nothing moves: the loop of `runSourceCycle`, which ends only on an error
      or when no mail is reported, never ends by itself. */
  lemma {:induction false} BlockedCycleNeverEnds(
    c: Setting, s: Sys, id: string, fetch: Fetch, job: Job, calm: Calm, k: nat)
    requires SysInv(c, s) && s.worker.None? && Blocked(c, s, id) && s.poll.next != ""
    requires ForMessage(c, job, id) && job.envelope.Valid()
    requires Ready(TxOf(c, s, id).tx.Stored(), job, calm.processing)
    ensures var t := Rounds(c, s, fetch, job, calm, k);
      && SysInv(c, t) && t.worker.None? && Blocked(c, t, id) && t.poll == s.poll
      && NextOf(t.poll, c.includeExisting, fetch, Fine).1 == Emit(s.poll.pending[0])
      && Ready(TxOf(c, t, id).tx.Stored(), job, calm.processing)
      && (k > 0 ==> TxOf(c, t, id).tx.pc == Halted(true))
  {
    hide SysInv, TxOf, ForMessage, Round, Ready;
    if k > 0 {
      var m := Rounds(c, s, fetch, job, calm, k - 1);
      BlockedCycleNeverEnds(c, s, id, fetch, job, calm, k - 1);
      RoundAdvances(c, m, fetch, job, calm);
      CompletedIsAcked(c, Round(c, m, fetch, job, calm), id);
      CompletedIsReady(TxOf(c, Round(c, m, fetch, job, calm), id).tx.Stored(), job, calm);
    }
  }

  lemma CompletedIsReady(s: TxState, job: Job, calm: Calm)
    ensures s.completed ==> Ready(s, job, calm.processing)
  {
    hide TrimSpace, Usable;
  }

  /** The environment of one round: nothing fails, or anything may. */
  datatype Weather = Fair | Foul(fetchFails: bool, save: Verdict, oracle: nat -> Reply)

  /** What the rounds so far have done: the first `n` messages are completed and counted. */
  ghost predicate Counted(c: Setting, s: Sys, all: seq<Message>, n: nat, processed: nat, skipped: nat, deleted: nat) {
    && n <= |all| && processed + skipped == n
    && (forall m | m in all[..n] :: TxOf(c, s, m.id).tx.Stored().completed)
    && skipped == Tally(c, s, all[..n], (x: TxState) => x.skipped)
    && deleted == Tally(c, s, all[..n], (x: TxState) => x.sourceDeleted)
  }

  lemma NothingCounted(c: Setting, s: Sys, all: seq<Message>)
    ensures Counted(c, s, all, 0, 0, 0, 0)
  {
    assert all[..0] == [];
  }

  /** A round that leaves the counted messages alone leaves the counts right. */
  lemma CountStays(c: Setting, s: Sys, t: Sys, all: seq<Message>, n: nat, processed: nat, skipped: nat, deleted: nat)
    requires Counted(c, s, all, n, processed, skipped, deleted) && Distinct(all)
    requires forall k | n == |all| || k != all[n].id :: TxOf(c, t, k) == TxOf(c, s, k)
    ensures Counted(c, t, all, n, processed, skipped, deleted)
  {
    hide TxOf, Tally;
    if n < |all| {
      DoneStay(c, s, t, all, n);
    }
    TallyFrame(c, s, t, all[..n], (x: TxState) => x.skipped);
    TallyFrame(c, s, t, all[..n], (x: TxState) => x.sourceDeleted);
  }

  /** One more message is completed and counted. */
  lemma CountGrows(c: Setting, s: Sys, t: Sys, all: seq<Message>, n: nat, processed: nat, skipped: nat, deleted: nat)
    requires Counted(c, s, all, n, processed, skipped, deleted) && Distinct(all) && n < |all|
    requires forall k | k != all[n].id :: TxOf(c, t, k) == TxOf(c, s, k)
    requires TxOf(c, t, all[n].id).tx.Stored().completed
    ensures var x := TxOf(c, t, all[n].id).tx.Stored();
      Counted(c, t, all, n + 1, processed + (if x.skipped then 0 else 1), skipped + (if x.skipped then 1 else 0),
              deleted + if x.sourceDeleted then 1 else 0)
  {
    hide TxOf, Tally, Distinct;
    DoneStay(c, s, t, all, n);
    TallyGrows(c, s, t, all, n, (x: TxState) => x.skipped);
    TallyGrows(c, s, t, all, n, (x: TxState) => x.sourceDeleted);
    assert all[..n + 1] == all[..n] + [all[n]];
  }

  /** A round in foul weather on the state `s`: the new state, and whether it ended in an error. */
  function FoulRound(c: Setting, s: Sys, office: Office, fetch: Fetch, w: Weather): (Sys, bool)
    requires w.Foul?
  {
    var out := NextOf(s.poll, c.includeExisting, fetch, w.save).1;
    match out
    case Fault => (Next(c, s, Take(fetch, w.save, office.job(""))), true)
    case NoMessages => (Next(c, s, Take(fetch, w.save, office.job(""))), false)
    case Emit(m) =>
      var t := Play(c, Next(c, s, Take(fetch, w.save, office.job(m.id))), w.oracle, 0);
      (t, TxOf(c, t, m.id).tx.pc != Halted(true))
  }

  /** What the next round is answered when it asks the server. */
  function ServerAnswer(s: Sys, backlog: seq<Message>, want: nat, cursor: string, w: Weather): Fetch {
    if w.Foul? && w.fetchFails then FetchFailed else Fetched(backlog[..Taken(s, backlog, want)], cursor)
  }

  /** What the producer makes of the answer in foul weather. */
  function Found(c: Setting, s: Sys, backlog: seq<Message>, want: nat, cursor: string, w: Weather): Outcome
    requires w.Foul?
  {
    NextOf(s.poll, c.includeExisting, ServerAnswer(s, backlog, want, cursor, w), w.save).1
  }

  /** What the server still holds: what is on the durable list has been handed over. */
  function Left(s: Sys, backlog: seq<Message>, want: nat, w: Weather): seq<Message> {
    if w.Fair? || (!w.fetchFails && w.save.Landed()) then backlog[Taken(s, backlog, want)..] else backlog
  }

  /** What a round in foul weather finds, as `poll` and `out`: nothing is lost, and a message to work on
      is the first one. */
  ghost predicate Finds(list: seq<Message>, left: seq<Message>, s: Sys, cursor: string, w: Weather,
                        poll: PollState, out: Outcome)
    requires w.Foul?
  {
    && poll.pending + left == list
    && (out.NoMessages? ==> list == [] && poll.pending == [] && poll.delta == cursor && poll.next == "")
    && (out.Emit? ==>
          && list != [] && out.message == list[0] && poll.pending != [] && poll.pending[0] == list[0]
          && poll.next != "" && poll.delta == s.poll.delta)
    && (out.Fault? ==> w.save != Fine || w.fetchFails)
  }

  lemma FindsOnList(c: Setting, s: Sys, backlog: seq<Message>, fetch: Fetch, cursor: string, w: Weather)
    requires w.Foul? && s.poll.pending != [] && s.poll.next != ""
    ensures var (poll, out) := NextOf(s.poll, c.includeExisting, fetch, w.save);
      Finds(s.poll.pending + backlog, backlog, s, cursor, w, poll, out)
  {
  }

  lemma FindsOnServer(c: Setting, s: Sys, batch: seq<Message>, rest: seq<Message>, cursor: string, w: Weather)
    requires w.Foul? && s.poll.pending == [] && cursor != "" && (c.includeExisting || s.poll.delta != "")
    requires batch == [] ==> rest == []
    ensures var (poll, out) := NextOf(s.poll, c.includeExisting, Fetched(batch, cursor), w.save);
      Finds(batch + rest, if w.save.Landed() then rest else batch + rest, s, cursor, w, poll, out)
  {
    assert [] + rest == rest && [] + (batch + rest) == batch + rest;
  }

  lemma FindsNothing(c: Setting, s: Sys, backlog: seq<Message>, cursor: string, w: Weather)
    requires w.Foul? && w.fetchFails && s.poll.pending == []
    ensures var (poll, out) := NextOf(s.poll, c.includeExisting, FetchFailed, w.save);
      Finds(backlog, backlog, s, cursor, w, poll, out)
  {
    assert [] + backlog == backlog;
  }

  lemma FoulMessage(c: Setting, s: Sys, office: Office, backlog: seq<Message>, want: nat, cursor: string, w: Weather)
    requires FitFor(c, s, office, backlog) && cursor != "" && w.Foul?
    ensures var (poll, out) := NextOf(s.poll, c.includeExisting, ServerAnswer(s, backlog, want, cursor, w), w.save);
      Finds(s.poll.pending + backlog, Left(s, backlog, want, w), s, cursor, w, poll, out)
  {
    hide SysInv, Untouched, Distinct, NextOf, Finds;
    var n := Taken(s, backlog, want);
    if s.poll.pending != [] {
      assert backlog[0..] == backlog;
      FindsOnList(c, s, backlog, ServerAnswer(s, backlog, want, cursor, w), cursor, w);
    } else {
      assert [] + backlog == backlog && backlog[..n] + backlog[n..] == backlog;
      if w.fetchFails {
        FindsNothing(c, s, backlog, cursor, w);
      } else {
        FindsOnServer(c, s, backlog[..n], backlog[n..], cursor, w);
      }
    }
  }

  /** The links on disk stay usable. */
  lemma FoulLinks(c: Setting, s: Sys, office: Office, backlog: seq<Message>, want: nat, cursor: string, w: Weather)
    requires FitFor(c, s, office, backlog) && cursor != "" && w.Foul?
    ensures var poll := NextOf(s.poll, c.includeExisting, ServerAnswer(s, backlog, want, cursor, w), w.save).0;
      (c.includeExisting || poll.delta != "") && (poll.pending != [] ==> poll.next != "")
  {
    hide TrimSpace, SysInv, Untouched, Distinct;
  }

  /** The messages after the first are fit for further rounds. */
  lemma RestIsFit(c: Setting, s: Sys, t: Sys, office: Office, list: seq<Message>, rest: seq<Message>)
    requires Distinct(list) && forall m | m in list :: Untouched(c, s, office, m.id)
    requires list != [] && rest == list[1..] && forall k | k != list[0].id :: TxOf(c, t, k) == TxOf(c, s, k)
    ensures Distinct(rest) && forall m | m in rest :: Untouched(c, t, office, m.id)
  {
    hide Ready, TxOf, ForMessage;
    forall m | m in rest ensures Untouched(c, t, office, m.id) {
      assert m in list && m.id != list[0].id;
      assert Untouched(c, s, office, m.id);
    }
  }

  /** A round in foul weather on the first message of the list. */
  lemma FoulRun(c: Setting, s: Sys, office: Office, fetch: Fetch, w: Weather)
    requires SysInv(c, s) && s.worker.None? && w.Foul?
    requires NextOf(s.poll, c.includeExisting, fetch, w.save).1.Emit?
    requires Untouched(c, s, office, NextOf(s.poll, c.includeExisting, fetch, w.save).1.message.id)
    ensures var (poll, out) := NextOf(s.poll, c.includeExisting, fetch, w.save);
      var (t, err) := FoulRound(c, s, office, fetch, w);
      && SysInv(c, t) && (forall k | k != out.message.id :: TxOf(c, t, k) == TxOf(c, s, k))
      && Done(c, t, out.message.id, poll) && (err <==> !TxOf(c, t, out.message.id).tx.pc.ok)
  {
    hide TrimSpace, SysInv, NextOf, TxOf, Play, Ready, ForMessage, AfterAck, Next, AtWork;
    var m := NextOf(s.poll, c.includeExisting, fetch, w.save).1.message;
    RoundStarts(c, s, fetch, w.save, office.job(m.id));
    var u := Next(c, s, Take(fetch, w.save, office.job(m.id)));
    PlayEnds(c, u, m.id, NextOf(s.poll, c.includeExisting, fetch, w.save).0, w.oracle, 0);
  }

  /** A round in foul weather without a message to work on. */
  lemma FoulFetch(c: Setting, s: Sys, office: Office, fetch: Fetch, w: Weather)
    requires SysInv(c, s) && s.worker.None? && w.Foul?
    requires !NextOf(s.poll, c.includeExisting, fetch, w.save).1.Emit?
    ensures var (poll, out) := NextOf(s.poll, c.includeExisting, fetch, w.save);
      var (t, err) := FoulRound(c, s, office, fetch, w);
      && SysInv(c, t) && t.worker.None? && t.txs == s.txs && t.poll == poll && (err <==> out.Fault?)
  {
    hide TrimSpace, SysInv, NextOf;
    NextKeeps(c, s, Take(fetch, w.save, office.job("")));
  }

  /** Whatever happens in a round, no message but the first is touched, and none is lost: the list and
      the backlog are what they were, less the first message if it was acknowledged. */
  lemma FoulKeeps(c: Setting, s: Sys, office: Office, backlog: seq<Message>, want: nat, cursor: string, w: Weather)
    requires FitFor(c, s, office, backlog) && cursor != "" && w.Foul?
    ensures var list, left := s.poll.pending + backlog, Left(s, backlog, want, w);
      var (t, err) := FoulRound(c, s, office, ServerAnswer(s, backlog, want, cursor, w), w);
      && SysInv(c, t) && (forall k | list == [] || k != list[0].id :: TxOf(c, t, k) == TxOf(c, s, k))
      && (t.poll.pending + left == list || (list != [] && t.poll.pending + left == list[1..]))
      && CanStart(c, t, office, left) && (!err ==> FitFor(c, t, office, left))
      && (!err ==> Found(c, s, backlog, want, cursor, w) == if list == [] then NoMessages else Emit(list[0]))
      && (!err && list != [] ==>
            && t.poll.pending + left == list[1..]
            && var x := TxOf(c, t, list[0].id).tx; x.Stored().completed && x.mem == x.Stored())
  {
    hide TrimSpace, SysInv, NextOf, TxOf, Untouched, Unacked, Distinct, FoulRound, AfterAck;
    var list, left := s.poll.pending + backlog, Left(s, backlog, want, w);
    var fetch := ServerAnswer(s, backlog, want, cursor, w);
    var (poll, out) := NextOf(s.poll, c.includeExisting, fetch, w.save);
    var (t, err) := FoulRound(c, s, office, fetch, w);
    FoulMessage(c, s, office, backlog, want, cursor, w);
    FoulLinks(c, s, office, backlog, want, cursor, w);
    if out.Emit? {
      assert list[0] in list;
      FoulRun(c, s, office, fetch, w);
      AckedHead(poll);
      RestIsFit(c, s, t, office, list, list[1..]);
      assert poll.pending[1..] + left == list[1..];
      if t.poll.pending + left == list {
        HeadIsUnacked(c, s, t, office, list, poll);
      }
      UntouchedIsUnacked(c, t, office, list[1..]);
      assert forall m | m in list :: m == list[0] || m in list[1..];
    } else {
      FoulFetch(c, s, office, fetch, w);
      SameTxs(c, s, t);
      AllUntouched(c, s, t, office, list);
      UntouchedIsUnacked(c, t, office, list);
    }
  }

  lemma UntouchedIsUnacked(c: Setting, s: Sys, office: Office, list: seq<Message>)
    requires forall m | m in list :: Untouched(c, s, office, m.id)
    ensures forall m | m in list :: Unacked(c, s, office, m.id)
  {
    hide Unacked, Workable;
    forall m | m in list ensures Unacked(c, s, office, m.id) {
      assert Untouched(c, s, office, m.id);
    }
  }

  /** A message that is still at the head has not been acknowledged. */
  lemma HeadIsUnacked(c: Setting, s: Sys, t: Sys, office: Office, list: seq<Message>, poll: PollState)
    requires list != [] && poll.pending != [] && poll.pending[0] == list[0]
    requires Done(c, t, list[0].id, poll) && Untouched(c, s, office, list[0].id)
    requires t.poll.pending == poll.pending
    ensures Unacked(c, t, office, list[0].id)
  {
    hide TxOf, ForMessage, Ready;
    AckChanges(poll);
  }

  lemma AllUntouched(c: Setting, s: Sys, t: Sys, office: Office, list: seq<Message>)
    requires forall k :: TxOf(c, t, k) == TxOf(c, s, k)
    requires forall m | m in list :: Untouched(c, s, office, m.id)
    ensures forall m | m in list :: Untouched(c, t, office, m.id)
  {
    hide TxOf, ForMessage, Ready;
    forall m | m in list ensures Untouched(c, t, office, m.id) {
      assert Untouched(c, s, office, m.id);
    }
  }

  lemma SameTxs(c: Setting, s: Sys, t: Sys)
    requires t.txs == s.txs
    ensures forall k :: TxOf(c, t, k) == TxOf(c, s, k)
  {
  }

  class Cycle {
    var sys: Sys
    /** What the server still holds for this source. */
    var backlog: seq<Message>
    const c: Setting
    const office: Office

    constructor (c: Setting, office: Office, sys: Sys, backlog: seq<Message>)
      ensures this.sys == sys && this.backlog == backlog && this.c == c && this.office == office
    {
      this.sys, this.backlog, this.c, this.office := sys, backlog, c, office;
    }

    ghost function Remaining(): seq<Message>
      reads this
    {
      sys.poll.pending + backlog
    }

    ghost predicate Fit()
      reads this
    {
      FitFor(c, sys, office, backlog)
    }

    /** `Runner.RunOnce`: takes the next message, if any, and runs its transaction. The server hands
        out at most `want + 1` messages at a time, with `cursor` as the new position. Only in foul weather
        can the round end in an error; then the first message may be half done, and nothing else is
        touched or lost. */
    method RunOnce(want: nat, cursor: string, weather: Weather) returns (err: bool, processed: bool, state: TxState)
      requires Fit() && cursor != ""
      modifies this
      ensures err ==> weather.Foul?
      ensures !err ==> Fit() && (processed <==> old(Remaining()) != [])
      ensures !err && !processed ==> Remaining() == [] && forall k :: TxOf(c, sys, k) == TxOf(c, old(sys), k)
      ensures forall k | old(Remaining()) == [] || k != old(Remaining())[0].id ::
        TxOf(c, sys, k) == TxOf(c, old(sys), k)
      ensures !err && processed ==>
        && Remaining() == old(Remaining())[1..]
        && state == TxOf(c, sys, old(Remaining())[0].id).tx.Stored() && state.completed
      ensures CanStart(c, sys, office, backlog)
      ensures err ==>
        && (Remaining() == old(Remaining())
            || (old(Remaining()) != [] && Remaining() == old(Remaining())[1..]))
    {
      hide TrimSpace, Round, SysInv, Untouched, Distinct, TxOf, NextOf, FoulRound;
      state := FreshState("");
      var fetch := ServerAnswer(sys, backlog, want, cursor, weather);
      var left := Left(sys, backlog, want, weather);
      if weather.Foul? {
        FoulKeeps(c, sys, office, backlog, want, cursor, weather);
        var found := Found(c, sys, backlog, want, cursor, weather);
        var (after, failed) := FoulRound(c, sys, office, fetch, weather);
        sys, backlog := after, left;
        if failed {
          return true, found.Emit?, state;
        }
        if found.NoMessages? {
          return false, false, state;
        }
        return false, true, TxOf(c, sys, found.message.id).tx.mem;
      }
      NextMessage(c, sys, office, backlog, want, cursor);
      var out := NextOf(sys.poll, c.includeExisting, fetch, Fine).1;
      if out.NoMessages? {
        EmptyRound(c, sys, office, cursor);
        sys := Next(c, sys, Take(fetch, Fine, office.job("")));
        WhenACycleIsFit(c, sys, office, backlog);
        return false, false, state;
      }
      RoundKeepsFit(c, sys, office, backlog, want, cursor);
      sys, backlog := OneRound(c, sys, office, fetch, out.message.id), left;
      StoredResult(c, sys, out.message.id);
      WhenACycleIsFit(c, sys, office, backlog);
      return false, true, TxOf(c, sys, out.message.id).tx.mem;
    }

    /** `runSourceCycle`. Without an error it ends with every message of the list and of the backlog
        run to completion and taken off, each counted once. With an error, which only foul weather
        brings, the counts tell how many messages, from the first on, were completed before it, and the
        others are still there (the one that failed may have left the list). */
    method RunCycle(want: nat, cursor: string, weather: nat -> Weather)
      returns (err: bool, processedCount: nat, skippedCount: nat, deletedCount: nat)
      requires Fit() && cursor != ""
      modifies this
      ensures err ==> exists k :: weather(k).Foul?
      ensures Counted(c, sys, old(Remaining()), processedCount + skippedCount,
                      processedCount, skippedCount, deletedCount)
      ensures CanStart(c, sys, office, backlog)
      ensures !err ==> Fit() && Remaining() == [] && processedCount + skippedCount == |old(Remaining())|
      ensures err ==>
        var all, n := old(Remaining()), processedCount + skippedCount;
        && (Remaining() == all[n..] || (n < |all| && Remaining() == all[n + 1..]))
    {
      hide TxOf, Distinct, Tally, Counted, SysInv;
      err, processedCount, skippedCount, deletedCount := false, 0, 0, 0;
      ghost var all := Remaining();
      ghost var done := 0;
      NothingCounted(c, sys, all);
      assert Distinct(all);
      hide FitFor;
      while true
        invariant Fit() && done <= |all| && Remaining() == all[done..]
        invariant processedCount + skippedCount == done
        invariant Counted(c, sys, all, done, processedCount, skippedCount, deletedCount)
        decreases |all| - done
      {
        ghost var s := sys;
        var round := processedCount + skippedCount;
        var processed, state;
        err, processed, state := RunOnce(want, cursor, weather(round));
        if err {
          CountStays(c, s, sys, all, done, processedCount, skippedCount, deletedCount);
          assert done < |all| ==> all[done..][1..] == all[done + 1..];
          return;
        }
        if !processed {
          assert all[..done] == all;
          CountStays(c, s, sys, all, done, processedCount, skippedCount, deletedCount);
          return;
        }
        CountGrows(c, s, sys, all, done, processedCount, skippedCount, deletedCount);
        if state.skipped {
          skippedCount := skippedCount + 1;
        } else {
          processedCount := processedCount + 1;
        }
        if state.sourceDeleted {
          deletedCount := deletedCount + 1;
        }
        done := done + 1;
      }
    }
  }
}
