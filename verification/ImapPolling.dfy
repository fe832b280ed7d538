/** A polling source that reads an IMAP folder, within one UIDVALIDITY epoch: from the server's UIDs to
    the receipts in the store. */
module ImapPolling {
  import opened Text
  import opened Transaction
  import opened TransactionEffects
  import opened PollingProducer
  import opened PollSystem
  import opened PollTheorems
  import opened PollFresh
  import DeltaLink
  import ImapDelta

  type Server = nat -> ImapDelta.Tick

  /** A message goes by its UID, in decimal. */
  function Named(uids: seq<nat>): seq<Message> {
    seq(|uids|, i requires 0 <= i < |uids| => Message(DeltaLink.Decimal(uids[i])))
  }

  function LinkTo(uidValidity: nat, uid: nat): string {
    DeltaLink.Build(DeltaLink.DeltaState(uidValidity, uid))
  }

  /** What the producer reads: the cursor is parsed, the folder is polled, the new cursor is printed. */
  method ReadFolder(server: Server, now: nat, uidValidity: nat, delta: string)
    returns (fetch: Fetch, poll: ImapDelta.Poll, end: nat)
    requires ImapDelta.Lawful(server) && uidValidity < DeltaLink.UINT64_LIMIT
    requires forall n: nat :: server(n).uidNext <= DeltaLink.UINT64_LIMIT
    ensures end >= now
    ensures fetch.Fetched? ==>
      && |fetch.messages| == |poll.messages|
      && forall i | 0 <= i < |poll.messages| :: fetch.messages[i].id == DeltaLink.Decimal(poll.messages[i])
    ensures fetch.Fetched? ==>
      exists state: DeltaLink.DeltaState | DeltaLink.Parse(delta) == Some(state) ::
        && poll.start == now && poll.end == end && poll.last == ImapDelta.Origin(state, uidValidity)
        && (poll.last < DeltaLink.UINT64_LIMIT ==> poll.checkpoint < DeltaLink.UINT64_LIMIT)
        && ImapDelta.Gapless(server, poll)
        && fetch == Fetched(Named(poll.messages), LinkTo(uidValidity, poll.checkpoint))
  {
    hide ImapDelta.Lawful, ImapDelta.Gapless, DeltaLink.Parse, DeltaLink.Build;
    poll, end, fetch := ImapDelta.Poll(now, 0, [], 0, now), now, FetchFailed;
    var state := DeltaLink.Parse(delta);
    if state.None? {
      return;
    }
    var ok, messages, next;
    ok, messages, next, end := ImapDelta.DeltaCreatedMessages(server, now, uidValidity, state.value);
    if ok {
      poll := ImapDelta.Poll(now, ImapDelta.Origin(state.value, uidValidity), messages, next.lastUid, end);
      fetch := Fetched(Named(messages), DeltaLink.Build(next));
    }
  }

  /** The source with the server's clock, and the positions behind its two links: `cursor` for the
      durable one, `ahead` for the one that came with the list. `base` is where the source began to
      collect mail, `uids` the batch fetched last. */
  datatype World = World(sys: Sys, clock: nat, base: nat, cursor: nat, ahead: nat, uids: seq<nat>)

  datatype Deed = Ask(answer: Option<ImapDelta.Poll>, save: Verdict, job: Job) | Other(move: Move)

  function FetchOf(uidValidity: nat, answer: Option<ImapDelta.Poll>): Fetch {
    if answer.None? then FetchFailed
    else Fetched(Named(answer.value.messages), LinkTo(uidValidity, answer.value.checkpoint))
  }

  function MoveOf(uidValidity: nat, d: Deed): Move {
    match d
    case Ask(answer, save, job) => Take(FetchOf(uidValidity, answer), save, job)
    case Other(m) => m
  }

  /** The folder is really read: the worker is idle, the list is empty, and an answer comes. */
  predicate Reads(w: World, d: Deed) {
    d.Ask? && d.answer.Some? && w.sys.worker.None? && w.sys.poll.pending == []
  }

  function Act(c: Setting, uidValidity: nat, w: World, d: Deed): World {
    var t := Next(c, w.sys, MoveOf(uidValidity, d));
    if Reads(w, d) then
      var p := d.answer.value;
      var passedOver := w.sys.poll.delta == "" && !c.includeExisting;
      var v := w.(sys := t, clock := if p.end > w.clock then p.end else w.clock);
      if !d.save.Landed() then v
      else if p.messages == [] || passedOver then
        v.(cursor := p.checkpoint, base := if passedOver then p.checkpoint else w.base)
      else v.(ahead := p.checkpoint, uids := p.messages)
    else w.(sys := t, cursor := if w.sys.poll.pending != [] && t.poll.pending == [] then w.ahead else w.cursor)
  }

  /** What the environment may do: an answer of the server is a poll from the durable cursor, made no
      earlier than the last; other moves do not fetch. */
  ghost predicate Allowed(server: Server, w: World, d: Deed) {
    match d
    case Ask(answer, _, _) =>
      answer.Some? ==>
        var p := answer.value;
        && ImapDelta.Gapless(server, p) && p.start >= w.clock && p.last == w.cursor
        && p.checkpoint < DeltaLink.UINT64_LIMIT
    case Other(m) => !m.Take?
  }

  function Live(c: Setting, uidValidity: nat, deeds: seq<Deed>): World
    decreases |deeds|
  {
    if deeds == [] then World(Boot(), 0, 0, 0, 0, [])
    else Act(c, uidValidity, Live(c, uidValidity, deeds[..|deeds| - 1]), deeds[|deeds| - 1])
  }

  ghost predicate AllAllowed(c: Setting, server: Server, uidValidity: nat, deeds: seq<Deed>) {
    forall i | 0 <= i < |deeds| :: Allowed(server, Live(c, uidValidity, deeds[..i]), deeds[i])
  }

  // ---- every reachable world ----

  function Top(w: World): nat {
    if w.sys.poll.pending != [] then w.ahead else w.cursor
  }

  /** The durable links say what the positions are. */
  ghost predicate LinksInv(uidValidity: nat, w: World) {
    var s := w.sys.poll;
    && w.base <= w.cursor < DeltaLink.UINT64_LIMIT
    && (if s.delta == "" then w.cursor == 0 else s.delta == LinkTo(uidValidity, w.cursor))
    && (s.pending != [] ==>
          && w.cursor <= w.ahead < DeltaLink.UINT64_LIMIT && s.next == LinkTo(uidValidity, w.ahead)
          && w.sys.batch == Named(w.uids) && ImapDelta.Ascending(w.uids)
          && forall u | u in w.uids :: w.cursor < u <= w.ahead)
  }

  /** Every transaction belongs to a UID that was handed out. */
  ghost predicate KnownInv(w: World) {
    forall id | id in w.sys.txs :: exists u: nat :: id == DeltaLink.Decimal(u) && u <= Top(w)
  }

  /** The UID is accounted for, or its message is gone. */
  ghost predicate Settled(c: Setting, server: Server, w: World, u: nat) {
    Accounted(TxOf(c, w.sys, DeltaLink.Decimal(u))) || ImapDelta.Gone(server, u, w.clock)
  }

  ghost predicate MailInv(c: Setting, server: Server, w: World) {
    && (forall u: nat | w.base < u <= w.cursor :: Settled(c, server, w, u))
    && (w.sys.poll.pending != [] ==>
          forall u: nat | w.cursor < u <= w.ahead :: u in w.uids || ImapDelta.Gone(server, u, w.clock))
  }

  ghost predicate WorldInv(c: Setting, server: Server, uidValidity: nat, w: World) {
    FreshInv(c, w.sys) && LinksInv(uidValidity, w) && KnownInv(w) && MailInv(c, server, w)
  }

  lemma DecimalIsInjective(a: nat, b: nat)
    requires DeltaLink.Decimal(a) == DeltaLink.Decimal(b)
    ensures a == b
  {
    DeltaLink.DecimalIsNumeral(a);
    DeltaLink.DecimalIsNumeral(b);
  }

  lemma NamesAreDistinct(uids: seq<nat>)
    requires ImapDelta.Ascending(uids)
    ensures Distinct(Named(uids))
  {
    hide DeltaLink.Decimal;
    var names := Named(uids);
    forall i, j | 0 <= i < j < |names| ensures names[i].id != names[j].id {
      if names[i].id == names[j].id {
        DecimalIsInjective(uids[i], uids[j]);
      }
    }
  }

  /** What lies above everything handed out is new. */
  lemma AboveIsNew(c: Setting, w: World, uids: seq<nat>)
    requires KnownInv(w) && ImapDelta.Ascending(uids) && forall u | u in uids :: u > Top(w)
    ensures AllNew(c, w.sys, Named(uids))
  {
    hide DeltaLink.Decimal;
    NamesAreDistinct(uids);
    forall m | m in Named(uids) ensures !TxOf(c, w.sys, m.id).tx.Stored().sourceAcked {
      var i :| 0 <= i < |uids| && Named(uids)[i] == m;
      assert uids[i] in uids;
      if m.id in w.sys.txs {
        var u: nat :| m.id == DeltaLink.Decimal(u) && u <= Top(w);
        DecimalIsInjective(u, uids[i]);
      }
    }
  }

  lemma LaterGone(server: Server, u: nat, t: nat, later: nat)
    requires ImapDelta.Gone(server, u, t) && t <= later
    ensures ImapDelta.Gone(server, u, later)
  {
    var n: nat :| n <= t && u < server(n).uidNext && u !in server(n).order;
  }

  /** What is accounted for stays so. */
  lemma AccountsStay(c: Setting, s: Sys, m: Move, id: string)
    requires SysInv(c, s) && Accounted(TxOf(c, s, id))
    ensures Accounted(TxOf(c, Next(c, s, m), id))
  {
    hide TrimSpace, Tx.Step, Tx.Begin, IsLife, NextOf, Accounted, AfterAck;
    match m
    case Take(fetch, save, job) =>
      if s.worker.None? {
        TakeLives(c, s, fetch, save, job);
      }
    case Work(r) => if s.worker.Some? { WorkAccounts(c, s, r, id); }
    case Restart(landed) =>
      if s.worker.Some? {
        WorkAccounts(c, s, Death(landed), id);
      }
  }

  lemma WorkAccounts(c: Setting, s: Sys, r: Reply, id: string)
    requires SysInv(c, s) && Accounted(TxOf(c, s, id)) && s.worker.Some?
    ensures Accounted(TxOf(c, WorkStep(c, s, s.worker.value, r), id))
  {
    hide TrimSpace, Tx.Step, IsLife, Accounted, AfterAck;
    if s.worker.value == id {
      assert TxInv(c, s, id);
      AckFacts(c.txKey(id), s.txs[id], r);
    }
  }

  // ---- a deed that reads the folder ----

  /** What the producer makes of an answer. */
  lemma ReadFacts(c: Setting, uidValidity: nat, w: World, d: Deed)
    requires Reads(w, d) && SysInv(c, w.sys)
    ensures var s, t, p := w.sys, Act(c, uidValidity, w, d).sys, d.answer.value;
      var link := LinkTo(uidValidity, p.checkpoint);
      && t == Next(c, s, MoveOf(uidValidity, d))
      && t.poll == (if !d.save.Landed() then s.poll
                    else if p.messages == [] || (s.poll.delta == "" && !c.includeExisting) then PollState(link, "", [])
                    else PollState(s.poll.delta, link, Named(p.messages)))
      && (t.poll.pending != [] ==> t.batch == Named(p.messages))
      && (forall id | id in t.txs :: id in s.txs || (t.poll.pending != [] && id == t.poll.pending[0].id))
  {
    hide TrimSpace, Tx.Begin, IsLife, Accounted, DeltaLink.Build, DeltaLink.Decimal, ForMessage, TxInv;
  }

  lemma ReadLinks(c: Setting, server: Server, uidValidity: nat, w: World, d: Deed)
    requires WorldInv(c, server, uidValidity, w) && Allowed(server, w, d) && Reads(w, d)
    ensures var v := Act(c, uidValidity, w, d); LinksInv(uidValidity, v) && KnownInv(v)
  {
    hide SysInv, AllNew, MailInv, Next, ImapDelta.Covered, DeltaLink.Build, DeltaLink.Decimal, TxOf, BeforeAck;
    ReadFacts(c, uidValidity, w, d);
    LinkIsSome(uidValidity, d.answer.value.checkpoint);
    var v, p := Act(c, uidValidity, w, d), d.answer.value;
    forall id | id in v.sys.txs ensures exists u: nat :: id == DeltaLink.Decimal(u) && u <= Top(v) {
      if id in w.sys.txs {
        var u: nat :| id == DeltaLink.Decimal(u) && u <= Top(w);
        assert u <= Top(v);
      } else {
        assert id == DeltaLink.Decimal(p.messages[0]) && p.messages[0] in p.messages;
      }
    }
  }

  lemma LinkIsSome(uidValidity: nat, uid: nat)
    ensures LinkTo(uidValidity, uid) != ""
  {
    hide DeltaLink.Decimal;
  }

  /** Accounts that are settled stay settled. */
  lemma SettledStays(c: Setting, server: Server, uidValidity: nat, w: World, d: Deed, u: nat)
    requires SysInv(c, w.sys) && Settled(c, server, w, u)
    ensures Settled(c, server, Act(c, uidValidity, w, d), u)
  {
    hide SysInv, Accounted, Next, ImapDelta.Gone, DeltaLink.Decimal, DeltaLink.Build, TxOf;
    var v := Act(c, uidValidity, w, d);
    if ImapDelta.Gone(server, u, w.clock) {
      LaterGone(server, u, w.clock, v.clock);
    } else {
      AccountsStay(c, w.sys, MoveOf(uidValidity, d), DeltaLink.Decimal(u));
    }
  }

  lemma ReadMail(c: Setting, server: Server, uidValidity: nat, w: World, d: Deed)
    requires WorldInv(c, server, uidValidity, w) && Allowed(server, w, d) && Reads(w, d)
    ensures MailInv(c, server, Act(c, uidValidity, w, d))
  {
    hide AllNew, Next, Settled, ImapDelta.Gone, DeltaLink.Build, DeltaLink.Decimal, TxOf, BeforeAck, KnownInv, SysInv;
    ReadFacts(c, uidValidity, w, d);
    var v, p := Act(c, uidValidity, w, d), d.answer.value;
    forall u: nat | w.base < u <= w.cursor ensures Settled(c, server, v, u) {
      SettledStays(c, server, uidValidity, w, d, u);
    }
    forall u: nat | w.cursor < u <= p.checkpoint ensures u in p.messages || ImapDelta.Gone(server, u, v.clock) {
      assert ImapDelta.Covered(server, p.messages, u, p.end);
      if u !in p.messages {
        LaterGone(server, u, p.end, v.clock);
      }
    }
    forall u: nat | ImapDelta.Gone(server, u, v.clock) ensures Settled(c, server, v, u) {
      GoneIsSettled(c, server, v, u);
    }
  }

  lemma GoneIsSettled(c: Setting, server: Server, w: World, u: nat)
    requires ImapDelta.Gone(server, u, w.clock)
    ensures Settled(c, server, w, u)
  {
    hide ImapDelta.Gone, Accounted;
  }

  lemma ReadKeeps(c: Setting, server: Server, uidValidity: nat, w: World, d: Deed)
    requires WorldInv(c, server, uidValidity, w) && Allowed(server, w, d) && Reads(w, d)
    ensures WorldInv(c, server, uidValidity, Act(c, uidValidity, w, d))
  {
    hide FreshInv, LinksInv, KnownInv, MailInv, Next, AllNew, DeltaLink.Build, DeltaLink.Decimal;
    FreshIsSound(c, w.sys);
    AboveIsNew(c, w, d.answer.value.messages);
    FreshMove(c, w.sys, MoveOf(uidValidity, d));
    ReadLinks(c, server, uidValidity, w, d);
    ReadMail(c, server, uidValidity, w, d);
    ReadFacts(c, uidValidity, w, d);
  }

  // ---- any other deed ----

  lemma OtherFacts(c: Setting, uidValidity: nat, w: World, d: Deed)
    requires SysInv(c, w.sys) && !Reads(w, d) && (d.Other? ==> !d.move.Take?)
    ensures var s, v := w.sys, Act(c, uidValidity, w, d);
      var t := v.sys;
      && t == Next(c, s, MoveOf(uidValidity, d)) && v.clock == w.clock && v.base == w.base
      && v.ahead == w.ahead && v.uids == w.uids && t.batch == s.batch
      && (t.poll == s.poll || (s.poll.pending != [] && t.poll == AfterAck(s.poll, s.poll.pending[0].id)))
      && (forall id | id in t.txs :: id in s.txs || (s.poll.pending != [] && id == s.poll.pending[0].id))
      && !Fetches(s, MoveOf(uidValidity, d))
  {
    hide TrimSpace, Tx.Begin, Tx.Step, IsLife, Accounted, AfterAck, ForMessage, TxInv;
    hide DeltaLink.Build, DeltaLink.Decimal;
  }

  lemma OtherLinks(c: Setting, server: Server, uidValidity: nat, w: World, d: Deed)
    requires WorldInv(c, server, uidValidity, w) && Allowed(server, w, d) && !Reads(w, d)
    ensures var v := Act(c, uidValidity, w, d); LinksInv(uidValidity, v) && Top(v) == Top(w)
  {
    hide FreshInv, KnownInv, MailInv, Next, SysInv, AfterAck, LinkTo, Named, ImapDelta.Ascending, Act;
    FreshIsSound(c, w.sys);
    OtherFacts(c, uidValidity, w, d);
    var v := Act(c, uidValidity, w, d);
    if w.sys.poll.pending != [] {
      AckedHead(w.sys.poll);
      LinkIsSome(uidValidity, w.ahead);
    }
    assert v.cursor == if w.sys.poll.pending != [] && v.sys.poll.pending == [] then w.ahead else w.cursor by {
      CursorOf(c, uidValidity, w, d);
    }
  }

  lemma CursorOf(c: Setting, uidValidity: nat, w: World, d: Deed)
    requires !Reads(w, d)
    ensures var v := Act(c, uidValidity, w, d);
      v.cursor == if w.sys.poll.pending != [] && v.sys.poll.pending == [] then w.ahead else w.cursor
  {
    hide Next, DeltaLink.Build, Named;
  }

  lemma OtherKnown(c: Setting, server: Server, uidValidity: nat, w: World, d: Deed)
    requires WorldInv(c, server, uidValidity, w) && Allowed(server, w, d) && !Reads(w, d)
    requires Top(Act(c, uidValidity, w, d)) == Top(w)
    ensures KnownInv(Act(c, uidValidity, w, d))
  {
    hide FreshInv, MailInv, Next, SysInv, AfterAck, DeltaLink.Build, DeltaLink.Decimal, ImapDelta.Gapless, Act, Top;
    FreshIsSound(c, w.sys);
    OtherFacts(c, uidValidity, w, d);
    var s, v := w.sys, Act(c, uidValidity, w, d);
    if s.poll.pending != [] {
      HeadIsKnown(c, uidValidity, w);
    }
    forall id | id in v.sys.txs ensures exists u: nat :: id == DeltaLink.Decimal(u) && u <= Top(v) {
      assert id in s.txs || id == s.poll.pending[0].id;
    }
  }

  lemma HeadIsKnown(c: Setting, uidValidity: nat, w: World)
    requires SysInv(c, w.sys) && LinksInv(uidValidity, w) && w.sys.poll.pending != []
    ensures exists u: nat :: w.sys.poll.pending[0].id == DeltaLink.Decimal(u) && u <= Top(w)
  {
    hide TxInv, Accounted, DeltaLink.Decimal, DeltaLink.Build;
    var i := PollSystem.Gone(w.sys);
    assert w.sys.poll.pending[0] == w.sys.batch[i] == Named(w.uids)[i];
    assert w.uids[i] in w.uids;
  }

  lemma OtherMail(c: Setting, server: Server, uidValidity: nat, w: World, d: Deed)
    requires WorldInv(c, server, uidValidity, w) && Allowed(server, w, d) && !Reads(w, d)
    requires SysInv(c, Act(c, uidValidity, w, d).sys)
    ensures MailInv(c, server, Act(c, uidValidity, w, d))
  {
    hide AllNew, Next, SysInv, AfterAck, DeltaLink.Build, DeltaLink.Decimal, TxOf, BeforeAck, ImapDelta.Gapless;
    hide Settled, ImapDelta.Gone, KnownInv;
    OtherFacts(c, uidValidity, w, d);
    FreshIsSound(c, w.sys);
    var v := Act(c, uidValidity, w, d);
    forall u: nat | w.base < u <= w.cursor ensures Settled(c, server, v, u) {
      SettledStays(c, server, uidValidity, w, d, u);
    }
    if w.sys.poll.pending != [] && v.sys.poll.pending == [] {
      forall u: nat | w.cursor < u <= w.ahead ensures Settled(c, server, v, u) {
        if u in w.uids {
          WholeBatchIsSettled(c, server, v, w.uids, u);
        } else {
          GoneIsSettled(c, server, v, u);
        }
      }
    }
  }

  lemma WholeBatchIsSettled(c: Setting, server: Server, w: World, uids: seq<nat>, u: nat)
    requires SysInv(c, w.sys) && w.sys.poll.pending == [] && w.sys.batch == Named(uids) && u in uids
    ensures Settled(c, server, w, u)
  {
    hide TxInv, Accounted, ImapDelta.Gone, DeltaLink.Decimal;
    var i :| 0 <= i < |uids| && uids[i] == u;
    assert w.sys.batch[i].id == DeltaLink.Decimal(u);
  }

  lemma OtherKeeps(c: Setting, server: Server, uidValidity: nat, w: World, d: Deed)
    requires WorldInv(c, server, uidValidity, w) && Allowed(server, w, d) && !Reads(w, d)
    ensures WorldInv(c, server, uidValidity, Act(c, uidValidity, w, d))
  {
    hide FreshInv, LinksInv, KnownInv, MailInv, Next, AllNew, DeltaLink.Build, DeltaLink.Decimal, Fetches, Act;
    FreshIsSound(c, w.sys);
    OtherFacts(c, uidValidity, w, d);
    FreshMove(c, w.sys, MoveOf(uidValidity, d));
    FreshIsSound(c, Act(c, uidValidity, w, d).sys);
    OtherLinks(c, server, uidValidity, w, d);
    OtherKnown(c, server, uidValidity, w, d);
    OtherMail(c, server, uidValidity, w, d);
  }

  lemma {:induction false} LiveKeeps(c: Setting, server: Server, uidValidity: nat, deeds: seq<Deed>)
    requires AllAllowed(c, server, uidValidity, deeds)
    ensures WorldInv(c, server, uidValidity, Live(c, uidValidity, deeds))
  {
    hide Act, WorldInv, Allowed, Reads;
    if deeds != [] {
      var init, d := deeds[..|deeds| - 1], deeds[|deeds| - 1];
      forall i | 0 <= i < |init| ensures Allowed(server, Live(c, uidValidity, init[..i]), init[i]) {
        assert init[..i] == deeds[..i];
      }
      LiveKeeps(c, server, uidValidity, init);
      var w := Live(c, uidValidity, init);
      assert Allowed(server, w, d);
      if Reads(w, d) {
        ReadKeeps(c, server, uidValidity, w, d);
      } else {
        OtherKeeps(c, server, uidValidity, w, d);
      }
    } else {
      BootWorld(c, server, uidValidity);
    }
  }

  lemma BootWorld(c: Setting, server: Server, uidValidity: nat)
    ensures WorldInv(c, server, uidValidity, Live(c, uidValidity, []))
  {
    BatchIsAccountedFor(c, []);
  }

  /** In every reachable world the durable link is readable, and a poll from it starts at the cursor. */
  lemma LinkIsReadable(c: Setting, server: Server, uidValidity: nat, deeds: seq<Deed>)
    requires AllAllowed(c, server, uidValidity, deeds) && uidValidity < DeltaLink.UINT64_LIMIT
    ensures var w := Live(c, uidValidity, deeds);
      var state := DeltaLink.Parse(w.sys.poll.delta);
      state.Some? && ImapDelta.Origin(state.value, uidValidity) == w.cursor
  {
    hide FreshInv, KnownInv, MailInv, DeltaLink.Build, DeltaLink.Parse, Live;
    LiveKeeps(c, server, uidValidity, deeds);
    var w := Live(c, uidValidity, deeds);
    if w.sys.poll.delta == "" {
      BlankLink();
    } else {
      DeltaLink.ParseInvertsBuild(DeltaLink.DeltaState(uidValidity, w.cursor));
    }
  }

  /** Reading the folder from the durable link of a reachable world, no earlier than the last reading,
      gives an answer that these lives allow, and the lives take it for what was read. */
  method ReadOn(c: Setting, server: Server, uidValidity: nat, ghost deeds: seq<Deed>, delta: string, now: nat)
    returns (fetch: Fetch, answer: Option<ImapDelta.Poll>, end: nat)
    requires ImapDelta.Lawful(server) && uidValidity < DeltaLink.UINT64_LIMIT
    requires forall n: nat :: server(n).uidNext <= DeltaLink.UINT64_LIMIT
    requires AllAllowed(c, server, uidValidity, deeds)
    requires var w := Live(c, uidValidity, deeds); delta == w.sys.poll.delta && now >= w.clock
    ensures end >= now && fetch == FetchOf(uidValidity, answer)
    ensures forall save, job :: Allowed(server, Live(c, uidValidity, deeds), Ask(answer, save, job))
  {
    hide ImapDelta.Lawful, ImapDelta.Gapless, DeltaLink.Parse, DeltaLink.Build, Live, AllAllowed, LinkTo, Named;
    LinkIsReadable(c, server, uidValidity, deeds);
    CursorFits(c, server, uidValidity, deeds);
    var poll;
    fetch, poll, end := ReadFolder(server, now, uidValidity, delta);
    answer := if fetch.Fetched? then Some(poll) else None;
  }

  lemma CursorFits(c: Setting, server: Server, uidValidity: nat, deeds: seq<Deed>)
    requires AllAllowed(c, server, uidValidity, deeds)
    ensures Live(c, uidValidity, deeds).cursor < DeltaLink.UINT64_LIMIT
  {
    hide FreshInv, KnownInv, MailInv, Live;
    LiveKeeps(c, server, uidValidity, deeds);
  }

  lemma BlankLink()
    ensures DeltaLink.Parse("") == Some(DeltaLink.DeltaState(0, 0))
  {
  }

  /** Whatever fails on the way, and however the folder changes meanwhile: a message that is still in
      the folder at or below the durable cursor, and came after the source began to collect, has all its
      required receipts in the store or was skipped by the processor. */
  lemma FolderIsAccountedFor(c: Setting, server: Server, uidValidity: nat, deeds: seq<Deed>, uid: nat, now: nat)
    requires ImapDelta.Lawful(server) && AllAllowed(c, server, uidValidity, deeds)
    requires var w := Live(c, uidValidity, deeds);
      now >= w.clock && uid in server(now).order && w.base < uid <= w.cursor
    ensures var w := Live(c, uidValidity, deeds);
      Accounted(TxOf(c, w.sys, DeltaLink.Decimal(uid)))
  {
    hide FreshInv, KnownInv, ImapDelta.Gone, ImapDelta.Lawful, DeltaLink.Decimal, DeltaLink.Build, DeltaLink.Parse;
    hide Accounted, TxOf, Live;
    LiveKeeps(c, server, uidValidity, deeds);
    var w := Live(c, uidValidity, deeds);
    assert Settled(c, server, w, uid);
    if ImapDelta.Gone(server, uid, w.clock) {
      LaterGone(server, uid, w.clock, now);
      ImapDelta.GoneForEver(server, uid, now);
    }
  }

  /** Within one epoch no message comes back: the messages of the list are distinct, none of them has
      been acknowledged before, so none can block the source. */
  lemma NothingBlocksInOneEpoch(c: Setting, server: Server, uidValidity: nat, deeds: seq<Deed>, id: string)
    requires AllAllowed(c, server, uidValidity, deeds)
    ensures var s := Live(c, uidValidity, deeds).sys;
      && Distinct(s.poll.pending)
      && (forall m | m in s.poll.pending :: !TxOf(c, s, m.id).tx.Stored().sourceAcked)
      && !Blocked(c, s, id)
  {
    hide LinksInv, KnownInv, MailInv, SysInv, TxOf, Distinct, Live, Blocked;
    LiveKeeps(c, server, uidValidity, deeds);
    FreshIsNotBlocked(c, Live(c, uidValidity, deeds).sys, id);
  }
}
