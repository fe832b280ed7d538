/** Incremental reading of an IMAP folder: search above the cursor, fetch in chunks, fall back to
    single fetches, stop at the first that fails, and move the cursor no further than is safe. */
module ImapDelta {
  import opened Ordering
  import opened DeltaLink
  import opened ImapLimits

  /** The server at one moment, when it answers one command: the messages in the folder, in the order
      in which a FETCH lists them, the next UID, whether it announces that, and whether the command fails. */
  datatype Tick = Tick(order: seq<nat>, uidNext: nat, announced: bool, fails: bool)

  /** `b` is a later moment than `a`: what has been expunged does not come back, and a new message
      gets a UID that had not been passed yet (section 2.3.1.1 of RFC 3501). */
  ghost predicate Later(a: Tick, b: Tick) {
    && a.uidNext <= b.uidNext
    && forall u | u in b.order :: u in a.order || u >= a.uidNext
  }

  /** The server over time, one tick per command, within one UIDVALIDITY epoch. */
  ghost predicate Lawful(server: nat -> Tick) {
    && (forall n: nat :: server(n).uidNext >= 1 && NoDuplicates(server(n).order))
    && (forall n: nat :: forall u | u in server(n).order :: 1 <= u < server(n).uidNext)
    && (forall n: nat, m: nat | n <= m :: Later(server(n), server(m)))
  }

  /** The message was expunged by time `t`: its UID had been passed, and it was not there. */
  ghost predicate Gone(server: nat -> Tick, u: nat, t: nat) {
    exists n: nat | n <= t :: u < server(n).uidNext && u !in server(n).order
  }

  /** What is gone stays gone. */
  lemma GoneForEver(server: nat -> Tick, u: nat, t: nat)
    requires Lawful(server) && Gone(server, u, t)
    ensures u !in server(t).order
  {
    var n: nat :| n <= t && u < server(n).uidNext && u !in server(n).order;
    assert Later(server(n), server(t));
  }

  predicate UidOrder(a: nat, b: nat) {
    a <= b
  }

  ghost predicate Ascending(s: seq<nat>) {
    forall i, j | 0 <= i < j < |s| :: s[i] < s[j]
  }

  function Keep(s: seq<nat>, p: nat -> bool): seq<nat> {
    if s == [] then [] else (if p(s[0]) then [s[0]] else []) + Keep(s[1..], p)
  }

  lemma {:induction false} KeepKeeps(s: seq<nat>, p: nat -> bool)
    ensures forall u :: u in Keep(s, p) <==> u in s && p(u)
    ensures NoDuplicates(s) ==> NoDuplicates(Keep(s, p))
  {
    if s != [] {
      KeepKeeps(s[1..], p);
      assert s == [s[0]] + s[1..];
    }
  }

  /** The listing of distinct UIDs, in ascending order. */
  function Sorted(s: seq<nat>): seq<nat> {
    Sort(s, UidOrder)
  }

  lemma SortedAscends(s: seq<nat>)
    requires NoDuplicates(s)
    ensures Ascending(Sorted(s)) && forall u :: u in Sorted(s) <==> u in s
  {
    SortSorts(s, UidOrder);
    SortKeepsDistinct(s, UidOrder);
  }

  // ---- the commands ----

  /** FETCH lists those of the UIDs asked for that exist. */
  function Fetched(tick: Tick, asked: seq<nat>): seq<nat> {
    Keep(tick.order, u => u in asked)
  }

  /** UID SEARCH above `last`, ascending. */
  function Searched(tick: Tick, last: nat): seq<nat> {
    Sorted(Keep(tick.order, u => u > last))
  }

  lemma FetchedFacts(server: nat -> Tick, t: nat, asked: seq<nat>)
    requires Lawful(server)
    ensures var r := Sorted(Fetched(server(t), asked));
      Ascending(r) && forall u :: u in r <==> u in asked && u in server(t).order
  {
    KeepKeeps(server(t).order, u => u in asked);
    SortedAscends(Fetched(server(t), asked));
  }

  lemma SearchedFacts(server: nat -> Tick, t: nat, last: nat)
    requires Lawful(server)
    ensures var r := Searched(server(t), last);
      Ascending(r) && forall u :: u in r <==> u > last && u in server(t).order
  {
    KeepKeeps(server(t).order, u => u > last);
    SortedAscends(Keep(server(t).order, u => u > last));
  }

  /** `u` was delivered, or had been expunged when it was asked for. */
  ghost predicate Covered(server: nat -> Tick, messages: seq<nat>, u: nat, t: nat) {
    u in messages || Gone(server, u, t)
  }

  /** The state of the fetch loops: the first `k` UIDs are dealt with, by time `t`. */
  ghost predicate Progressed(server: nat -> Tick, uids: seq<nat>, messages: seq<nat>, through: nat, k: nat, t: nat) {
    && k <= |uids|
    && Ascending(messages)
    && (forall u | u in messages :: u in uids[..k])
    && (forall u | u in uids[..k] :: Covered(server, messages, u, t))
    && through == if k == 0 then 0 else uids[k - 1]
  }

  /** One successful fetch of the UIDs `k` to `e`. */
  lemma Advance(server: nat -> Tick, uids: seq<nat>, messages: seq<nat>, through: nat, k: nat, e: nat, t: nat)
    requires Lawful(server) && Ascending(uids) && k < e <= |uids|
    requires forall u | u in uids :: u < server(t).uidNext
    requires Progressed(server, uids, messages, through, k, t)
    ensures Progressed(server, uids, messages + Sorted(Fetched(server(t), uids[k..e])), uids[e - 1], e, t + 1)
  {
    hide Lawful, Sorted, Fetched;
    var more := Sorted(Fetched(server(t), uids[k..e]));
    FetchedFacts(server, t, uids[k..e]);
    assert uids[..e] == uids[..k] + uids[k..e];
    forall u | u in uids[..e] ensures Covered(server, messages + more, u, t + 1) {
      if u in uids[..k] {
        assert Covered(server, messages, u, t);
      } else if u !in more {
        assert u in uids && u < server(t).uidNext && u !in server(t).order;
      }
    }
    assert Ascending(messages + more) by {
      hide Covered;
      forall i, j | 0 <= i < j < |messages + more| ensures (messages + more)[i] < (messages + more)[j] {
        if i < |messages| <= j {
          assert messages[i] in uids[..k] && more[j - |messages|] in uids[k..e];
          BelowLater(uids, k, e, messages[i], more[j - |messages|]);
        }
      }
    }
  }

  lemma BelowLater(uids: seq<nat>, k: nat, e: nat, a: nat, b: nat)
    requires Ascending(uids) && k <= e <= |uids| && a in uids[..k] && b in uids[k..e]
    ensures a < b
  {
    var i :| 0 <= i < k && uids[i] == a;
    var j :| 0 <= j < e - k && uids[k..e][j] == b;
    assert uids[k + j] == b;
  }

  // ---- the loops ----

  /** A command between the times `t0` and `t` failed. */
  ghost predicate SomeFailure(server: nat -> Tick, t0: nat, t: nat) {
    exists n: nat | t0 <= n < t :: server(n).fails
  }

  /** `fetchHeaderMessagesUntilFailureWithClient`, from time `t0` on. */
  method FetchUntilFailure(server: nat -> Tick, t0: nat, uids: seq<nat>)
    returns (messages: seq<nat>, fetchedThrough: nat, complete: bool, t: nat, ghost k: nat)
    requires Lawful(server) && Ascending(uids)
    requires forall u, n: nat | u in uids && n >= t0 :: u < server(n).uidNext
    ensures t >= t0 && Progressed(server, uids, messages, fetchedThrough, k, t)
    ensures complete <==> k == |uids|
    ensures !complete ==> SomeFailure(server, t0, t)
    ensures !SomeFailure(server, t0, t) ==> 128 * (t - t0 - 1) < |uids| <= 128 * (t - t0)
  {
    hide Lawful, Sorted, Fetched, Progressed;
    messages, fetchedThrough, t, k := [], 0, t0, 0;
    assert Progressed(server, uids, messages, fetchedThrough, 0, t) by { NothingYet(server, uids, t); }
    var start := 0;
    while start < |uids|
      invariant t >= t0 && Progressed(server, uids, messages, fetchedThrough, k, t)
      invariant k == if start < |uids| then start else |uids|
      invariant start < |uids| + 128 && (!SomeFailure(server, t0, t) ==> start == 128 * (t - t0))
    {
      var end := if start + HEADER_FETCH_BATCH_SIZE > |uids| then |uids| else start + HEADER_FETCH_BATCH_SIZE;
      var chunk := uids[start..end];
      var failed := server(t).fails;
      var listed := Fetched(server(t), chunk);
      t := t + 1;
      LaterFailure(server, t0, t - 1, t);
      if !failed {
        Advance(server, uids, messages, fetchedThrough, k, end, t - 1);
        messages, fetchedThrough, k := messages + Sorted(listed), chunk[|chunk| - 1], end;
        start := start + HEADER_FETCH_BATCH_SIZE;
        continue;
      }
      Wait(server, uids, messages, fetchedThrough, k, t - 1, t);
      assert SomeFailure(server, t0, t) by { assert server(t - 1).fails; }
      for i := 0 to |chunk|
        invariant t >= t0 && k == start + i && SomeFailure(server, t0, t)
        invariant Progressed(server, uids, messages, fetchedThrough, k, t)
      {
        var uid := chunk[i];
        var singleFailed := server(t).fails;
        var single := Fetched(server(t), [uid]);
        t := t + 1;
        LaterFailure(server, t0, t - 1, t);
        if singleFailed {
          Wait(server, uids, messages, fetchedThrough, k, t - 1, t);
          return messages, fetchedThrough, false, t, k;
        }
        assert uids[k..k + 1] == [uid];
        Advance(server, uids, messages, fetchedThrough, k, k + 1, t - 1);
        messages, fetchedThrough, k := messages + Sorted(single), uid, k + 1;
      }
      start := start + HEADER_FETCH_BATCH_SIZE;
    }
    complete := true;
  }

  lemma NothingYet(server: nat -> Tick, uids: seq<nat>, t: nat)
    ensures Progressed(server, uids, [], 0, 0, t)
  {
  }

  lemma Wait(server: nat -> Tick, uids: seq<nat>, messages: seq<nat>, through: nat, k: nat, t: nat, later: nat)
    requires Progressed(server, uids, messages, through, k, t) && t <= later
    ensures Progressed(server, uids, messages, through, k, later)
  {
    forall u | u in uids[..k] ensures Covered(server, messages, u, later) {
      assert Covered(server, messages, u, t);
    }
  }

  // ---- one poll ----

  /** Where the search starts: at the cursor, or anew when the folder has been rebuilt. */
  function Origin(link: DeltaState, uidValidity: nat): nat {
    if link.uidValidity != 0 && uidValidity != 0 && link.uidValidity != uidValidity then 0 else link.lastUid
  }

  /** A poll between the times `start` and `end`, from the cursor `last` to the cursor `checkpoint`. */
  datatype Poll = Poll(start: nat, last: nat, messages: seq<nat>, checkpoint: nat, end: nat)

  /** The poll skips nothing: in ascending order, it delivers every message between the two cursors,
      except what had been expunged, and nothing else; without a failure it delivers everything above
      the old cursor that was there when it began. */
  ghost predicate Gapless(server: nat -> Tick, p: Poll) {
    && p.start <= p.end && p.last <= p.checkpoint
    && Ascending(p.messages)
    && (forall u | u in p.messages :: p.last < u <= p.checkpoint && u in server(p.start + 1).order)
    && (forall u: nat | p.last < u <= p.checkpoint :: Covered(server, p.messages, u, p.end))
    && (SomeFailure(server, p.start, p.end)
        || forall u | u in server(p.start).order && u > p.last :: Covered(server, p.messages, u, p.end))
  }

  /** `deltaCreatedMessagesViaGoIMAP`. */
  method DeltaCreatedMessages(server: nat -> Tick, t0: nat, uidValidity: nat, link: DeltaState)
    returns (ok: bool, messages: seq<nat>, next: DeltaState, end: nat)
    requires Lawful(server)
    ensures !ok ==> SomeFailure(server, t0, end)
    ensures end > t0
    ensures ok ==> next.uidValidity == uidValidity
    ensures ok ==> next.lastUid == Origin(link, uidValidity) || next.lastUid < server(end).uidNext
    ensures ok ==> Gapless(server, Poll(t0, Origin(link, uidValidity), messages, next.lastUid, end))
    // a rebuilt folder is read from its beginning
    ensures ok && link.uidValidity != 0 && uidValidity != 0 && link.uidValidity != uidValidity ==>
      (!SomeFailure(server, t0, end) ==> forall u | u in server(t0).order :: Covered(server, messages, u, end))
    // and the same folder from the cursor, as is one whose epoch is not known on either side
    ensures ok && (link.uidValidity == uidValidity || link.uidValidity == 0 || uidValidity == 0) ==>
      (forall u | u in messages :: u > link.lastUid) && next.lastUid >= link.lastUid
    // a complete poll that listed something moves the cursor past every UID the server had announced
    ensures ok && !SomeFailure(server, t0, end) && server(t0).announced && messages != [] ==>
      next.lastUid + 1 >= server(t0).uidNext
  {
    hide Lawful, Sorted, Searched, Progressed;
    PositiveUids(server);
    ok, messages, next, end := false, [], link, t0 + 1;
    if server(t0).fails {
      return;
    }
    var uidNext := if server(t0).announced then server(t0).uidNext else 0;
    var lastUid := link.lastUid;
    if link.uidValidity != 0 && uidValidity != 0 && link.uidValidity != uidValidity {
      lastUid := 0;
    }
    var checkpoint := lastUid;
    NothingAbove(server, t0, lastUid);
    if uidNext == 0 || lastUid + 1 < uidNext {
      var ids := Searched(server(t0 + 1), lastUid);
      end := t0 + 2;
      if server(t0 + 1).fails {
        return;
      }
      SearchedFacts(server, t0 + 1, lastUid);
      UnlistedIsGone(server, t0, lastUid, ids);
      if |ids| > 0 {
        var fetchedThrough, complete;
        ghost var k;
        messages, fetchedThrough, complete, end, k := FetchUntilFailure(server, t0 + 2, ids);
        if fetchedThrough > checkpoint {
          checkpoint := fetchedThrough;
        }
        if complete && uidNext > 0 && uidNext - 1 > checkpoint {
          checkpoint := uidNext - 1;
        }
        ThroughIsListed(server, ids, messages, fetchedThrough, k, end);
        FetchedIsGapless(server, t0, lastUid, ids, messages, fetchedThrough, k, end);
      }
    }
    assert Later(server(t0), server(end)) && Later(server(t0 + 1), server(end)) by { Order(server, t0, end); }
    return true, messages, DeltaState(uidValidity, checkpoint), end;
  }

  lemma PositiveUids(server: nat -> Tick)
    requires Lawful(server)
    ensures forall n: nat :: forall u | u in server(n).order :: u > 0
    ensures forall n: nat :: server(n).uidNext > 0
  {
  }

  lemma ThroughIsListed(server: nat -> Tick, uids: seq<nat>, messages: seq<nat>, through: nat, k: nat, t: nat)
    requires Progressed(server, uids, messages, through, k, t)
    ensures through == 0 || through in uids
  {
  }

  lemma Order(server: nat -> Tick, t: nat, end: nat)
    requires Lawful(server) && end > t
    ensures Later(server(t), server(end)) && Later(server(t + 1), server(end))
  {
  }

  lemma NothingAbove(server: nat -> Tick, t: nat, last: nat)
    requires Lawful(server)
    ensures last + 1 >= server(t).uidNext ==> forall u | u in server(t).order :: u <= last
  {
  }

  /** What the search does not list and had a UID before it is gone; what it lists has a UID for good. */
  lemma UnlistedIsGone(server: nat -> Tick, t0: nat, last: nat, ids: seq<nat>)
    requires Lawful(server)
    requires forall u :: u in ids <==> u > last && u in server(t0 + 1).order
    ensures forall u, n: nat | u in ids && n >= t0 + 2 :: u < server(n).uidNext
    ensures forall u: nat, v | v in ids && last < u <= v && u !in ids :: Gone(server, u, t0 + 2)
    ensures forall u: nat | last < u < server(t0).uidNext && u !in ids :: Gone(server, u, t0 + 2)
    ensures forall u | u in server(t0).order && u > last :: u in ids || Gone(server, u, t0 + 2)
  {
    assert Later(server(t0), server(t0 + 1));
    forall u, n: nat | u in ids && n >= t0 + 2 ensures u < server(n).uidNext {
      assert Later(server(t0 + 1), server(n));
    }
  }

  lemma FetchedIsGapless(server: nat -> Tick, t0: nat, last: nat, ids: seq<nat>,
                         messages: seq<nat>, through: nat, k: nat, end: nat)
    requires Progressed(server, ids, messages, through, k, end) && end >= t0 + 2 && Ascending(ids)
    requires forall u :: u in ids <==> u > last && u in server(t0 + 1).order
    requires forall u: nat, v | v in ids && last < u <= v && u !in ids :: Gone(server, u, t0 + 2)
    requires forall u: nat | last < u < server(t0).uidNext && u !in ids :: Gone(server, u, t0 + 2)
    requires forall u | u in server(t0).order && u > last :: u in ids || Gone(server, u, t0 + 2)
    ensures Ascending(messages)
    ensures forall u | u in messages :: last < u <= through && u in server(t0 + 1).order
    ensures forall u: nat | last < u <= through :: Covered(server, messages, u, end)
    ensures k == |ids| ==> forall u: nat | last < u < server(t0).uidNext :: Covered(server, messages, u, end)
    ensures k == |ids| ==> forall u | u in server(t0).order && u > last :: Covered(server, messages, u, end)
  {
    assert forall u | u in ids[..k] :: u in ids && u <= through;
    assert forall u | u in ids && u <= through && k > 0 :: u in ids[..k];
    assert k == |ids| ==> ids[..k] == ids;
    assert k > 0 ==> ids[k - 1] in ids;
  }

  // ---- any number of polls ----

  ghost predicate Chained(server: nat -> Tick, polls: seq<Poll>) {
    && (forall i | 0 <= i < |polls| :: Gapless(server, polls[i]))
    && (forall i | 0 < i < |polls| :: polls[i].last == polls[i - 1].checkpoint && polls[i - 1].end <= polls[i].start)
  }

  function Delivered(polls: seq<Poll>): seq<nat> {
    if polls == [] then [] else Delivered(polls[..|polls| - 1]) + polls[|polls| - 1].messages
  }

  lemma AscendingConcat(a: seq<nat>, b: seq<nat>, mid: nat)
    requires Ascending(a) && Ascending(b)
    requires (forall u | u in a :: u <= mid) && (forall u | u in b :: u > mid)
    ensures Ascending(a + b)
  {
    forall i, j | 0 <= i < j < |a + b| ensures (a + b)[i] < (a + b)[j] {
      if i < |a| <= j {
        assert a[i] in a && b[j - |a|] in b;
      }
    }
  }

  /** The cursor has never fallen back, messages were delivered once each in ascending order, and
      every message still in the folder at or below the cursor has been delivered. */
  ghost predicate PollsHaveNoGap(server: nat -> Tick, polls: seq<Poll>)
    requires |polls| > 0
  {
    var p, first := polls[|polls| - 1], polls[0];
    && first.last <= p.checkpoint
    && Ascending(Delivered(polls))
    && (forall u | u in Delivered(polls) :: first.last < u <= p.checkpoint)
    && (forall u: nat | first.last < u <= p.checkpoint :: Covered(server, Delivered(polls), u, p.end))
    && (forall u, t: nat | t >= p.end && u in server(t).order && first.last < u <= p.checkpoint ::
          u in Delivered(polls))
  }

  /** Over any number of polls, each from the cursor the one before left, with commands failing
      anywhere and messages coming and going, nothing is skipped and nothing is delivered twice. */
  lemma {:induction false} PollingHasNoGap(server: nat -> Tick, polls: seq<Poll>)
    requires Lawful(server) && Chained(server, polls) && |polls| > 0
    ensures PollsHaveNoGap(server, polls)
  {
    hide Lawful;
    var n := |polls| - 1;
    var p := polls[n];
    if n > 0 {
      PollingHasNoGap(server, polls[..n]);
      var q := polls[n - 1];
      AscendingConcat(Delivered(polls[..n]), p.messages, q.checkpoint);
      forall u: nat | polls[0].last < u <= p.checkpoint ensures Covered(server, Delivered(polls), u, p.end) {
        if u <= q.checkpoint {
          assert Covered(server, Delivered(polls[..n]), u, q.end);
        } else {
          assert Covered(server, p.messages, u, p.end);
        }
      }
    } else {
      assert Delivered(polls) == p.messages;
    }
    forall u, t: nat | t >= p.end && u in server(t).order && polls[0].last < u <= p.checkpoint
      ensures u in Delivered(polls)
    {
      assert Covered(server, Delivered(polls), u, p.end);
      if Gone(server, u, p.end) {
        assert Gone(server, u, t);
        GoneForEver(server, u, t);
      }
    }
  }

  /** One poll after another within one epoch, each from the cursor that the last successful one left;
      failed polls leave no trace but their time. */
  method PollRepeatedly(server: nat -> Tick, t0: nat, uidValidity: nat, link: DeltaState, times: nat)
    returns (polls: seq<Poll>, next: DeltaState, end: nat)
    requires Lawful(server)
    ensures Chained(server, polls) && |polls| <= times
    ensures polls != [] ==>
      && polls[0].last == Origin(link, uidValidity) && polls[|polls| - 1].checkpoint == next.lastUid
      && PollsHaveNoGap(server, polls)
    ensures polls == [] ==> next == link
    ensures |polls| < times ==> SomeFailure(server, t0, end)
  {
    hide Lawful, Gapless, SomeFailure;
    polls, next, end := [], link, t0;
    for i := 0 to times
      invariant end >= t0 && |polls| <= i && Chained(server, polls)
      invariant polls == [] ==> next == link
      invariant polls != [] ==>
        && polls[0].last == Origin(link, uidValidity) && polls[|polls| - 1].checkpoint == next.lastUid
        && next.uidValidity == uidValidity && polls[|polls| - 1].end <= end
      invariant |polls| < i ==> SomeFailure(server, t0, end)
    {
      var before := end;
      var ok, messages, after;
      ok, messages, after, end := DeltaCreatedMessages(server, end, uidValidity, next);
      LaterFailure(server, t0, before, end);
      if ok {
        polls, next := polls + [Poll(before, Origin(next, uidValidity), messages, after.lastUid, end)], after;
      }
    }
    if polls != [] {
      PollingHasNoGap(server, polls);
    }
  }

  lemma LaterFailure(server: nat -> Tick, t0: nat, t: nat, end: nat)
    requires t0 <= t <= end
    ensures SomeFailure(server, t0, t) || SomeFailure(server, t, end) ==> SomeFailure(server, t0, end)
  {
  }
}
