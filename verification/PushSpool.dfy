/** The push spool: directories of pending and claimed messages and of replay markers. */
module PushSpool {
  import opened Text
  import opened Ordering

  /** The name of a message in the spool: the digest of its trimmed delivery id, as a number. Digests
      are hexadecimal numerals of one length, so their order as names is their order as numbers. */
  type Key = nat

  datatype Meta = Meta(receivedAt: int)

  datatype Spool = Spool(pending: map<Key, Meta>, processing: map<Key, Meta>, seen: map<Key, int>) {

    predicate Queued(key: Key) {
      key in pending || key in processing
    }

    /** `hasFreshSeenMarker`. */
    predicate Fresh(key: Key, now: int, retention: int) {
      key in seen && (retention <= 0 || seen[key] > now - retention)
    }

    /** A marker that `cleanupSeen` removes. */
    predicate Stale(key: Key, now: int, retention: int) {
      retention > 0 && key in seen && seen[key] <= now - retention && !Queued(key)
    }

    ghost function CleanedSeen(now: int, retention: int): Spool {
      this.(seen := map k | k in seen && !Stale(k, now, retention) :: seen[k])
    }

    function Committed(key: Key, meta: Meta): Spool {
      if key in pending then this else this.(pending := pending[key := meta])
    }

    /** A well-formed upload, without interference. */
    function Enqueued(key: Key, meta: Meta, now: int, retention: int): Spool {
      if Queued(key) || Fresh(key, now, retention) then this else Committed(key, meta)
    }

    function Claimed(key: Key): Spool
      requires key in pending
    {
      this.(pending := pending - {key}, processing := processing[key := pending[key]])
    }

    /** `PrepareAck`: stamps a claimed message; an older marker is kept. */
    function Prepared(key: Key, now: int): Spool {
      if key in processing && key !in seen then this.(seen := seen[key := now]) else this
    }

    /** `FinalizeAck`. */
    function Finalized(key: Key): Spool {
      this.(processing := processing - {key})
    }

    /** One step of `RequeueProcessing`. */
    function RequeuedOne(key: Key): Spool {
      if key in processing && key !in pending
      then this.(pending := pending[key := processing[key]], processing := processing - {key})
      else this
    }

    ghost function Requeued(): Spool {
      this.(
        pending := pending + map k | k in processing && k !in pending :: processing[k],
        processing := map k | k in processing && k in pending :: processing[k])
    }

    /** No message is both pending and claimed. */
    ghost predicate Exclusive() {
      pending.Keys !! processing.Keys
    }
  }

  /** `candidates` are claimed in the order of arrival, ties in the order of names. */
  predicate Earlier(a: (Key, Meta), b: (Key, Meta)) {
    a.1.receivedAt < b.1.receivedAt || (a.1.receivedAt == b.1.receivedAt && a.0 <= b.0)
  }

  datatype Answer = Accepted | Duplicate | Rejected

  /** A message offered for the queue. `intact` tells whether staging it on disk succeeds. */
  datatype Upload = Upload(blankId: bool, key: Key, receivedAt: Option<int>, hasMime: bool, size: nat, intact: bool)

  class SpoolDirs {
    var pending: map<Key, Meta>
    var processing: map<Key, Meta>
    var seen: map<Key, int>
    /** `ReplayRetention`; without a positive value markers never expire. */
    var retention: int

    constructor (retention: int)
      ensures Abs() == Spool(map[], map[], map[]) && this.retention == retention
    {
      pending, processing, seen := map[], map[], map[];
      this.retention := retention;
    }

    ghost function Abs(): Spool
      reads this
    {
      Spool(pending, processing, seen)
    }

    /** Removes the markers whose time is over, except those of queued messages. */
    method CleanupSeen(now: int)
      modifies `seen
      ensures Abs() == old(Abs()).CleanedSeen(now, retention)
      ensures forall k :: k in seen <==>
        k in old(seen) && (retention <= 0 || old(seen)[k] > now - retention || k in pending || k in processing)
      ensures forall k | k in seen :: seen[k] == old(seen)[k]
    {
      if retention <= 0 {
        return;
      }
      var entries := seen.Keys;
      while entries != {}
        invariant entries <= seen.Keys <= old(seen).Keys
        invariant forall k | k in seen :: seen[k] == old(seen)[k]
        invariant forall k | k in seen && k !in entries :: !old(Abs()).Stale(k, now, retention)
        invariant forall k | k in old(seen) && k !in seen :: old(Abs()).Stale(k, now, retention)
        decreases |entries|
      {
        var key :| key in entries;
        entries := entries - {key};
        if seen[key] > now - retention || key in pending || key in processing {
          continue;
        }
        seen := seen - {key};
      }
    }

    /** `EnqueueReader`, run without interference. The clock is read for the arrival time, for the
        clean-up and for the check; should it step back in between, a marker that the clean-up found
        stale is gone by the time of the check. */
    method Enqueue(upload: Upload, arrival: int, now: int, later: int) returns (answer: Answer)
      modifies `pending, `seen
      ensures answer.Duplicate? <==>
        !upload.blankId && upload.hasMime
        && (old(Abs()).Queued(upload.key)
            || (old(Abs()).Fresh(upload.key, later, retention) && !old(Abs()).Stale(upload.key, now, retention)))
      ensures now <= later && !upload.blankId && upload.hasMime ==>
        (answer.Duplicate? <==> old(Abs()).Queued(upload.key) || old(Abs()).Fresh(upload.key, later, retention))
      ensures answer.Accepted? ==> upload.key !in old(pending) && upload.key !in processing
      ensures !upload.blankId && upload.hasMime && now <= later ==>
        (answer.Duplicate? <==>
          || upload.key in old(pending) || upload.key in processing
          || (upload.key in old(seen) && (retention <= 0 || later - old(seen)[upload.key] < retention)))
      ensures answer.Accepted? <==>
        !upload.blankId && upload.hasMime && !answer.Duplicate? && upload.intact && upload.size > 0
      ensures pending == if answer.Accepted?
        then old(pending)[upload.key := Meta(if upload.receivedAt.Some? then upload.receivedAt.value else arrival)]
        else old(pending)
      ensures seen == if upload.blankId || !upload.hasMime then old(seen)
        else old(Abs()).CleanedSeen(now, retention).seen
      ensures !upload.blankId && upload.hasMime && upload.intact && upload.size > 0 ==>
        var meta := Meta(if upload.receivedAt.Some? then upload.receivedAt.value else arrival);
        Abs() == old(Abs()).CleanedSeen(now, retention).Enqueued(upload.key, meta, later, retention)
      ensures old(Abs()).Exclusive() ==> Abs().Exclusive()
    {
      if upload.blankId || !upload.hasMime {
        return Rejected;
      }
      var receivedAt := if upload.receivedAt.Some? then upload.receivedAt.value else arrival;
      CleanupSeen(now);
      var hasMarker := upload.key in seen && (retention <= 0 || seen[upload.key] > later - retention);
      if hasMarker || upload.key in pending || upload.key in processing {
        return Duplicate;
      }
      if !upload.intact || upload.size == 0 {
        return Rejected;
      }
      pending := pending[upload.key := Meta(receivedAt)];
      return Accepted;
    }

    /** Puts every claimed message back into the queue, unless its name is taken there. */
    method RequeueProcessing()
      modifies `pending, `processing
      ensures Abs() == old(Abs()).Requeued()
      ensures forall k :: k in pending <==> k in old(pending) || k in old(processing)
      ensures forall k | k in pending :: pending[k] == if k in old(pending) then old(pending)[k] else old(processing)[k]
      ensures forall k :: k in processing <==> k in old(processing) && k in old(pending)
      ensures old(Abs()).Exclusive() ==> processing == map[] && Abs().Exclusive()
    {
      ghost var p, q := pending, processing;
      var entries := processing.Keys;
      while entries != {}
        invariant entries <= processing.Keys <= q.Keys
        invariant forall k | k in q && k !in entries :: k in processing <==> k in p
        invariant forall k | k in processing :: processing[k] == q[k]
        invariant forall k :: k in pending <==> k in p || (k in q && k !in entries)
        invariant forall k | k in pending :: pending[k] == if k in p then p[k] else q[k]
        decreases |entries|
      {
        var key :| key in entries;
        entries := entries - {key};
        if key in pending {
          continue;
        }
        pending, processing := pending[key := processing[key]], processing - {key};
      }
      assert pending == old(Abs()).Requeued().pending;
    }

    method PrepareAck(key: Key, now: int)
      modifies `seen
      ensures Abs() == old(Abs()).Prepared(key, now)
      ensures seen == if key in processing && key !in old(seen) then old(seen)[key := now] else old(seen)
    {
      if key !in processing {
        return;
      }
      if key !in seen {
        seen := seen[key := now];
      }
    }

    method FinalizeAck(key: Key)
      modifies `processing
      ensures Abs() == old(Abs()).Finalized(key)
      ensures processing == old(processing) - {key}
    {
      if key in processing {
        processing := processing - {key};
      }
    }

    /** The pending messages with their metadata, in the order of the directory. */
    method Candidates() returns (candidates: seq<(Key, Meta)>)
      ensures forall c | c in candidates :: c.0 in pending && c.1 == pending[c.0]
      ensures forall k | k in pending :: (k, pending[k]) in candidates
    {
      candidates := [];
      var entries := pending.Keys;
      while entries != {}
        invariant entries <= pending.Keys
        invariant forall c | c in candidates :: c.0 in pending && c.1 == pending[c.0]
        invariant forall k | k in pending && k !in entries :: (k, pending[k]) in candidates
        decreases |entries|
      {
        var key :| key in entries;
        entries := entries - {key};
        candidates := candidates + [(key, pending[key])];
      }
    }

    /** Claims the oldest message whose name is free among the claimed ones. */
    method ClaimNext() returns (claimed: Option<Key>)
      modifies `pending, `processing
      ensures claimed.None? ==> Abs() == old(Abs()) && pending.Keys <= processing.Keys
      ensures claimed.Some? ==>
        && claimed.value in old(pending) && claimed.value !in old(processing)
        && Abs() == old(Abs()).Claimed(claimed.value)
        && forall k | k in old(pending) && k !in old(processing) ::
             Earlier((claimed.value, old(pending)[claimed.value]), (k, old(pending)[k]))
      ensures claimed.Some? ==>
        forall k | k in old(pending) && k !in old(processing) ::
          var a, b := old(pending)[claimed.value].receivedAt, old(pending)[k].receivedAt;
          a < b || (a == b && claimed.value <= k)
      ensures claimed.Some? ==>
        && pending == old(pending) - {claimed.value}
        && processing == old(processing)[claimed.value := old(pending)[claimed.value]]
      ensures old(Abs()).Exclusive() ==> Abs().Exclusive() && (claimed.None? <==> old(pending) == map[])
    {
      var candidates := Candidates();
      candidates := SortCandidates(candidates);
      ghost var p, q := pending, processing;
      for i := 0 to |candidates|
        invariant forall j | 0 <= j < i :: candidates[j].0 in q
        invariant pending == p && processing == q
      {
        var key := candidates[i].0;
        if key in processing {
          continue;
        }
        if Abs().Exclusive() {
          ClaimExcludes(Abs(), key);
        }
        pending, processing := pending - {key}, processing[key := pending[key]];
        return Some(key);
      }
      return None;
    }
  }

  lemma ClaimExcludes(s: Spool, key: Key)
    requires key in s.pending && s.Exclusive()
    ensures s.Claimed(key).Exclusive()
  {
  }

  lemma EarlierIsTotal()
    ensures TotalPreorder(Earlier)
  {
  }

  method SortCandidates(candidates: seq<(Key, Meta)>) returns (sorted: seq<(Key, Meta)>)
    ensures forall c :: c in sorted <==> c in candidates
    ensures forall i, j | 0 <= i < j < |sorted| :: Earlier(sorted[i], sorted[j])
  {
    EarlierIsTotal();
    SortSorts(candidates, Earlier);
    sorted := Sort(candidates, Earlier);
  }
}
