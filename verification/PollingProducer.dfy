/** The polling source: a durable cursor with the batch it has fetched but not yet worked off. */
module PollingProducer {
  import opened Transaction

  datatype Message = Message(id: string)

  /** The state file; a missing file reads as the empty state. */
  datatype PollState = PollState(delta: string, next: string, pending: seq<Message>)

  datatype Fetch = Fetched(messages: seq<Message>, next: string) | FetchFailed

  datatype Outcome = Emit(message: Message) | NoMessages | Fault

  function Store(was: PollState, state: PollState, save: Verdict): PollState {
    if save.Landed() then state else was
  }

  /** What `Next` makes of the state, given the reader's answer and the outcome of its save. */
  function NextOf(s: PollState, includeExisting: bool, fetch: Fetch, save: Verdict): (PollState, Outcome) {
    if s.pending != [] then (s, if s.next == "" then Fault else Emit(s.pending[0]))
    else if fetch.FetchFailed? then (s, Fault)
    else if fetch.messages == [] || (s.delta == "" && !includeExisting) then
      (Store(s, PollState(fetch.next, "", []), save), if save.Fine? then NoMessages else Fault)
    else
      (Store(s, PollState(s.delta, fetch.next, fetch.messages), save),
       if save.Fine? then Emit(fetch.messages[0]) else Fault)
  }

  /** The list without the first message of that id. */
  function Without(pending: seq<Message>, id: string): seq<Message> {
    if pending == [] then [] else if pending[0].id == id then pending[1..] else [pending[0]] + Without(pending[1..], id)
  }

  predicate Has(pending: seq<Message>, id: string) {
    pending != [] && (pending[0].id == id || Has(pending[1..], id))
  }

  /** The state once the message is acknowledged: the last message of a batch moves the cursor. */
  function AfterAck(s: PollState, id: string): PollState {
    if !Has(s.pending, id) then s
    else if Without(s.pending, id) == [] then PollState(s.next, "", [])
    else s.(pending := Without(s.pending, id))
  }

  ghost predicate Distinct(messages: seq<Message>) {
    forall i, j | 0 <= i < j < |messages| :: messages[i].id != messages[j].id
  }

  class Producer {
    var state: PollState
    const includeExisting: bool

    constructor (includeExisting: bool)
      ensures state == PollState("", "", []) && this.includeExisting == includeExisting
    {
      state := PollState("", "", []);
      this.includeExisting := includeExisting;
    }

    method Save(next: PollState, save: Verdict) returns (ok: bool)
      modifies `state
      ensures ok == save.Fine? && state == Store(old(state), next, save)
    {
      if save.Landed() {
        state := next;
      }
      ok := save.Fine?;
    }

    method Next(fetch: Fetch, save: Verdict) returns (out: Outcome)
      modifies `state
      ensures (state, out) == NextOf(old(state), includeExisting, fetch, save)
      // a list that is not worked off yet comes first, and stays as it is
      ensures old(state).pending != [] ==>
        && state == old(state)
        && out == if old(state).next == "" then Fault else Emit(old(state).pending[0])
      ensures old(state).pending == [] && fetch.FetchFailed? ==> state == old(state) && out == Fault
      // an answer without messages moves the cursor; so does the first one, whose messages are passed over
      ensures old(state).pending == [] && fetch.Fetched?
              && (fetch.messages == [] || (old(state).delta == "" && !includeExisting)) ==>
        && state == (if save.Landed() then PollState(fetch.next, "", []) else old(state))
        && out == if save.Fine? then NoMessages else Fault
      // any other answer becomes the list, and its position waits until the list is worked off
      ensures old(state).pending == [] && fetch.Fetched?
              && fetch.messages != [] && (old(state).delta != "" || includeExisting) ==>
        && state == (if save.Landed() then PollState(old(state).delta, fetch.next, fetch.messages) else old(state))
        && out == if save.Fine? then Emit(fetch.messages[0]) else Fault
    {
      var loaded := state;
      var bootstrapped := loaded.delta == "" && |loaded.pending| == 0;
      var messages := loaded.pending;
      var nextDelta := loaded.next;
      if |messages| == 0 {
        if fetch.FetchFailed? {
          return Fault;
        }
        messages, nextDelta := fetch.messages, fetch.next;
      } else if nextDelta == "" {
        return Fault;
      }
      if (bootstrapped && !includeExisting) || |messages| == 0 {
        var saved := Save(PollState(nextDelta, "", []), save);
        return if saved then NoMessages else Fault;
      }
      if |loaded.pending| == 0 {
        var saved := Save(PollState(loaded.delta, nextDelta, messages), save);
        if !saved {
          return Fault;
        }
      }
      return Emit(messages[0]);
    }

    /** `pollingSourceHandle.Acknowledge`, for a handle on message `id`. */
    method Acknowledge(id: string, save: Verdict) returns (ok: bool)
      modifies `state
      ensures state ==
        if Has(old(state).pending, id) then Store(old(state), AfterAck(old(state), id), save) else old(state)
      ensures ok == (Has(old(state).pending, id) ==> save.Fine?)
      // the first message of that id leaves the list, and with the last one the cursor moves
      ensures (forall i | 0 <= i < |old(state).pending| :: old(state).pending[i].id != id) ==> ok && state == old(state)
      ensures forall i: nat | FirstOf(old(state).pending, id, i) ::
        && ok == save.Fine?
        && state ==
             if !save.Landed() then old(state)
             else if |old(state).pending| == 1 then PollState(old(state).next, "", [])
             else old(state).(pending := old(state).pending[..i] + old(state).pending[i + 1..])
    {
      WithoutMeans(state.pending, id);
      var loaded := state;
      var remaining, removed := RemoveFirst(loaded.pending, id);
      if !removed {
        return true;
      }
      var next := PollState(loaded.next, "", []);
      if |remaining| > 0 {
        next := PollState(loaded.delta, loaded.next, remaining);
      }
      ok := Save(next, save);
    }
  }

  /** The message at `i` is the first of that id. */
  ghost predicate FirstOf(pending: seq<Message>, id: string, i: nat) {
    i < |pending| && pending[i].id == id && forall j | 0 <= j < i :: pending[j].id != id
  }

  lemma {:induction false} HasMeans(pending: seq<Message>, id: string)
    ensures Has(pending, id) <==> exists i | 0 <= i < |pending| :: pending[i].id == id
  {
    if pending != [] {
      var rest := pending[1..];
      HasMeans(rest, id);
      assert forall i | 0 <= i < |rest| :: rest[i] == pending[i + 1];
      assert forall i | 0 < i < |pending| :: pending[i] == rest[i - 1];
    }
  }

  lemma {:induction false} WithoutFirst(pending: seq<Message>, id: string, i: nat)
    requires FirstOf(pending, id, i)
    ensures Without(pending, id) == pending[..i] + pending[i + 1..]
  {
    if i > 0 {
      var rest := pending[1..];
      WithoutFirst(rest, id, i - 1);
      assert [pending[0]] + rest[..i - 1] == pending[..i] && rest[i..] == pending[i + 1..];
    }
  }

  lemma {:induction false} WithoutNone(pending: seq<Message>, id: string)
    requires !Has(pending, id)
    ensures Without(pending, id) == pending
  {
    if pending != [] {
      WithoutNone(pending[1..], id);
    }
  }

  lemma WithoutMeans(pending: seq<Message>, id: string)
    ensures Has(pending, id) <==> exists i | 0 <= i < |pending| :: pending[i].id == id
    ensures forall i: nat | FirstOf(pending, id, i) :: Without(pending, id) == pending[..i] + pending[i + 1..]
    ensures !Has(pending, id) ==> Without(pending, id) == pending
  {
    hide Has, Without;
    HasMeans(pending, id);
    forall i: nat | FirstOf(pending, id, i) ensures Without(pending, id) == pending[..i] + pending[i + 1..] {
      WithoutFirst(pending, id, i);
    }
    if !Has(pending, id) {
      WithoutNone(pending, id);
    }
  }

  /** The loop of `Acknowledge`. */
  method RemoveFirst(pending: seq<Message>, id: string) returns (remaining: seq<Message>, removed: bool)
    ensures removed <==> Has(pending, id)
    ensures remaining == Without(pending, id)
    ensures removed <==> exists i | 0 <= i < |pending| :: pending[i].id == id
    ensures forall i: nat | FirstOf(pending, id, i) :: remaining == pending[..i] + pending[i + 1..]
    ensures !removed ==> remaining == pending
  {
    WithoutMeans(pending, id);
    hide Has, Without;
    remaining, removed := [], false;
    ghost var rest := Without(pending, id);
    assert pending[0..] == pending;
    for i := 0 to |pending|
      invariant Has(pending, id) <==> removed || Has(pending[i..], id)
      invariant rest == if removed then pending[i..] else Without(pending[i..], id)
      invariant Without(pending, id) == remaining + rest
    {
      Unroll(pending, i, id);
      if !removed && pending[i].id == id {
        removed := true;
        continue;
      }
      Shift(remaining, pending[i], rest[1..]);
      remaining, rest := remaining + [pending[i]], rest[1..];
    }
    NothingInNothing(id);
    assert pending[|pending|..] == [];
  }

  lemma Shift(a: seq<Message>, x: Message, b: seq<Message>)
    ensures a + ([x] + b) == a + [x] + b
  {
  }

  lemma Unroll(pending: seq<Message>, i: nat, id: string)
    requires i < |pending|
    ensures pending[i..] == [pending[i]] + pending[i + 1..]
    ensures Has(pending[i..], id) <==> pending[i].id == id || Has(pending[i + 1..], id)
    ensures Without(pending[i..], id) ==
      if pending[i].id == id then pending[i + 1..] else [pending[i]] + Without(pending[i + 1..], id)
  {
    assert pending[i..][1..] == pending[i + 1..];
  }

  lemma NothingInNothing(id: string)
    ensures !Has([], id) && Without([], id) == []
  {
  }

  /** Acknowledging the message at the head of the list removes exactly that one. */
  lemma AckedHead(s: PollState)
    requires s.pending != []
    ensures Has(s.pending, s.pending[0].id)
    ensures AfterAck(s, s.pending[0].id) ==
      if |s.pending| == 1 then PollState(s.next, "", []) else s.(pending := s.pending[1..])
  {
  }
}
