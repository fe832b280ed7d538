/** The coordinator's runs are the runs of the machine's lives: what is proved of lives holds for any
    number of calls of `Coordinator.Run`, on any mix of transactions. */
module CoordinatorLives {
  import opened Text
  import opened Mailflow
  import opened Transaction
  import opened TransactionEffects
  import opened CoordinatorRun

  // ---- one run ----

  /** `t` and `u` are at the same point of the same run. Their working copies may differ only before
      the load, which overwrites them, and after a load that failed. */
  ghost predicate SameCourse(t: Tx, u: Tx) {
    && u == t.(mem := u.mem)
    && (t.mem == u.mem || t.pc.Loading? || t.pc == Halted(false))
  }

  lemma CourseStep(t: Tx, u: Tx, r: Reply)
    requires SameCourse(t, u)
    ensures SameCourse(t.Step(r), u.Step(r)) && t.Emits(r) == u.Emits(r)
  {
    hide TrimSpace, Target.Key, TxState.HasRequired, TxState.ShouldDelete, Tx.NextTarget, Tx.AfterDeliveries;
  }

  lemma {:induction false} IterateIsLife(key: string, g: History, oracle: nat -> Reply, n: nat)
    requires IsLife(key, g)
    ensures IsLife(key, Iterate(g, oracle, n))
  {
    hide Tx.Step, Tx.Emits, IsLife;
    if n > 0 {
      IterateIsLife(key, g, oracle, n - 1);
      ApplyIsLife(key, Iterate(g, oracle, n - 1), Answer(oracle(n - 1)));
    }
  }

  /** The log `a` grows to `b` by the same effects as `c` to `d`. */
  ghost predicate SameGrowth(a: seq<Effect>, b: seq<Effect>, c: seq<Effect>, d: seq<Effect>) {
    a <= b && c <= d && b[|a|..] == d[|c|..]
  }

  lemma GrowthStep(a: seq<Effect>, b: seq<Effect>, c: seq<Effect>, d: seq<Effect>, more: seq<Effect>)
    requires SameGrowth(a, b, c, d)
    ensures SameGrowth(a, b + more, c, d + more)
  {
    assert (b + more)[|a|..] == b[|a|..] + more;
    assert (d + more)[|c|..] == d[|c|..] + more;
  }

  /** `e` and `g` do the same, from `e0` and `g0` on. */
  ghost predicate InStep(e0: History, e: History, g0: History, g: History) {
    && SameCourse(e.tx, g.tx) && SameGrowth(e0.log, e.log, g0.log, g.log)
    && g.cuts - g0.cuts == e.cuts - e0.cuts
  }

  lemma {:induction false} IterateInStep(e0: History, g0: History, oracle: nat -> Reply, n: nat)
    requires SameCourse(e0.tx, g0.tx)
    ensures InStep(e0, Iterate(e0, oracle, n), g0, Iterate(g0, oracle, n))
  {
    hide Tx.Step, Tx.Emits;
    if n > 0 {
      var e, g, r := Iterate(e0, oracle, n - 1), Iterate(g0, oracle, n - 1), oracle(n - 1);
      IterateInStep(e0, g0, oracle, n - 1);
      CourseStep(e.tx, g.tx, r);
      GrowthStep(e0.log, e.log, g0.log, g.log, e.tx.Emits(r));
    }
  }

  /** A run costs one cut if it ends badly, and none before that. */
  lemma {:induction false} IterateCuts(e0: History, oracle: nat -> Reply, n: nat)
    requires !e0.tx.pc.Halted?
    ensures var e := Iterate(e0, oracle, n); e.cuts == e0.cuts + if e.tx.pc == Halted(false) then 1 else 0
  {
    hide Tx.Proceed, Tx.Emits, TrimSpace, Target.Key;
    if n > 0 {
      IterateCuts(e0, oracle, n - 1);
    }
  }

  /** From a store that holds what the life `h` has saved, a run of the coordinator extends that life:
      it leaves the same record, stands at the same point, does the same to the outside world and costs
      the same cuts, after any number of answers. */
  lemma RunExtendsLife(key: string, h: History, states: map<string, TxState>, log: seq<Effect>, job: Job,
                       oracle: nat -> Reply, n: nat)
    requires IsLife(key, h) && h.tx.pc.Halted? && h.tx.disk == Lookup(states, key)
    requires job.envelope.Valid() && TrimSpace(job.envelope.trace.transactionKey) == key
    ensures var e, g := Iterate(Entry(states, log, job), oracle, n), Iterate(h.Begin(job), oracle, n);
      && IsLife(key, g) && g.tx.disk == e.tx.disk && g.tx.pc == e.tx.pc
      && SameGrowth(log, e.log, h.log, g.log)
      && g.cuts - h.cuts == e.cuts == (if e.tx.pc == Halted(false) then 1 else 0)
  {
    hide TrimSpace, Tx.Step, Tx.Emits, IsLife, Envelope.Valid;
    LifeFacts(key, h);
    ApplyIsLife(key, h, Start(job));
    IterateIsLife(key, h.Begin(job), oracle, n);
    IterateInStep(Entry(states, log, job), h.Begin(job), oracle, n);
    IterateCuts(Entry(states, log, job), oracle, n);
  }

  // ---- any number of runs ----

  /** A call of `Run`: its transaction, what it did to the outside world, whether it reported success. */
  datatype Call = Call(key: string, effects: seq<Effect>, ok: bool)

  ghost function EffectsOf(calls: seq<Call>, key: string): seq<Effect> {
    if calls == [] then []
    else EffectsOf(calls[..|calls| - 1], key)
         + if calls[|calls| - 1].key == key then calls[|calls| - 1].effects else []
  }

  ghost function FailuresOf(calls: seq<Call>, key: string): nat {
    if calls == [] then 0
    else FailuresOf(calls[..|calls| - 1], key)
         + if calls[|calls| - 1].key == key && !calls[|calls| - 1].ok then 1 else 0
  }

  ghost function AllEffects(calls: seq<Call>): seq<Effect> {
    if calls == [] then [] else AllEffects(calls[..|calls| - 1]) + calls[|calls| - 1].effects
  }

  lemma CallsSnoc(calls: seq<Call>, call: Call, key: string)
    ensures EffectsOf(calls + [call], key)
      == EffectsOf(calls, key) + if call.key == key then call.effects else []
    ensures FailuresOf(calls + [call], key)
      == FailuresOf(calls, key) + if call.key == key && !call.ok then 1 else 0
    ensures AllEffects(calls + [call]) == AllEffects(calls) + call.effects
  {
    assert (calls + [call])[..|calls|] == calls;
  }

  /** The life `h` of `key` is what these calls have made of it. */
  ghost predicate Tells(h: History, states: map<string, TxState>, calls: seq<Call>, key: string) {
    && IsLife(key, h) && h.tx.pc.Halted? && h.tx.disk == Lookup(states, key)
    && h.log == EffectsOf(calls, key) && h.cuts <= FailuresOf(calls, key)
  }

  /** The store and the calls are those of some life of `key`. */
  ghost predicate Lived(states: map<string, TxState>, calls: seq<Call>, key: string) {
    exists h :: Tells(h, states, calls, key)
  }

  lemma NothingLived(key: string)
    ensures Lived(map[], [], key)
  {
    NewIsLife(key);
    assert Tells(NewHistory(key), map[], [], key);
  }

  lemma OthersLive(states: map<string, TxState>, after: map<string, TxState>, calls: seq<Call>, call: Call, key: string)
    requires Lived(states, calls, key) && call.key != key && Lookup(after, key) == Lookup(states, key)
    ensures Lived(after, calls + [call], key)
  {
    hide IsLife;
    var h :| Tells(h, states, calls, key);
    CallsSnoc(calls, call, key);
    assert Tells(h, after, calls + [call], key);
  }

  lemma RunLives(states: map<string, TxState>, after: map<string, TxState>, calls: seq<Call>, call: Call,
                 log: seq<Effect>, job: Job, oracle: nat -> Reply, n: nat)
    requires Lived(states, calls, call.key)
    requires job.envelope.Valid() && TrimSpace(job.envelope.trace.transactionKey) == call.key
    requires var e := Iterate(Entry(states, log, job), oracle, n);
      && e.tx.pc == Halted(call.ok) && e.log == log + call.effects && Lookup(after, call.key) == e.tx.disk
    ensures Lived(after, calls + [call], call.key)
  {
    hide IsLife, TrimSpace, Entry, Iterate, Envelope.Valid, Tx.Begin;
    var h :| Tells(h, states, calls, call.key);
    RunExtendsLife(call.key, h, states, log, job, oracle, n);
    CallsSnoc(calls, call, call.key);
    var g := Iterate(h.Begin(job), oracle, n);
    assert (log + call.effects)[|log|..] == call.effects;
    assert g.log == h.log + g.log[|h.log|..];
    assert Tells(g, after, calls + [call], call.key);
  }

  /** Everything proved of lives holds of the calls. In particular each effect on one transaction
      happens at most once, plus once per call that failed. */
  lemma CallsAreBounded(states: map<string, TxState>, calls: seq<Call>, key: string, target: string)
    requires Lived(states, calls, key)
    ensures var fx, failed := EffectsOf(calls, key), FailuresOf(calls, key);
      var targets := if key in states then |states[key].plan.targets| else 0;
      && Hits(fx, Reaches(target)) <= 1 + failed
      && Hits(fx, IsDeleted) <= 1 + failed && Hits(fx, IsAcked) <= 1 + failed
      && Hits(fx, Durable) <= targets + 2 + failed
  {
    hide IsLife, Hits, TrimSpace, Life;
    var h :| Tells(h, states, calls, key);
    var events := EventsOf(key, h);
    EachEffectOnce(key, events, target);
    EffectsBounded(key, events);
  }

  lemma StartsClean(c: map<string, TxState>)
    requires c == map[]
    ensures forall key :: Lived(c, [], key)
  {
    hide Lived;
    forall key ensures Lived(c, [], key) {
      NothingLived(key);
    }
  }

  /** One more call keeps all lives going. */
  lemma CallKeepsLives(states: map<string, TxState>, after: map<string, TxState>, calls: seq<Call>, call: Call,
                       log: seq<Effect>, job: Job, oracle: nat -> Reply, n: nat)
    requires forall key :: Lived(states, calls, key)
    requires TrimSpace(job.envelope.trace.transactionKey) == call.key
    requires var e := Iterate(Entry(states, log, job), oracle, n);
      && e.tx.pc == Halted(call.ok) && e.log == log + call.effects && Lookup(after, call.key) == e.tx.disk
    requires after - {call.key} == states - {call.key}
    ensures forall key :: Lived(after, calls + [call], key)
  {
    hide Lived, TrimSpace, Entry, Iterate, Envelope.Valid;
    forall key ensures Lived(after, calls + [call], key) {
      if key != call.key {
        OutsideSame(states, after, call.key, key);
        OthersLive(states, after, calls, call, key);
      } else if job.envelope.Valid() {
        RunLives(states, after, calls, call, log, job, oracle, n);
      } else {
        RefusedLives(states, after, calls, call, log, job, oracle, n);
      }
    }
  }

  lemma OutsideSame(states: map<string, TxState>, after: map<string, TxState>, key: string, other: string)
    requires after - {key} == states - {key} && other != key
    ensures Lookup(after, other) == Lookup(states, other)
  {
    assert other in after <==> other in after - {key};
    assert other in states <==> other in states - {key};
    if other in after {
      assert (after - {key})[other] == (states - {key})[other];
    }
  }

  /** A call whose envelope is refused does nothing. */
  lemma RefusedLives(states: map<string, TxState>, after: map<string, TxState>, calls: seq<Call>, call: Call,
                     log: seq<Effect>, job: Job, oracle: nat -> Reply, n: nat)
    requires Lived(states, calls, call.key) && !job.envelope.Valid()
    requires TrimSpace(job.envelope.trace.transactionKey) == call.key
    requires var e := Iterate(Entry(states, log, job), oracle, n);
      && e.tx.pc == Halted(call.ok) && e.log == log + call.effects && Lookup(after, call.key) == e.tx.disk
    ensures Lived(after, calls + [call], call.key)
  {
    hide IsLife, TrimSpace, Envelope.Valid, Iterate;
    var h :| Tells(h, states, calls, call.key);
    HaltedIterate(Entry(states, log, job), oracle, n);
    CallsSnoc(calls, call, call.key);
    assert call.effects == (log + call.effects)[|log|..] == [];
    assert Tells(h, after, calls + [call], call.key);
  }

  lemma {:induction false} HaltedIterate(e: History, oracle: nat -> Reply, n: nat)
    requires e.tx.pc.Halted?
    ensures Iterate(e, oracle, n) == e
  {
    hide TrimSpace, Target.Key;
    if n > 0 {
      HaltedIterate(e, oracle, n - 1);
    }
  }

  /** Any number of calls of `Run` on one coordinator, for any mix of mails, each answered by an oracle
      of its own. */
  method RunAll(c: Coordinator, mails: seq<Envelope>, oracles: nat -> (nat -> Reply)) returns (calls: seq<Call>)
    requires c.states == map[]
    modifies c`states, c`log
    ensures |calls| == |mails| && c.Valid()
    ensures c.log == old(c.log) + AllEffects(calls)
    ensures forall key :: Lived(c.states, calls, key)
  {
    hide TrimSpace, Lived, Iterate, Entry, Coordinator.Valid;
    calls := [];
    StartsClean(c.states);
    assert c.Valid() by { EmptyIsValid(c); }
    for i := 0 to |mails|
      invariant |calls| == i && c.Valid()
      invariant c.log == old(c.log) + AllEffects(calls)
      invariant forall key :: Lived(c.states, calls, key)
    {
      var states, log := c.states, c.log;
      var job := Job(mails[i], c.consumers);
      var key := TrimSpace(mails[i].trace.transactionKey);
      var ok, state, n := c.Run(mails[i], oracles(i));
      RunGrows(states, log, job, oracles(i), n);
      var call := Call(key, c.log[|log|..], ok);
      assert c.log == log + call.effects;
      CallsSnoc(calls, call, key);
      CallKeepsLives(states, c.states, calls, call, log, job, oracles(i), n);
      calls := calls + [call];
    }
  }

  lemma EmptyIsValid(c: Coordinator)
    requires c.states == map[]
    ensures c.Valid()
  {
  }

  lemma {:induction false} LogGrows(e: History, oracle: nat -> Reply, n: nat)
    ensures e.log <= Iterate(e, oracle, n).log
  {
    hide Tx.Step, Tx.Emits;
    if n > 0 {
      LogGrows(e, oracle, n - 1);
    }
  }

  lemma RunGrows(states: map<string, TxState>, log: seq<Effect>, job: Job, oracle: nat -> Reply, n: nat)
    ensures log <= Iterate(Entry(states, log, job), oracle, n).log
  {
    hide Iterate, TrimSpace, Tx.Begin;
    LogGrows(Entry(states, log, job), oracle, n);
  }
}
