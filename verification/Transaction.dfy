/** One mail transaction as a state machine over its external calls.

    A `Tx` stands just before the external call that its program counter names. `Step` makes that
    call, with an outcome chosen by the environment, and runs the coordinator up to its next call.
    A run may stop at any call: `Failed` is an error return, `Killed` is the death of the process,
    and either may leave the effect of the call behind (a file renamed into place whose directory
    could not be synced, a message appended whose answer was lost). */
module Transaction {
  import opened Text
  import opened Mailflow

  datatype Verdict = Fine | Failed(landed: bool) | Killed(landed: bool) {
    predicate Landed() {
      Fine? || landed
    }
  }

  /** What the processor answers. */
  datatype Processing = Skip(trace: Trace) | Produced(trace: Trace, plan: Plan, hasMime: bool)

  /** One answer of the environment; a call looks only at the parts that concern it. */
  datatype Reply = Reply(verdict: Verdict, processing: Processing, receipt: Receipt)

  /** One invocation of the coordinator: the envelope and the configured consumers. */
  datatype Job = Job(envelope: Envelope, consumers: set<string>)

  datatype Pc =
    | Loading
    | Processing
    | SavingPlan
    | Delivering(i: nat)
    | SavingReceipt(i: nat)
    | Deleting
    | SavingDeleted
    | Acking
    | SavingAcked
    | SavingCompleted
    | Finalizing
    | Halted(ok: bool)

  datatype Effect = Processed | Skipped | Consumed(target: string) | Swallowed(target: string) | Deleted | Acked

  /** `disk` is the persisted state of `key`, `mem` the copy the current run works on. */
  datatype Tx = Tx(key: string, disk: Option<TxState>, job: Job, mem: TxState, pc: Pc) {

    function Stored(): TxState {
      if disk.Some? then disk.value else FreshState(key)
    }

    function Halt(ok: bool): Tx {
      this.(pc := Halted(ok))
    }

    /** The store after a save of `mem` that ended in `v`. */
    function Saved(v: Verdict): Tx {
      if v.Landed() then this.(disk := Some(mem)) else this
    }

    /** After `Load`: a completed transaction only cleans up its source. */
    function AfterLoad(): (t: Tx)
      ensures t.key == key && t.disk == disk && t.job == job
    {
      var u := this.(mem := Stored());
      if u.mem.completed then u.Cleanup()
      else if u.mem.Committed() then u.AfterDeliveries()
      else u.(pc := Processing)
    }

    function Cleanup(): Tx {
      if job.envelope.source.Source? && job.envelope.source.finalizer then this.(pc := Finalizing) else Halt(true)
    }

    function AfterProcessing(p: Processing): (t: Tx)
      ensures t.key == key && t.disk == disk && t.job == job
    {
      match p
      case Skip(trace) =>
        this.(mem := mem.(
          trace := if trace.transactionKey != "" then trace else job.envelope.trace,
          skipped := true)).ToAck()
      case Produced(trace, plan, hasMime) =>
        if !GoodOutput(trace, plan, hasMime) || trace.transactionKey != key then Halt(false)
        else if |mem.plan.targets| == 0 then
          this.(mem := mem.(trace := trace, skipped := false, plan := plan), pc := SavingPlan)
        else if mem.plan != plan then Halt(false)
        else EnterDeliveries()
    }

    function EnterDeliveries(): (t: Tx)
      ensures t.key == key && t.disk == disk && t.job == job
    {
      if job.envelope.AllowsDelete(mem.plan.deleteSource) then NextTarget(0) else Halt(false)
    }

    /** The loop over targets, from index `i`, up to its next consumer call. */
    function NextTarget(i: nat): (t: Tx)
      ensures t.key == key && t.disk == disk && t.job == job
      decreases |mem.plan.targets| - i
    {
      if i >= |mem.plan.targets| then AfterDeliveries()
      else if mem.plan.targets[i].Key() in mem.deliveries then NextTarget(i + 1)
      else if TrimSpace(mem.plan.targets[i].consumer) !in job.consumers then Halt(false)
      else this.(pc := Delivering(i))
    }

    function AfterDeliveries(): (t: Tx)
      ensures t.key == key && t.disk == disk && t.job == job
    {
      if !mem.HasRequired() then Halt(true)
      else if !job.envelope.AllowsDelete(mem.plan.deleteSource) then Halt(false)
      else if !mem.sourceDeleted && mem.ShouldDelete() then this.(pc := Deleting)
      else ToAck()
    }

    /** `ackAndComplete`, up to its first external call. */
    function ToAck(): (t: Tx)
      ensures t.key == key && t.disk == disk && t.job == job
    {
      if mem.sourceAcked then ToComplete()
      else if job.envelope.source.Source? then this.(pc := Acking)
      else this.(mem := mem.(sourceAcked := true), pc := SavingAcked)
    }

    function ToComplete(): Tx {
      this.(mem := mem.(completed := true), pc := SavingCompleted)
    }

    /** The call named by `pc` returned without error. */
    function Proceed(r: Reply): (t: Tx)
      ensures t.key == key && t.disk == disk && t.job == job
    {
      match pc
      case Loading => AfterLoad()
      case Processing => AfterProcessing(r.processing)
      case SavingPlan => EnterDeliveries()
      case Delivering(i) =>
        if i >= |mem.plan.targets| then Halt(false)
        else this.(mem := WithReceipt(mem, mem.plan.targets[i], r.receipt), pc := SavingReceipt(i))
      case SavingReceipt(i) => NextTarget(i + 1)
      case Deleting => this.(mem := mem.(sourceDeleted := true), pc := SavingDeleted)
      case SavingDeleted => ToAck()
      case Acking => this.(mem := mem.(sourceAcked := true), pc := SavingAcked)
      case SavingAcked => ToComplete()
      case SavingCompleted => Cleanup()
      case Finalizing => Halt(true)
      case Halted(_) => this
    }

    predicate Saving() {
      pc.SavingPlan? || pc.SavingReceipt? || pc.SavingDeleted? || pc.SavingAcked? || pc.SavingCompleted?
    }

    /** A failed optional delivery does not stop the run. */
    predicate Optional() {
      pc.Delivering? && pc.i < |mem.plan.targets| && !mem.plan.targets[pc.i].required
    }

    function Step(r: Reply): (t: Tx)
      ensures t.key == key && t.job == job
    {
      if pc.Halted? then this
      else
        var u := if Saving() then Saved(r.verdict) else this;
        match r.verdict
        case Fine => u.Proceed(r)
        case Failed(_) => if Optional() then NextTarget(pc.i + 1) else u.Halt(false)
        case Killed(_) => u.Halt(false)
    }

    /** What the call made by `Step` does to the outside world. */
    function Emits(r: Reply): seq<Effect> {
      match pc
      case Processing => if r.verdict.Fine? && r.processing.Skip? then [Processed, Skipped] else [Processed]
      case Delivering(i) =>
        if i >= |mem.plan.targets| || !r.verdict.Landed() then []
        else if r.verdict.Failed? && Optional() then [Swallowed(mem.plan.targets[i].Key())]
        else [Consumed(mem.plan.targets[i].Key())]
      case Deleting => if r.verdict.Landed() then [Deleted] else []
      case Acking => if r.verdict.Landed() then [Acked] else []
      case _ => []
    }

    /** A new run, once the previous one has ended. */
    function Begin(next: Job): (t: Tx)
      ensures t.key == key && t.disk == disk
    {
      if !pc.Halted? || TrimSpace(next.envelope.trace.transactionKey) != key then this
      else if !next.envelope.Valid() then Halt(false)
      else this.(job := next, pc := Loading)
    }
  }

  /** A call answered without error; the processor skips the mail. */
  function Skipping(): Reply {
    Reply(Fine, Skip(Trace("", "", EmptyStore(), map[])), Receipt("", "", "", EmptyStore()))
  }

  /** The process dies in the middle of a call. */
  function Death(landed: bool): Reply {
    Skipping().(verdict := Killed(landed))
  }

  /** `ProcessedMail.Validate`. */
  predicate GoodOutput(trace: Trace, plan: Plan, hasMime: bool) {
    TrimSpace(trace.transactionKey) != "" && plan.Valid() && hasMime
  }

  function NewTx(key: string): Tx {
    var noTrace := Trace("", "", EmptyStore(), map[]);
    Tx(key, None, Job(Envelope(false, noTrace, NoSource, Unknown), {}), FreshState(key), Halted(false))
  }

  /** A transaction with everything that its runs did to the outside world.
      `cuts` counts the runs that did not end well. */
  datatype History = History(tx: Tx, log: seq<Effect>, cuts: nat) {
    function Step(r: Reply): History {
      var next := tx.Step(r);
      History(next, log + tx.Emits(r),
              cuts + if !tx.pc.Halted? && next.pc == Halted(false) then 1 else 0)
    }

    function Begin(job: Job): History {
      this.(tx := tx.Begin(job))
    }
  }

  datatype Event = Start(job: Job) | Answer(reply: Reply)

  function Apply(h: History, e: Event): History {
    match e
    case Start(job) => h.Begin(job)
    case Answer(r) => h.Step(r)
  }

  /** A whole life of one transaction: any number of runs, cut anywhere. */
  function Life(h: History, events: seq<Event>): History
    decreases |events|
  {
    if events == [] then h else Apply(Life(h, events[..|events| - 1]), events[|events| - 1])
  }

  function NewHistory(key: string): History {
    History(NewTx(key), [], 0)
  }
}
