/** A transaction one of whose targets is an IMAP folder: receipts and copies in the folder agree. */
module ImapDelivery {
  import opened Text
  import opened Mailflow
  import opened Transaction
  import opened TransactionInvariant
  import opened TransactionEffects
  import opened ImapWrite

  /** The transaction, and the folder that its target `target` writes to. */
  datatype Pair = Pair(h: History, folder: Folder)

  predicate AtTarget(t: Tx, target: string) {
    t.pc.Delivering? && t.pc.i < |t.mem.plan.targets| && t.mem.plan.targets[t.pc.i].Key() == target
  }

  /** A moment in the life of both: an event of the transaction with the answers of the mail server, or
      somebody else leaves the folder as `folder`. */
  datatype Happening = Step(event: Event, script: Script) | Elsewhere(folder: Folder)

  /** Other mail has come and gone; the copies of this mail, and UIDs given out, are as they were. */
  ghost predicate Undisturbed(before: Folder, after: Folder, req: Request) {
    Copies(after.slots, req) == Copies(before.slots, req) && (Sane(before, req) ==> Sane(after, req))
  }

  ghost function Happens(p: Pair, target: string, req: Request, x: Happening): Pair {
    match x
    case Step(e, s) => Next(p, target, req, e, s)
    case Elsewhere(folder) => if Undisturbed(p.folder, folder, req) then p.(folder := folder) else p
  }

  /** A consumer call on the target is one write; the process may die after it. */
  function Next(p: Pair, target: string, req: Request, e: Event, s: Script): Pair {
    match e
    case Start(job) => p.(h := p.h.Begin(job))
    case Answer(r) =>
      if !AtTarget(p.h.tx, target) then p.(h := p.h.Step(r))
      else
        var (after, ok) := Write(p.folder, req, s);
        var landed := after != p.folder;
        var verdict := if r.verdict.Killed? then Killed(ok || landed) else if ok then Fine else Failed(landed);
        Pair(p.h.Step(r.(verdict := verdict)), after)
  }

  ghost function Run(p: Pair, target: string, req: Request, past: seq<Happening>): Pair {
    if past == [] then p else Happens(Run(p, target, req, past[..|past| - 1]), target, req, past[|past| - 1])
  }

  /** A new receipt can only come from a consumer call that succeeded. */
  lemma ReceiptsComeFromDeliveries(t: Tx, r: Reply, k: string)
    requires Inv(t) && k in Current(t.Step(r)).deliveries && k !in Current(t).deliveries
    ensures AtTarget(t, k) && r.verdict.Fine?
  {
    hide TrimSpace, Target.Key, Plan.Valid, TxState.HasRequired, TxState.ShouldDelete, Sound, WithReceipt;
    hide FilledReceipt, Tx.NextTarget, Tx.AfterDeliveries, Tx.AfterProcessing;
    StepKeeps(t, r);
    if t.pc.Delivering? {
      DeliveryReceipts(t, r, k);
    } else if t.Saving() {
      SaveReceipts(t, r);
    } else {
      CallReceipts(t, r);
    }
  }

  lemma DeliveryReceipts(t: Tx, r: Reply, k: string)
    requires Inv(t) && t.pc.Delivering?
    requires k in Current(t.Step(r)).deliveries && k !in Current(t).deliveries
    ensures AtTarget(t, k) && r.verdict.Fine?
  {
    hide TrimSpace, Target.Key, Plan.Valid, TxState.HasRequired, Sound, Extends, WithReceipt;
    hide FilledReceipt, Tx.NextTarget;
    if r.verdict.Fine? {
      ReceiptAdds(t.mem, t.mem.plan.targets[t.pc.i], r.receipt);
    } else {
      NextTargetLands(t, t.pc.i + 1);
    }
  }

  lemma SaveReceipts(t: Tx, r: Reply)
    requires Inv(t) && t.Saving()
    ensures Current(t.Step(r)).deliveries.Keys <= Current(t).deliveries.Keys
  {
    hide TrimSpace, Target.Key, Plan.Valid, TxState.HasRequired, TxState.ShouldDelete, Sound, Tx.NextTarget;
    match t.pc
    case SavingPlan => NextTargetLands(t.Saved(r.verdict), 0);
    case SavingReceipt(i) => NextTargetLands(t.Saved(r.verdict), i + 1);
    case _ =>
  }

  lemma CallReceipts(t: Tx, r: Reply)
    requires Inv(t) && !t.Saving() && !t.pc.Delivering?
    ensures Current(t.Step(r)).deliveries.Keys <= Current(t).deliveries.Keys
  {
    hide TrimSpace, Target.Key, Plan.Valid, TxState.HasRequired, TxState.ShouldDelete, Sound, Extends;
    hide Tx.NextTarget, Tx.AfterDeliveries;
    match t.pc
    case Loading => AfterDeliveriesLands(t.(mem := t.Stored()));
    case Processing => NextTargetLands(t, 0);
    case _ =>
  }

  /** Never more than one copy, and exactly one as soon as the target has a receipt. */
  ghost predicate PairInv(p: Pair, target: string, req: Request) {
    && Inv(p.h.tx) && Sane(p.folder, req)
    && Copies(p.folder.slots, req) <= 1
    && (target in Current(p.h.tx).deliveries ==> Copies(p.folder.slots, req) == 1)
  }

  lemma NextKeeps(p: Pair, target: string, req: Request, e: Event, s: Script)
    requires Recognisable(req) && PairInv(p, target, req)
    ensures PairInv(Next(p, target, req, e, s), target, req)
  {
    hide TrimSpace, Target.Key, Tx.Step, Tx.Begin, Inv, Write, Recognisable, Copies;
    match e
    case Start(job) =>
      BeginKeeps(p.h.tx, job);
      BeginCurrent(p.h.tx, job);
    case Answer(r) =>
      WriteIsIdempotent(p.folder, req, s);
      var (after, ok) := Write(p.folder, req, s);
      var landed := after != p.folder;
      var verdict := if r.verdict.Killed? then Killed(ok || landed) else if ok then Fine else Failed(landed);
      var q := if AtTarget(p.h.tx, target) then r.(verdict := verdict) else r;
      StepKeeps(p.h.tx, q);
      if target in Current(p.h.tx.Step(q)).deliveries && target !in Current(p.h.tx).deliveries {
        ReceiptsComeFromDeliveries(p.h.tx, q, target);
      }
  }

  lemma BeginCurrent(t: Tx, job: Job)
    ensures Current(t.Begin(job)) == Current(t)
  {
    hide TrimSpace;
  }

  /** A completed transaction whose required target is an IMAP folder has exactly one copy there,
      after whatever runs, cuts and lost answers, with other mail coming and going in between, and
      whether or not a copy was there before; and at no moment are there two. */
  lemma {:induction false} CompletedDeliveryHasOneCopy(
    key: string, folder: Folder, target: string, req: Request, past: seq<Happening>)
    requires Recognisable(req) && Sane(folder, req) && Copies(folder.slots, req) <= 1
    ensures var p := Run(Pair(NewHistory(key), folder), target, req, past);
      && PairInv(p, target, req)
      && (forall t | t in p.h.tx.Stored().plan.targets && t.required && t.Key() == target ::
            p.h.tx.Stored().completed && !p.h.tx.Stored().skipped ==> Copies(p.folder.slots, req) == 1)
  {
    hide TrimSpace, Target.Key, Target.Valid, Tx.Step, Tx.Begin, Write, Recognisable, Copies;
    var start := Pair(NewHistory(key), folder);
    var p := Run(start, target, req, past);
    if past != [] {
      CompletedDeliveryHasOneCopy(key, folder, target, req, past[..|past| - 1]);
      match past[|past| - 1]
      case Step(e, s) => NextKeeps(Run(start, target, req, past[..|past| - 1]), target, req, e, s);
      case Elsewhere(_) =>
    }
    var final := p.h.tx.Stored();
    if final.completed && !final.skipped && exists x :: x in final.plan.targets && x.required && x.Key() == target {
      CompletedHasReceipt(p.h.tx, target);
    }
  }

  lemma CompletedHasReceipt(t: Tx, target: string)
    requires Inv(t) && t.Stored().completed && !t.Stored().skipped
    requires exists x :: x in t.Stored().plan.targets && x.required && x.Key() == target
    ensures target in Current(t).deliveries
  {
    hide TrimSpace, Target.Key, Target.Valid;
  }
}
