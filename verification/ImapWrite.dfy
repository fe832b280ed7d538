/** Writing a mail to an IMAP folder: look for an earlier copy first, append only if there is none. */
module ImapWrite {
  import opened Transaction

  /** A mail as far as the write depends on it: its Message-ID and whether it carries the mark of a
      processed, encrypted mail. */
  datatype Mail = Mail(messageId: string, processed: bool)

  datatype Slot = Slot(uid: nat, mail: Mail)

  /** The target folder, in the order in which a search lists it. */
  datatype Folder = Folder(slots: seq<Slot>, nextUid: nat)

  /** A request. `known` is the Message-ID that the source reported, trimmed, and may be blank;
      `inMemory` tells whether the mail's bytes come with the request or only a way to open them;
      `original` is the UID of the source message, if the target is its own folder. */
  datatype Request = Request(known: string, dateKnown: bool, inMemory: bool, mail: Mail,
                             sameFolder: bool, original: nat, verify: bool)

  /** The answers to the commands of one call. */
  datatype Script = Script(
    readFails: bool, find: nat -> bool, check: bool, append: Verdict, uidReported: bool,
    findAgain: nat -> bool, checkAgain: bool)

  datatype Lookup = LookupFailed | Missing | Found(uid: nat)

  /** The Message-ID the write insists on, `resolveWriteRequestMetadata`. */
  function ResolvedId(req: Request): string {
    if req.known != "" then req.known else req.mail.messageId
  }

  /** The Message-ID the reconciliation looks for. */
  function ReconciledId(req: Request): string {
    if req.known != "" then req.known else if req.inMemory then req.mail.messageId else ""
  }

  predicate IsOriginal(req: Request, slot: Slot) {
    req.sameFolder && slot.uid == req.original
  }

  function Matching(slots: seq<Slot>, id: string): seq<Slot> {
    if slots == [] then []
    else (if slots[0].mail.messageId == id then [slots[0]] else []) + Matching(slots[1..], id)
  }

  /** The first processed message of the list that is not the original; `fails(n)` is the fate of the
      `n`-th command. */
  function Scan(slots: seq<Slot>, req: Request, fails: nat -> bool, n: nat): Lookup {
    if slots == [] then Missing
    else if IsOriginal(req, slots[0]) then Scan(slots[1..], req, fails, n)
    else if fails(n) then LookupFailed
    else if slots[0].mail.processed then Found(slots[0].uid)
    else Scan(slots[1..], req, fails, n + 1)
  }

  function Find(folder: Folder, req: Request, id: string, fails: nat -> bool): Lookup {
    if fails(0) then LookupFailed else Scan(Matching(folder.slots, id), req, fails, 1)
  }

  function Appended(folder: Folder, mail: Mail): Folder {
    Folder(folder.slots + [Slot(folder.nextUid, mail)], folder.nextUid + 1)
  }

  /** The folder after a write, and whether the write reports success. */
  function Write(folder: Folder, req: Request, s: Script): (Folder, bool) {
    if ((req.known == "" || !req.dateKnown) && s.readFails) || ResolvedId(req) == "" then (folder, false)
    else
      var earlier := if ReconciledId(req) == "" then Missing else Find(folder, req, ReconciledId(req), s.find);
      match earlier
      case LookupFailed => (folder, false)
      case Found(_) => (folder, !req.verify || s.check)
      case Missing =>
        var after := if s.append.Landed() then Appended(folder, req.mail) else folder;
        (after,
         s.append.Fine? && (s.uidReported || Find(after, req, ResolvedId(req), s.findAgain).Found?)
         && (!req.verify || (s.checkAgain && req.mail.processed)))
  }

  class Sink {
    var folder: Folder

    constructor (folder: Folder)
      ensures this.folder == folder
    {
      this.folder := folder;
    }

    /** `findProcessedUIDViaGoIMAP`. */
    method FindProcessedUid(req: Request, id: string, fails: nat -> bool) returns (found: Lookup)
      ensures found == Find(folder, req, id, fails)
      ensures found.Found? ==>
        exists i | 0 <= i < |folder.slots| && folder.slots[i].uid == found.uid :: Matches(folder.slots[i], req, id)
      ensures found.Missing? ==> forall i | 0 <= i < |folder.slots| :: !Matches(folder.slots[i], req, id)
      ensures fails(0) ==> found.LookupFailed?
      ensures (forall n :: !fails(n)) ==> !found.LookupFailed?
    {
      ScanMeans(folder.slots, req, id, fails, 1);
      if fails(0) {
        return LookupFailed;
      }
      var ids := Matching(folder.slots, id);
      var n := 1;
      for i := 0 to |ids|
        invariant Scan(ids, req, fails, 1) == Scan(ids[i..], req, fails, n)
      {
        var slot := ids[i];
        assert ids[i..] == [slot] + ids[i + 1..];
        if IsOriginal(req, slot) {
          continue;
        }
        if fails(n) {
          return LookupFailed;
        }
        if slot.mail.processed {
          return Found(slot.uid);
        }
        n := n + 1;
      }
      return Missing;
    }

    /** `reconcileMessage`. */
    method Reconcile(req: Request, s: Script) returns (ok: bool, found: bool)
      ensures var earlier := if ReconciledId(req) == "" then Missing else Find(folder, req, ReconciledId(req), s.find);
        && found == (ok && earlier.Found?)
        && ok == (earlier.Missing? || (earlier.Found? && (!req.verify || s.check)))
    {
      var id := if req.known != "" then req.known else if req.inMemory then req.mail.messageId else "";
      if id == "" {
        return true, false;
      }
      var uid := FindProcessedUid(req, id, s.find);
      if uid.LookupFailed? {
        return false, false;
      }
      if uid.Missing? {
        return true, false;
      }
      if req.verify && !s.check {
        return false, false;
      }
      return true, true;
    }

    /** `writeMessage`. */
    method WriteMessage(req: Request, s: Script) returns (ok: bool)
      modifies this
      ensures (folder, ok) == Write(old(folder), req, s)
      // the folder gains this mail at its end, or nothing
      ensures folder == old(folder) || folder == Appended(old(folder), req.mail)
      // without any Message-ID nothing is written
      ensures req.known == "" && req.mail.messageId == "" ==> !ok && folder == old(folder)
      // the bytes must be readable when the source has not reported both Message-ID and date
      ensures (req.known == "" || !req.dateKnown) && s.readFails ==> !ok && folder == old(folder)
      // an append must be answered, and found again if the answer names no UID
      ensures ok && folder != old(folder) ==> s.append.Fine? && (s.uidReported || !s.findAgain(0))
      // a success leaves a copy, checked if that was asked for
      ensures ok && req.verify ==> if folder == old(folder) then s.check else s.checkAgain && req.mail.processed
    {
      hide Find;
      var messageId := req.known;
      if messageId == "" || !req.dateKnown {
        if s.readFails {
          return false;
        }
        if messageId == "" {
          messageId := req.mail.messageId;
        }
      }
      if messageId == "" {
        return false;
      }
      var reconciled, found := Reconcile(req, s);
      if !reconciled {
        return false;
      }
      if found {
        return true;
      }
      if s.append.Landed() {
        folder := Folder(folder.slots + [Slot(folder.nextUid, req.mail)], folder.nextUid + 1);
      }
      if !s.append.Fine? {
        return false;
      }
      if !s.uidReported {
        var created := FindProcessedUid(req, messageId, s.findAgain);
        if !created.Found? {
          return false;
        }
      }
      if req.verify && !(s.checkAgain && req.mail.processed) {
        return false;
      }
      return true;
    }
  }

  /** What a lookup looks for: a marked message with that Message-ID, other than the source message. */
  predicate Matches(slot: Slot, req: Request, id: string) {
    slot.mail.messageId == id && slot.mail.processed && !(req.sameFolder && slot.uid == req.original)
  }

  lemma {:induction false} ScanMeans(slots: seq<Slot>, req: Request, id: string, fails: nat -> bool, n: nat)
    ensures var found := Scan(Matching(slots, id), req, fails, n);
      && (found.Found? ==>
            exists i | 0 <= i < |slots| && slots[i].uid == found.uid :: Matches(slots[i], req, id))
      && (found.Missing? ==> forall i | 0 <= i < |slots| :: !Matches(slots[i], req, id))
      && ((forall m :: !fails(m)) ==> !found.LookupFailed?)
  {
    if slots != [] {
      var rest := Matching(slots[1..], id);
      ScanMeans(slots[1..], req, id, fails, n);
      ScanMeans(slots[1..], req, id, fails, n + 1);
      if slots[0].mail.messageId == id {
        assert Matching(slots, id)[1..] == rest;
      } else {
        assert Matching(slots, id) == rest;
      }
      assert forall i | 0 < i < |slots| :: slots[i] == slots[1..][i - 1];
      assert forall i | 0 <= i < |slots[1..]| :: slots[1..][i] == slots[i + 1];
    }
  }

  // ---- copies ----

  predicate IsCopy(req: Request, slot: Slot) {
    slot.mail == req.mail && !IsOriginal(req, slot)
  }

  function Copies(slots: seq<Slot>, req: Request): nat {
    if slots == [] then 0 else (if IsCopy(req, slots[0]) then 1 else 0) + Copies(slots[1..], req)
  }

  /** UIDs are given out in order, so an appended message is never the original. */
  ghost predicate Sane(folder: Folder, req: Request) {
    req.sameFolder ==> req.original < folder.nextUid
  }

  lemma {:induction false} CopiesAppend(slots: seq<Slot>, slot: Slot, req: Request)
    ensures Copies(slots + [slot], req) == Copies(slots, req) + if IsCopy(req, slot) then 1 else 0
  {
    if slots != [] {
      CopiesAppend(slots[1..], slot, req);
      assert (slots + [slot])[1..] == slots[1..] + [slot];
    }
  }

  /** The mail can be recognised in the folder by the id that the reconciliation looks for. */
  predicate Recognisable(req: Request) {
    req.mail.processed && req.mail.messageId != "" && ReconciledId(req) == req.mail.messageId
  }

  /** For a recognisable mail, a lookup that does not fail finds a copy if and only if there is one. */
  lemma {:induction false} ScanFindsCopies(slots: seq<Slot>, req: Request, fails: nat -> bool, n: nat)
    requires Recognisable(req)
    ensures var found := Scan(Matching(slots, req.mail.messageId), req, fails, n);
      !found.LookupFailed? ==> (found.Found? <==> Copies(slots, req) > 0)
  {
    if slots != [] {
      var rest := Matching(slots[1..], req.mail.messageId);
      if slots[0].mail.messageId == req.mail.messageId {
        assert Matching(slots, req.mail.messageId)[1..] == rest;
        if !IsOriginal(req, slots[0]) && !slots[0].mail.processed {
          ScanFindsCopies(slots[1..], req, fails, n + 1);
        } else {
          ScanFindsCopies(slots[1..], req, fails, n);
        }
      } else {
        assert Matching(slots, req.mail.messageId) == rest;
        ScanFindsCopies(slots[1..], req, fails, n);
      }
    }
  }

  /** One write of a recognisable mail appends only when there is no copy, and success means there is one. */
  lemma WriteIsIdempotent(folder: Folder, req: Request, s: Script)
    requires Recognisable(req) && Sane(folder, req)
    ensures var (after, ok) := Write(folder, req, s);
      && Sane(after, req)
      && Copies(folder.slots, req) <= Copies(after.slots, req)
      && (Copies(folder.slots, req) > 0 ==> after == folder)
      && (Copies(folder.slots, req) == 0 ==> Copies(after.slots, req) <= 1)
      && (ok ==> Copies(after.slots, req) > 0)
  {
    ScanFindsCopies(folder.slots, req, s.find, 1);
    CopiesAppend(folder.slots, Slot(folder.nextUid, req.mail), req);
  }

  /** The folder after a series of attempts, and whether one of them reported success. */
  function Retry(folder: Folder, req: Request, scripts: seq<Script>): (Folder, bool) {
    if scripts == [] then (folder, false)
    else
      var (before, done) := Retry(folder, req, scripts[..|scripts| - 1]);
      var (after, ok) := Write(before, req, scripts[|scripts| - 1]);
      (after, done || ok)
  }

  /** Any number of attempts to write a recognisable mail, including appends that landed but reported
      an error, leave at most one copy, and exactly one once an attempt has succeeded. */
  lemma {:induction false} OneCopy(folder: Folder, req: Request, scripts: seq<Script>)
    requires Recognisable(req) && Sane(folder, req) && Copies(folder.slots, req) <= 1
    ensures var (after, done) := Retry(folder, req, scripts);
      Sane(after, req) && Copies(after.slots, req) <= 1 && (done ==> Copies(after.slots, req) == 1)
  {
    hide Write, Copies;
    if scripts != [] {
      OneCopy(folder, req, scripts[..|scripts| - 1]);
      WriteIsIdempotent(Retry(folder, req, scripts[..|scripts| - 1]).0, req, scripts[|scripts| - 1]);
    }
  }

  /** No series of attempts leaves two copies. */
  ghost predicate NeverTwice(req: Request) {
    forall folder, scripts | Sane(folder, req) && Copies(folder.slots, req) <= 1 ::
      Copies(Retry(folder, req, scripts).0.slots, req) <= 1
  }

  /** The environment in which every command succeeds, but the answer to the append is lost. */
  function LostAnswer(): Script {
    Script(false, (n: nat) => false, true, Failed(true), true, (n: nat) => false, true)
  }

  lemma UnrecognisedIsAppended(folder: Folder, req: Request)
    requires !Recognisable(req) && ResolvedId(req) != "" && Sane(folder, req)
    requires forall slot | slot in folder.slots :: slot.mail == req.mail
    ensures Write(folder, req, LostAnswer()).0 == Appended(folder, req.mail)
  {
    if ReconciledId(req) != "" {
      NothingRecognised(folder.slots, req, LostAnswer().find, 1);
    }
  }

  lemma {:induction false} NothingRecognised(slots: seq<Slot>, req: Request, fails: nat -> bool, n: nat)
    requires !Recognisable(req) && ReconciledId(req) != "" && forall m :: !fails(m)
    requires forall slot | slot in slots :: slot.mail == req.mail
    ensures Scan(Matching(slots, ReconciledId(req)), req, fails, n) == Missing
  {
    if slots != [] {
      var rest := Matching(slots[1..], ReconciledId(req));
      NothingRecognised(slots[1..], req, fails, n);
      NothingRecognised(slots[1..], req, fails, n + 1);
      if slots[0].mail.messageId == ReconciledId(req) {
        assert Matching(slots, ReconciledId(req))[1..] == rest;
      } else {
        assert Matching(slots, ReconciledId(req)) == rest;
      }
    }
  }

  /** Retries are safe if and only if the mail is recognisable, or has no Message-ID at all so that
      it is never written. In particular a mail whose source reported no Message-ID and whose bytes
      are not in memory is appended again by every retry, and so is one without the mark. */
  lemma WhenRetriesAreSafe(req: Request)
    ensures NeverTwice(req) <==> Recognisable(req) || ResolvedId(req) == ""
  {
    hide Write, Copies, Retry;
    if Recognisable(req) {
      forall folder, scripts | Sane(folder, req) && Copies(folder.slots, req) <= 1
        ensures Copies(Retry(folder, req, scripts).0.slots, req) <= 1
      {
        OneCopy(folder, req, scripts);
      }
    } else if ResolvedId(req) == "" {
      forall folder, scripts | Sane(folder, req) && Copies(folder.slots, req) <= 1
        ensures Copies(Retry(folder, req, scripts).0.slots, req) <= 1
      {
        NeverWritten(folder, req, scripts);
      }
    } else {
      TwoLostAnswers(req);
    }
  }

  lemma {:induction false} NeverWritten(folder: Folder, req: Request, scripts: seq<Script>)
    requires ResolvedId(req) == ""
    ensures Retry(folder, req, scripts).0 == folder
  {
    if scripts != [] {
      NeverWritten(folder, req, scripts[..|scripts| - 1]);
    }
  }

  /** Two attempts whose answers are lost leave two copies of a mail that is not recognisable. */
  lemma TwoLostAnswers(req: Request)
    requires !Recognisable(req) && ResolvedId(req) != ""
    ensures var folder := Folder([], req.original + 1);
      && Sane(folder, req) && Copies(folder.slots, req) == 0
      && Copies(Retry(folder, req, [LostAnswer(), LostAnswer()]).0.slots, req) == 2
    ensures !NeverTwice(req)
  {
    hide Write;
    var a := Folder([], req.original + 1);
    var b := Appended(a, req.mail);
    var c := Appended(b, req.mail);
    UnrecognisedIsAppended(a, req);
    UnrecognisedIsAppended(b, req);
    CopiesAppend(a.slots, b.slots[0], req);
    CopiesAppend(b.slots, c.slots[1], req);
    var scripts := [LostAnswer(), LostAnswer()];
    assert scripts[..1] == [LostAnswer()] && [LostAnswer()][..0] == [];
    assert Retry(a, req, []).0 == a;
    assert Retry(a, req, [LostAnswer()]).0 == b;
    assert Retry(a, req, scripts).0 == c;
  }

  /** No command that the attempt needs fails, and its checks find the mark. */
  predicate Calm(req: Request, s: Script) {
    && (s.readFails ==> req.known != "" && req.dateKnown)
    && s.append.Fine? && s.check && s.checkAgain
  }

  /** An attempt to write a marked mail under a known Message-ID in which nothing fails reports success,
      whether a copy was there before or not. */
  lemma CalmWriteSucceeds(folder: Folder, req: Request, s: Script)
    requires req.mail.processed && req.mail.messageId != ""
    requires req.known == req.mail.messageId || (req.known == "" && req.inMemory)
    requires Sane(folder, req) && Calm(req, s) && forall n :: !s.find(n) && !s.findAgain(n)
    ensures Write(folder, req, s).1
  {
    hide Scan, Matching, Copies;
    ScanMeans(folder.slots, req, req.mail.messageId, s.find, 1);
    var after := Appended(folder, req.mail);
    ScanMeans(after.slots, req, ResolvedId(req), s.findAgain, 1);
    assert after.slots[|folder.slots|] == Slot(folder.nextUid, req.mail);
    assert Matches(after.slots[|folder.slots|], req, req.mail.messageId);
  }

  /** Retries are safe exactly for a marked mail with a Message-ID that the source reported as it is, or did
      not report while the bytes are in memory; and for a mail without any Message-ID, which is never
      written. */
  lemma WhichRetriesAreSafe(req: Request)
    ensures NeverTwice(req) <==>
      || (&& req.mail.processed && req.mail.messageId != ""
          && (req.known == req.mail.messageId || (req.known == "" && req.inMemory)))
      || (req.known == "" && req.mail.messageId == "")
  {
    hide NeverTwice;
    WhenRetriesAreSafe(req);
  }
}
