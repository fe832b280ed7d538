/** The records of a mail transaction: plans, receipts, persisted state, envelopes. */
module Mailflow {
  import opened Text

  /** A logical mailbox store; the mailbox name takes no part in comparisons. */
  datatype StoreRef = StoreRef(driver: string, account: string, mailbox: string) {
    predicate Valid() {
      TrimSpace(driver) != "" && TrimSpace(account) != ""
    }

    predicate SameStore(other: StoreRef) {
      && EqualFold(TrimSpace(driver), TrimSpace(other.driver))
      && TrimSpace(account) == TrimSpace(other.account)
    }
  }

  datatype Trace = Trace(
    transactionKey: string,
    internetMessageId: string,
    sourceStore: StoreRef,
    attributes: map<string, string>)

  datatype Target = Target(name: string, consumer: string, artifact: string, required: bool) {
    function Key(): string {
      if TrimSpace(name) != "" then TrimSpace(name)
      else TrimSpace(consumer) + ":" + (if TrimSpace(artifact) == "" then "primary" else TrimSpace(artifact))
    }

    /** `DeliveryTarget.Validate`. */
    predicate Valid() {
      TrimSpace(consumer) != ""
    }
  }

  datatype DeletePolicy = DeletePolicy(enabled: bool, requireSameStore: bool, eligibleConsumers: seq<string>)

  datatype Plan = Plan(targets: seq<Target>, deleteSource: DeletePolicy) {
    ghost function Keys(): set<string> {
      set i | 0 <= i < |targets| :: targets[i].Key()
    }

    predicate DistinctKeys() {
      forall i, j | 0 <= i < j < |targets| :: targets[i].Key() != targets[j].Key()
    }

    predicate Valid() {
      && |targets| > 0
      && (forall t | t in targets :: t.Valid())
      && DistinctKeys()
      && exists t | t in targets :: t.required
    }

    /** `ExecutionPlan.Validate`: one pass that collects the keys seen so far. */
    method Validate() returns (ok: bool)
      ensures ok <==> Valid()
    {
      hide Target.Valid, Target.Key;
      if |targets| == 0 {
        return false;
      }
      var seen: set<string> := {};
      var hasRequired := false;
      for i := 0 to |targets|
        invariant forall t | t in targets[..i] :: t.Valid()
        invariant seen == set t | t in targets[..i] :: t.Key()
        invariant forall j, k | 0 <= j < k < i :: targets[j].Key() != targets[k].Key()
        invariant hasRequired <==> exists t | t in targets[..i] :: t.required
      {
        var target := targets[i];
        assert targets[..i + 1] == targets[..i] + [target];
        if !target.Valid() {
          return false;
        }
        hasRequired := hasRequired || target.required;
        var key := target.Key();
        if key in seen {
          return false;
        }
        seen := seen + {key};
      }
      assert targets[..|targets|] == targets;
      return hasRequired;
    }
  }

  /** A plan is valid if it has targets, one of them required, each names a consumer, and no two share a key. */
  lemma ValidMeans(plan: Plan)
    ensures plan.Valid() <==>
      && |plan.targets| > 0 && (exists i | 0 <= i < |plan.targets| :: plan.targets[i].required)
      && (forall i | 0 <= i < |plan.targets| :: TrimSpace(plan.targets[i].consumer) != "")
      && forall i, j | 0 <= i < j < |plan.targets| :: plan.targets[i].Key() != plan.targets[j].Key()
  {
    hide Target.Key, TrimSpace;
    var targets := plan.targets;
    if exists i | 0 <= i < |targets| :: targets[i].required {
      var i :| 0 <= i < |targets| && targets[i].required;
      assert targets[i] in targets;
    }
    if exists t | t in targets :: t.required {
      var t :| t in targets && t.required;
      var i :| 0 <= i < |targets| && targets[i] == t;
      assert targets[i].required;
    }
    assert forall i | 0 <= i < |targets| :: targets[i] in targets;
  }

  // ---- when two targets collide ----

  /** Two named targets have the same key if and only if their names agree, up to spaces around them. */
  lemma NamedTargetsCollide(a: Target, b: Target)
    requires TrimSpace(a.name) != "" && TrimSpace(b.name) != ""
    ensures a.Key() == b.Key() <==> TrimSpace(a.name) == TrimSpace(b.name)
    ensures a.Key() == TrimSpace(a.name)
  {
    hide TrimSpace;
  }

  /** Two targets without names, of consumers without a colon, have the same key if and only if consumer
      and artifact agree, where no artifact means the primary one. */
  lemma UnnamedTargetsCollide(a: Target, b: Target)
    requires TrimSpace(a.name) == "" && TrimSpace(b.name) == ""
    requires ':' !in TrimSpace(a.consumer) && ':' !in TrimSpace(b.consumer)
    ensures a.Key() == b.Key() <==>
      && TrimSpace(a.consumer) == TrimSpace(b.consumer)
      && (|| TrimSpace(a.artifact) == TrimSpace(b.artifact)
          || (TrimSpace(a.artifact) == "" && TrimSpace(b.artifact) == "primary")
          || (TrimSpace(a.artifact) == "primary" && TrimSpace(b.artifact) == ""))
  {
    hide TrimSpace;
    var c, d := TrimSpace(a.consumer), TrimSpace(b.consumer);
    if a.Key() == b.Key() {
      ColonSplits(c, a.Key()[|c| + 1..], d, b.Key()[|d| + 1..]);
    }
  }

  lemma ColonSplits(c: string, x: string, d: string, y: string)
    requires ':' !in c && ':' !in d && c + ":" + x == d + ":" + y
    ensures c == d && x == y
  {
    var s := c + ":" + x;
    assert s[|c|] == ':' && s[|d|] == ':';
    assert forall k | 0 <= k < |c| :: s[k] == c[k] && c[k] in c;
    assert forall k | 0 <= k < |d| :: s[k] == d[k] && d[k] in d;
    assert |c| == |d|;
    assert c == s[..|c|] && x == s[|c| + 1..];
  }

  datatype Receipt = Receipt(target: string, consumer: string, id: string, store: StoreRef)

  /** The durable state of one transaction. */
  datatype TxState = TxState(
    key: string,
    trace: Trace,
    plan: Plan,
    deliveries: map<string, Receipt>,
    skipped: bool,
    sourceDeleted: bool,
    sourceAcked: bool,
    completed: bool)
  {
    /** `hasRequiredDeliveries`. */
    predicate HasRequired() {
      forall i | 0 <= i < |plan.targets| :: plan.targets[i].required ==> plan.targets[i].Key() in deliveries
    }

    /** A plan has been fixed and every target it requires has a receipt. */
    predicate Committed() {
      |plan.targets| > 0 && HasRequired()
    }

    predicate Eligible(receipt: Receipt) {
      var policy := plan.deleteSource;
      && (policy.eligibleConsumers == []
          || exists c | c in policy.eligibleConsumers :: TrimSpace(c) == TrimSpace(receipt.consumer))
      && (policy.requireSameStore ==>
            trace.sourceStore.Valid() && receipt.store.Valid() && receipt.store.SameStore(trace.sourceStore))
    }

    /** `shouldDeleteSource`: some receipt satisfies the policy. */
    predicate ShouldDelete() {
      plan.deleteSource.enabled && exists k | k in deliveries :: Eligible(deliveries[k])
    }
  }

  datatype DeleteSemantics = Hard | Soft | Unknown

  /** What the source handle of an envelope can do besides acknowledging. */
  datatype Source = NoSource | Source(deletable: bool, finalizer: bool)

  datatype Envelope = Envelope(hasMime: bool, trace: Trace, source: Source, semantics: DeleteSemantics) {
    predicate Valid() {
      hasMime && TrimSpace(trace.transactionKey) != ""
    }

    /** `validateDeleteSource`. */
    predicate AllowsDelete(policy: DeletePolicy) {
      policy.enabled ==> source.Source? && source.deletable && semantics == Hard
    }
  }

  function EmptyStore(): StoreRef {
    StoreRef("", "", "")
  }

  function NoPlan(): Plan {
    Plan([], DeletePolicy(false, false, []))
  }

  /** The state of a transaction that was never saved. */
  function FreshState(key: string): TxState {
    TxState(key, Trace("", "", EmptyStore(), map[]), NoPlan(), map[], false, false, false, false)
  }

  /** The fields a receipt gets when the consumer left them blank. */
  function FilledReceipt(receipt: Receipt, target: Target): Receipt {
    receipt.(
      target := if TrimSpace(receipt.target) == "" then target.Key() else receipt.target,
      consumer := if TrimSpace(receipt.consumer) == "" then target.consumer else receipt.consumer)
  }

  /** Records a receipt; a backup receipt also leaves its path in the trace. */
  function WithReceipt(s: TxState, target: Target, receipt: Receipt): TxState {
    var filled := FilledReceipt(receipt, target);
    var isBackup := EqualFold(TrimSpace(filled.store.driver), "backup") && TrimSpace(filled.id) != "";
    s.(
      trace := if isBackup then s.trace.(attributes := s.trace.attributes["backup_path" := TrimSpace(filled.id)])
               else s.trace,
      deliveries := s.deliveries[target.Key() := filled])
  }
}
