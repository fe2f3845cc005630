/**
 The verification of a whole cutover: a signed writer fence, the inventories, and the chain of
 signed transition receipts from the drained state to one active release.
 */
module CutoverChain {
  import opened Common
  import opened Cutover

  datatype Report = Report(
    source: string,
    target: string,
    environment: string,
    fenceDigest: Digest,
    transitionCount: nat,
    finalState: State,
    finalDigest: Digest,
    signers: set<string>)

  // ---------- what makes a chain legal ----------

  predicate IsReceipt(e: Envelope) {
    e.document.ReceiptDocument?
  }

  function BodyOf(e: Envelope): ReceiptBody
    requires IsReceipt(e)
  {
    e.document.receipt.body
  }

  function DigestOf(e: Envelope): Digest {
    match e.document case FenceDocument(f) => f.digest case ReceiptDocument(r) => r.digest
  }

  /** A receipt is for the fence's releases and environment, and so is its inventory. */
  predicate InScope(f: Fence, b: ReceiptBody, i: InventoryBody) {
    && b.fenceDigest == f.digest
    && (b.source, b.target, b.environment) == (f.body.source, f.body.target, f.body.environment)
    && (i.source, i.target, i.environment) == (f.body.source, f.body.target, f.body.environment)
    && b.trafficRevision == i.trafficRevision
  }

  /** Everything happens after the previous signature: the inventory, then the receipt. */
  predicate InTime(e: Envelope, i: InventoryBody, last: int)
    requires IsReceipt(e)
  {
    && last < i.observedAt <= BodyOf(e).observedAt
    && last < BodyOf(e).observedAt
    && last < e.signedAt
  }

  /** Traffic is on the revision that the transition is about. */
  predicate TrafficFits(b: ReceiptBody, i: InventoryBody, sequence: int, state: State) {
    match b.kind
    case CUTOVER => sequence == 1 && state == DRAINED && b.trafficRevision == i.targetRevision
    case ROLLBACK => sequence == 2 && state == CUTOVER_COMMITTED && b.trafficRevision == i.sourceRevision
    case UNFREEZE =>
      (match state
       case CUTOVER_COMMITTED => b.to == TARGET_ACTIVE && b.trafficRevision == i.targetRevision
       case ROLLBACK_COMMITTED => b.to == SOURCE_ACTIVE && b.trafficRevision == i.sourceRevision
       case _ => false)
    case WRITER_FENCE => false
  }

  /** One link: a receipt, its inventory, and where the chain stands before it. */
  predicate Linked(f: Fence, e: Envelope, i: InventoryBody, sequence: int, previous: Digest, state: State, last: int)
    requires IsReceipt(e)
  {
    var b := BodyOf(e);
    && b.sequence == sequence && b.previous == previous && b.from == state
    && InScope(f, b, i)
    && InTime(e, i, last)
    && TrafficFits(b, i, sequence, state)
  }

  predicate AllReceipts(ts: seq<Envelope>) {
    forall k | 0 <= k < |ts| :: IsReceipt(ts[k])
  }

  function PreviousAt(ts: seq<Envelope>, k: nat): Digest
    requires k <= |ts|
  {
    if k == 0 then ZERO else DigestOf(ts[k - 1])
  }

  function StateAt(ts: seq<Envelope>, k: nat): State
    requires k <= |ts| && AllReceipts(ts)
  {
    if k == 0 then DRAINED else BodyOf(ts[k - 1]).to
  }

  function LastAt(fence: Envelope, ts: seq<Envelope>, k: nat): int
    requires k <= |ts|
  {
    if k == 0 then fence.signedAt else ts[k - 1].signedAt
  }

  predicate LinkAt(fence: Envelope, invs: seq<Inventory>, ts: seq<Envelope>, k: nat)
    requires k < |ts| && AllReceipts(ts) && fence.document.FenceDocument?
  {
    exists n :: 0 <= n < |invs| && invs[n].digest == BodyOf(ts[k]).inventoryDigest
      && Linked(fence.document.fence, ts[k], invs[n].body, k + 1, PreviousAt(ts, k), StateAt(ts, k), LastAt(fence, ts, k))
  }

  predicate SignersDistinct(fence: Envelope, ts: seq<Envelope>) {
    && (forall k | 0 <= k < |ts| :: ts[k].signerId != fence.signerId)
    && (forall j, k | 0 <= j < k < |ts| :: ts[j].signerId != ts[k].signerId)
  }

  predicate TransitionsDistinct(ts: seq<Envelope>)
    requires AllReceipts(ts)
  {
    forall j, k | 0 <= j < k < |ts| :: BodyOf(ts[j]).transitionId != BodyOf(ts[k]).transitionId
  }

  predicate InventoriesDistinct(invs: seq<Inventory>) {
    forall m, n | 0 <= m < n < |invs| ::
      invs[m].digest != invs[n].digest && invs[m].body.inventoryId != invs[n].body.inventoryId
  }

  predicate Uses(ts: seq<Envelope>, digest: Digest)
    requires AllReceipts(ts)
  {
    exists k :: 0 <= k < |ts| && BodyOf(ts[k]).inventoryDigest == digest
  }

  predicate Concluded(ts: seq<Envelope>)
    requires AllReceipts(ts)
  {
    && ts != [] && ts[|ts| - 1].kind == UNFREEZE
    && BodyOf(ts[|ts| - 1]).to in {SOURCE_ACTIVE, TARGET_ACTIVE}
  }

  /** Every document is valid and signed at the time of the verification. */
  predicate AllVerified(fence: Envelope, invs: seq<Inventory>, ts: seq<Envelope>, r: Keyring, now: int) {
    && Verified(fence, r, now) && fence.kind == WRITER_FENCE
    && (forall n {:trigger ValidInventory(invs[n], now)} | 0 <= n < |invs| :: ValidInventory(invs[n], now))
    && (forall k {:trigger Verified(ts[k], r, now)} | 0 <= k < |ts| :: Verified(ts[k], r, now) && ts[k].kind != WRITER_FENCE)
  }

  predicate LegalChain(fence: Envelope, invs: seq<Inventory>, ts: seq<Envelope>, r: Keyring, now: int) {
    && AllVerified(fence, invs, ts, r, now)
    && AllReceipts(ts) && fence.document.FenceDocument?
    && InventoriesDistinct(invs) && invs != [] && 2 <= |ts| <= 3
    && SignersDistinct(fence, ts) && TransitionsDistinct(ts)
    && (forall k | 0 <= k < |ts| :: LinkAt(fence, invs, ts, k))
    && Concluded(ts)
    && (forall n | 0 <= n < |invs| :: Uses(ts, invs[n].digest))
  }

  function SignersOf(fence: Envelope, ts: seq<Envelope>): set<string> {
    {fence.signerId} + set k | 0 <= k < |ts| :: ts[k].signerId
  }

  function ReportOf(fence: Envelope, ts: seq<Envelope>): Report
    requires fence.document.FenceDocument? && AllReceipts(ts) && ts != []
  {
    var f := fence.document.fence;
    Report(f.body.source, f.body.target, f.body.environment, f.digest, |ts|,
           StateAt(ts, |ts|), PreviousAt(ts, |ts|), SignersOf(fence, ts))
  }

  lemma VerifiedKinds(e: Envelope, r: Keyring, now: int)
    requires Verified(e, r, now)
    ensures e.kind == WRITER_FENCE <==> e.document.FenceDocument?
    ensures IsReceipt(e) ==> ValidReceipt(e.document.receipt, now) && BodyOf(e).kind == e.kind
  {
  }

  // ---------- the verifier ----------

  /** The inventories by digest. */
  predicate Tabled(table: map<Digest, Inventory>, invs: seq<Inventory>) {
    && (forall n | 0 <= n < |invs| :: invs[n].digest in table && table[invs[n].digest] == invs[n])
    && (forall d | d in table :: table[d] in invs && table[d].digest == d)
  }

  method TabulateInventories(invs: seq<Inventory>, now: int) returns (table: Option<map<Digest, Inventory>>)
    ensures table.Some? <==> InventoriesDistinct(invs) && forall n | 0 <= n < |invs| :: ValidInventory(invs[n], now)
    ensures table.Some? ==> Tabled(table.value, invs)
  {
    var byDigest: map<Digest, Inventory> := map[];
    var ids: set<string> := {};
    for n := 0 to |invs|
      invariant Tabled(byDigest, invs[..n])
      invariant ids == set k | 0 <= k < n :: invs[k].body.inventoryId
      invariant InventoriesDistinct(invs[..n])
      invariant forall k | 0 <= k < n :: ValidInventory(invs[k], now)
    {
      var valid := ValidateInventory(invs[n], now);
      if !valid {
        return None;
      }
      if invs[n].digest in byDigest || invs[n].body.inventoryId in ids {
        RepeatedInventory(byDigest, invs, n);
        return None;
      }
      NewInventory(byDigest, invs, n);
      byDigest := byDigest[invs[n].digest := invs[n]];
      ids := ids + {invs[n].body.inventoryId};
    }
    assert invs[..|invs|] == invs;
    return Some(byDigest);
  }

  lemma NewInventory(table: map<Digest, Inventory>, invs: seq<Inventory>, n: nat)
    requires n < |invs| && Tabled(table, invs[..n]) && InventoriesDistinct(invs[..n])
    requires invs[n].digest !in table && forall k | 0 <= k < n :: invs[k].body.inventoryId != invs[n].body.inventoryId
    ensures Tabled(table[invs[n].digest := invs[n]], invs[..n + 1]) && InventoriesDistinct(invs[..n + 1])
  {
    assert invs[..n + 1] == invs[..n] + [invs[n]];
  }

  lemma RepeatedInventory(table: map<Digest, Inventory>, invs: seq<Inventory>, n: nat)
    requires n < |invs| && Tabled(table, invs[..n])
    requires invs[n].digest in table || exists k :: 0 <= k < n && invs[k].body.inventoryId == invs[n].body.inventoryId
    ensures !InventoriesDistinct(invs)
  {
    if invs[n].digest in table {
      var k :| 0 <= k < n && invs[..n][k] == table[invs[n].digest];
      assert invs[k].digest == invs[n].digest;
    }
  }

  predicate NewTransition(p: seq<Envelope>)
    requires AllReceipts(p) && p != []
  {
    forall j | 0 <= j < |p| - 1 :: BodyOf(p[j]).transitionId != BodyOf(p[|p| - 1]).transitionId
  }

  /** The k-th receipt is verified, new, and linked to those before it. */
  ghost predicate Continues(fence: Envelope, invs: seq<Inventory>, ts: seq<Envelope>, k: nat, r: Keyring, now: int)
    requires k < |ts| && fence.document.FenceDocument?
  {
    && Verified(ts[k], r, now) && ts[k].kind != WRITER_FENCE
    && AllReceipts(ts[..k + 1])
    && ts[k].signerId != fence.signerId
    && (forall j | 0 <= j < k :: ts[j].signerId != ts[k].signerId)
    && NewTransition(ts[..k + 1])
    && LinkAt(fence, invs, ts[..k + 1], k)
  }

  /** The first k receipts do. */
  ghost predicate SoFar(fence: Envelope, invs: seq<Inventory>, ts: seq<Envelope>, k: nat, r: Keyring, now: int)
    requires k <= |ts| && fence.document.FenceDocument?
  {
    forall j {:trigger Continues(fence, invs, ts, j, r, now)} | 0 <= j < k :: Continues(fence, invs, ts, j, r, now)
  }

  lemma LinkPrefix(fence: Envelope, invs: seq<Inventory>, ts: seq<Envelope>, m: nat, j: nat)
    requires j < m <= |ts| && AllReceipts(ts) && fence.document.FenceDocument?
    ensures AllReceipts(ts[..m]) && (LinkAt(fence, invs, ts[..m], j) <==> LinkAt(fence, invs, ts, j))
  {
    var p := ts[..m];
    assert p[j] == ts[j] && PreviousAt(p, j) == PreviousAt(ts, j);
    assert StateAt(p, j) == StateAt(ts, j) && LastAt(fence, p, j) == LastAt(fence, ts, j);
  }

  /** The parts of legality that speak of the receipts, one receipt after the other. */
  ghost predicate LinksLegal(fence: Envelope, invs: seq<Inventory>, ts: seq<Envelope>, r: Keyring, now: int)
    requires fence.document.FenceDocument?
  {
    && (forall k {:trigger Verified(ts[k], r, now)} | 0 <= k < |ts| :: Verified(ts[k], r, now) && ts[k].kind != WRITER_FENCE)
    && AllReceipts(ts)
    && SignersDistinct(fence, ts) && TransitionsDistinct(ts)
    && (forall k | 0 <= k < |ts| :: LinkAt(fence, invs, ts, k))
  }

  lemma LegalContinues(fence: Envelope, invs: seq<Inventory>, ts: seq<Envelope>, k: nat, r: Keyring, now: int)
    requires k < |ts| && fence.document.FenceDocument? && LinksLegal(fence, invs, ts, r, now)
    ensures Continues(fence, invs, ts, k, r, now)
  {
    LinkPrefix(fence, invs, ts, k + 1, k);
    assert forall j | 0 <= j <= k :: ts[..k + 1][j] == ts[j];
  }

  lemma ContinuesFacts(fence: Envelope, invs: seq<Inventory>, ts: seq<Envelope>, k: nat, r: Keyring, now: int)
    requires k < |ts| && fence.document.FenceDocument? && AllReceipts(ts) && Continues(fence, invs, ts, k, r, now)
    ensures Verified(ts[k], r, now) && ts[k].kind != WRITER_FENCE
    ensures LinkAt(fence, invs, ts, k) && ts[k].signerId != fence.signerId
    ensures forall j | 0 <= j < k :: ts[j].signerId != ts[k].signerId && BodyOf(ts[j]).transitionId != BodyOf(ts[k]).transitionId
  {
    LinkPrefix(fence, invs, ts, k + 1, k);
    assert forall j | 0 <= j <= k :: ts[..k + 1][j] == ts[j];
  }

  lemma ContinuesReceipts(fence: Envelope, invs: seq<Inventory>, ts: seq<Envelope>, r: Keyring, now: int)
    requires fence.document.FenceDocument? && SoFar(fence, invs, ts, |ts|, r, now)
    ensures AllReceipts(ts)
  {
    if ts != [] {
      assert Continues(fence, invs, ts, |ts| - 1, r, now);
      assert ts[..|ts|] == ts;
    }
  }

  lemma ContinuesLegal(fence: Envelope, invs: seq<Inventory>, ts: seq<Envelope>, r: Keyring, now: int)
    requires fence.document.FenceDocument? && SoFar(fence, invs, ts, |ts|, r, now)
    ensures LinksLegal(fence, invs, ts, r, now)
  {
    ContinuesReceipts(fence, invs, ts, r, now);
    forall k | 0 <= k < |ts|
      ensures Verified(ts[k], r, now) && ts[k].kind != WRITER_FENCE
      ensures LinkAt(fence, invs, ts, k) && ts[k].signerId != fence.signerId
      ensures forall j | 0 <= j < k :: ts[j].signerId != ts[k].signerId && BodyOf(ts[j]).transitionId != BodyOf(ts[k]).transitionId
    {
      ContinuesFacts(fence, invs, ts, k, r, now);
    }
  }

  lemma LinksLegalIff(fence: Envelope, invs: seq<Inventory>, ts: seq<Envelope>, r: Keyring, now: int)
    requires fence.document.FenceDocument?
    ensures LinksLegal(fence, invs, ts, r, now) <==> SoFar(fence, invs, ts, |ts|, r, now)
  {
    if LinksLegal(fence, invs, ts, r, now) {
      forall k | 0 <= k < |ts|
        ensures Continues(fence, invs, ts, k, r, now)
      {
        LegalContinues(fence, invs, ts, k, r, now);
      }
    } else if SoFar(fence, invs, ts, |ts|, r, now) {
      ContinuesLegal(fence, invs, ts, r, now);
    }
  }

  /** The checks on one more receipt. */
  method CheckLink(fence: Envelope, invs: seq<Inventory>, table: map<Digest, Inventory>, ghost ts: seq<Envelope>, e: Envelope,
                   sequence: int, previous: Digest, state: State, last: int) returns (ok: bool)
    requires fence.document.FenceDocument? && IsReceipt(e) && Tabled(table, invs)
    requires ts != [] && AllReceipts(ts) && e == ts[|ts| - 1]
    requires sequence == |ts| && previous == PreviousAt(ts, |ts| - 1) && state == StateAt(ts, |ts| - 1)
    requires last == LastAt(fence, ts, |ts| - 1)
    ensures ok <==> LinkAt(fence, invs, ts, |ts| - 1)
  {
    var b := BodyOf(e);
    if b.inventoryDigest !in table {
      return false;
    }
    var inventory := table[b.inventoryDigest];
    ok := Linked(fence.document.fence, e, inventory.body, sequence, previous, state, last);
    if ok {
      var n :| 0 <= n < |invs| && invs[n] == inventory;
      assert invs[n].digest == b.inventoryDigest;
    }
  }

  /** What the loop remembers of the receipts it has passed. */
  datatype Memory = Memory(signers: set<string>, transitions: set<string>, used: set<Digest>, previous: Digest, state: State, last: int)

  function Remember(fence: Envelope, p: seq<Envelope>): Memory
    requires AllReceipts(p)
  {
    Memory(SignersOf(fence, p), set k | 0 <= k < |p| :: BodyOf(p[k]).transitionId,
           set k | 0 <= k < |p| :: BodyOf(p[k]).inventoryDigest,
           PreviousAt(p, |p|), StateAt(p, |p|), LastAt(fence, p, |p|))
  }

  function Extended(m: Memory, e: Envelope): Memory
    requires IsReceipt(e)
  {
    Memory(m.signers + {e.signerId}, m.transitions + {BodyOf(e).transitionId}, m.used + {BodyOf(e).inventoryDigest},
           DigestOf(e), BodyOf(e).to, e.signedAt)
  }

  lemma RememberNext(fence: Envelope, ts: seq<Envelope>, k: nat)
    requires k < |ts| && AllReceipts(ts[..k]) && IsReceipt(ts[k])
    ensures AllReceipts(ts[..k + 1]) && Remember(fence, ts[..k + 1]) == Extended(Remember(fence, ts[..k]), ts[k])
  {
    var p, q, e := ts[..k], ts[..k + 1], ts[k];
    assert q[k] == e && forall j | 0 <= j < k :: q[j] == p[j];
    var m, n := Remember(fence, p), Remember(fence, q);
    assert n.signers == m.signers + {e.signerId};
    assert n.transitions == m.transitions + {BodyOf(e).transitionId};
    assert n.used == m.used + {BodyOf(e).inventoryDigest};
  }

  lemma SignerIsNew(fence: Envelope, ts: seq<Envelope>, k: nat)
    requires k < |ts|
    ensures ts[k].signerId !in SignersOf(fence, ts[..k])
      <==> ts[k].signerId != fence.signerId && forall j | 0 <= j < k :: ts[j].signerId != ts[k].signerId
  {
    var p := ts[..k];
    assert forall j | 0 <= j < k :: p[j] == ts[j] && p[j].signerId in SignersOf(fence, p);
  }

  lemma TransitionIsNew(fence: Envelope, ts: seq<Envelope>, k: nat)
    requires k < |ts| && AllReceipts(ts[..k + 1]) && AllReceipts(ts[..k])
    ensures BodyOf(ts[..k + 1][k]).transitionId !in Remember(fence, ts[..k]).transitions <==> NewTransition(ts[..k + 1])
  {
    var p, q := ts[..k], ts[..k + 1];
    assert forall j | 0 <= j < k :: q[j] == p[j] && BodyOf(p[j]).transitionId in Remember(fence, p).transitions;
  }

  method NextReceipt(fence: Envelope, invs: seq<Inventory>, table: map<Digest, Inventory>, ts: seq<Envelope>, k: nat, m: Memory, r: Keyring, now: int)
    returns (ok: bool)
    requires k < |ts| && fence.document.FenceDocument? && Tabled(table, invs)
    requires AllReceipts(ts[..k]) && m == Remember(fence, ts[..k])
    ensures ok <==> Continues(fence, invs, ts, k, r, now)
  {
    var e := ts[k];
    ghost var p := ts[..k + 1];
    assert p[..k] == ts[..k] && p == ts[..k] + [e];
    var verified := VerifySignedReceipt(e, r, None, now);
    if !verified || e.kind == WRITER_FENCE {
      return false;
    }
    VerifiedKinds(e, r, now);
    SignerIsNew(fence, ts, k);
    TransitionIsNew(fence, ts, k);
    if e.signerId in m.signers || BodyOf(e).transitionId in m.transitions {
      return false;
    }
    ok := CheckLink(fence, invs, table, p, e, k + 1, m.previous, m.state, m.last);
  }

  lemma ContinuesWith(fence: Envelope, invs: seq<Inventory>, table: map<Digest, Inventory>, ts: seq<Envelope>, k: nat, r: Keyring, now: int)
    requires k < |ts| && fence.document.FenceDocument? && Tabled(table, invs) && Continues(fence, invs, ts, k, r, now)
    ensures IsReceipt(ts[k]) && BodyOf(ts[k]).inventoryDigest in table
  {
    assert ts[..k + 1][k] == ts[k];
  }

  method VerifyLinks(fence: Envelope, invs: seq<Inventory>, table: map<Digest, Inventory>, ts: seq<Envelope>, r: Keyring, now: int)
    returns (memory: Option<Memory>)
    requires fence.document.FenceDocument? && Tabled(table, invs)
    ensures memory.Some? <==> LinksLegal(fence, invs, ts, r, now)
    ensures memory.Some? ==> memory.value == Remember(fence, ts) && memory.value.used <= table.Keys
  {
    var m := Memory({fence.signerId}, {}, {}, ZERO, DRAINED, fence.signedAt);
    assert m.signers == SignersOf(fence, []);
    for k := 0 to |ts|
      invariant SoFar(fence, invs, ts, k, r, now)
      invariant AllReceipts(ts[..k]) && m == Remember(fence, ts[..k])
      invariant m.used <= table.Keys
    {
      var ok := NextReceipt(fence, invs, table, ts, k, m, r, now);
      if !ok {
        assert !SoFar(fence, invs, ts, |ts|, r, now);
        LinksLegalIff(fence, invs, ts, r, now);
        return None;
      }
      ContinuesWith(fence, invs, table, ts, k, r, now);
      RememberNext(fence, ts, k);
      m := Extended(m, ts[k]);
    }
    assert ts[..|ts|] == ts;
    LinksLegalIff(fence, invs, ts, r, now);
    return Some(m);
  }

  method VerifyTransitionChain(fence: Envelope, invs: seq<Inventory>, ts: seq<Envelope>, r: Keyring, now: int)
    returns (report: Option<Report>)
    ensures report.Some? <==> LegalChain(fence, invs, ts, r, now)
    ensures report.Some? ==> report.value == ReportOf(fence, ts)
    ensures report.Some? ==>
      var f := fence.document.fence; var last := ts[|ts| - 1].document.receipt;
      report.value == Report(f.body.source, f.body.target, f.body.environment, f.digest, |ts|, last.body.to, last.digest,
                             {fence.signerId} + set k | 0 <= k < |ts| :: ts[k].signerId)
  {
    var fenced := VerifySignedReceipt(fence, r, Some(WRITER_FENCE), now);
    if !fenced {
      return None;
    }
    VerifiedKinds(fence, r, now);
    var table := TabulateInventories(invs, now);
    if table.None? || |invs| == 0 || |ts| < 2 || |ts| > 3 {
      return None;
    }
    var memory := VerifyLinks(fence, invs, table.value, ts, r, now);
    if memory.None? {
      return None;
    }
    var m := memory.value;
    UsedAll(ts, invs, table.value, m.used);
    if m.state !in {SOURCE_ACTIVE, TARGET_ACTIVE} || ts[|ts| - 1].kind != UNFREEZE || m.used != table.value.Keys {
      return None;
    }
    var f := fence.document.fence;
    return Some(Report(f.body.source, f.body.target, f.body.environment, f.digest, |ts|, m.state, m.previous, m.signers));
  }

  lemma UsedAll(ts: seq<Envelope>, invs: seq<Inventory>, table: map<Digest, Inventory>, used: set<Digest>)
    requires AllReceipts(ts) && Tabled(table, invs)
    requires used == set k | 0 <= k < |ts| :: BodyOf(ts[k]).inventoryDigest
    requires used <= table.Keys
    ensures used == table.Keys <==> forall n | 0 <= n < |invs| :: Uses(ts, invs[n].digest)
  {
    if used == table.Keys {
      forall n | 0 <= n < |invs|
        ensures Uses(ts, invs[n].digest)
      {
        assert invs[n].digest in used;
      }
    }
    forall d | d in table && forall n | 0 <= n < |invs| :: Uses(ts, invs[n].digest)
      ensures d in used
    {
      var n :| 0 <= n < |invs| && invs[n] == table[d];
      assert Uses(ts, invs[n].digest);
    }
  }
}
