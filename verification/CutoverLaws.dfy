/**
 What an accepted cutover chain guarantees: which sequences of transitions it can be, in which order
 of time, by whom, over which inventories, and what its final digest commits to.
 */
module CutoverLaws {
  import opened Common
  import opened Cutover
  import opened CutoverChain

  // ---------- a chain with the inventories in the order of use ----------

  /** The k-th receipt, valid by itself, linked through the k-th inventory. */
  predicate LinkWith(fence: Envelope, ts: seq<Envelope>, us: seq<InventoryBody>, k: nat)
    requires k < |ts| == |us| && AllReceipts(ts) && fence.document.FenceDocument?
  {
    var b := BodyOf(ts[k]);
    && b.inventoryDigest == OfInventory(us[k])
    && Linked(fence.document.fence, ts[k], us[k], k + 1, PreviousAt(ts, k), StateAt(ts, k), LastAt(fence, ts, k))
    && DigestOf(ts[k]) == OfReceipt(b) && b.kind == ts[k].kind
    && StatesAllowed(b.kind, b.from, b.to, b.sequence) && b.writesFenced == (b.kind != UNFREEZE)
    && b.observedAt <= ts[k].signedAt
  }

  predicate Strand(fence: Envelope, ts: seq<Envelope>, us: seq<InventoryBody>) {
    && fence.document.FenceDocument? && AllReceipts(ts) && |us| == |ts|
    && fence.document.fence.body.measuredAt <= fence.signedAt
    && fence.document.fence.digest == OfFence(fence.document.fence.body)
    && forall k | 0 <= k < |ts| :: LinkWith(fence, ts, us, k)
  }

  function AsInventory(b: InventoryBody): Inventory {
    Inventory(b, OfInventory(b))
  }

  /** The inventory that the k-th receipt uses. */
  lemma InventoryAt(fence: Envelope, invs: seq<Inventory>, ts: seq<Envelope>, r: Keyring, now: int, k: nat) returns (i: Inventory)
    requires LegalChain(fence, invs, ts, r, now) && k < |ts|
    ensures i in invs && i == AsInventory(i.body) && ValidInventory(i, now) && i.digest == BodyOf(ts[k]).inventoryDigest
    ensures Linked(fence.document.fence, ts[k], i.body, k + 1, PreviousAt(ts, k), StateAt(ts, k), LastAt(fence, ts, k))
  {
    assert LinkAt(fence, invs, ts, k);
    var n :| 0 <= n < |invs| && invs[n].digest == BodyOf(ts[k]).inventoryDigest
      && Linked(fence.document.fence, ts[k], invs[n].body, k + 1, PreviousAt(ts, k), StateAt(ts, k), LastAt(fence, ts, k));
    i := invs[n];
    assert ValidInventory(invs[n], now);
  }

  lemma ReceiptAt(fence: Envelope, invs: seq<Inventory>, ts: seq<Envelope>, r: Keyring, now: int, k: nat)
    requires LegalChain(fence, invs, ts, r, now) && k < |ts|
    ensures ValidReceipt(ts[k].document.receipt, now) && BodyOf(ts[k]).kind == ts[k].kind
    ensures BodyOf(ts[k]).observedAt <= ts[k].signedAt <= now + 30 * SECOND
    ensures ts[k].role == RoleOf(ts[k].kind)
  {
    assert Verified(ts[k], r, now);
    VerifiedKinds(ts[k], r, now);
  }

  lemma FenceIsValid(fence: Envelope, invs: seq<Inventory>, ts: seq<Envelope>, r: Keyring, now: int)
    requires LegalChain(fence, invs, ts, r, now)
    ensures ValidFence(fence.document.fence, now) && fence.document.fence.body.measuredAt <= fence.signedAt
  {
    assert Verified(fence, r, now);
  }

  /** The k-th receipt uses this inventory of the list. */
  predicate UsedAt(fence: Envelope, invs: seq<Inventory>, ts: seq<Envelope>, u: InventoryBody, now: int, k: nat)
    requires k < |ts| && AllReceipts(ts) && fence.document.FenceDocument?
  {
    && AsInventory(u) in invs && ValidInventory(AsInventory(u), now)
    && BodyOf(ts[k]).inventoryDigest == OfInventory(u)
    && Linked(fence.document.fence, ts[k], u, k + 1, PreviousAt(ts, k), StateAt(ts, k), LastAt(fence, ts, k))
  }

  lemma UsedInventory(fence: Envelope, invs: seq<Inventory>, ts: seq<Envelope>, r: Keyring, now: int, k: nat) returns (u: InventoryBody)
    requires LegalChain(fence, invs, ts, r, now) && k < |ts|
    ensures UsedAt(fence, invs, ts, u, now, k)
  {
    var i := InventoryAt(fence, invs, ts, r, now, k);
    u := i.body;
  }

  lemma UsedInventories(fence: Envelope, invs: seq<Inventory>, ts: seq<Envelope>, r: Keyring, now: int, n: nat) returns (us: seq<InventoryBody>)
    requires LegalChain(fence, invs, ts, r, now) && n <= |ts|
    ensures |us| == n && forall k | 0 <= k < n :: UsedAt(fence, invs, ts, us[k], now, k)
    decreases n
  {
    if n == 0 {
      us := [];
    } else {
      us := UsedInventories(fence, invs, ts, r, now, n - 1);
      var u := UsedInventory(fence, invs, ts, r, now, n - 1);
      us := us + [u];
    }
  }

  lemma UsedLink(fence: Envelope, invs: seq<Inventory>, ts: seq<Envelope>, us: seq<InventoryBody>, now: int, k: nat)
    requires k < |ts| == |us| && AllReceipts(ts) && fence.document.FenceDocument?
    requires UsedAt(fence, invs, ts, us[k], now, k)
    requires ValidReceipt(ts[k].document.receipt, now) && BodyOf(ts[k]).kind == ts[k].kind && BodyOf(ts[k]).observedAt <= ts[k].signedAt
    ensures LinkWith(fence, ts, us, k)
  {
  }

  /** The inventories of the list are exactly those used. */
  predicate UsedExactly(invs: seq<Inventory>, us: seq<InventoryBody>) {
    && (forall k | 0 <= k < |us| :: AsInventory(us[k]) in invs)
    && (forall i | i in invs :: Among(us, i))
  }

  predicate Among(us: seq<InventoryBody>, i: Inventory) {
    exists k :: 0 <= k < |us| && AsInventory(us[k]) == i
  }

  lemma LaidOut(fence: Envelope, invs: seq<Inventory>, ts: seq<Envelope>, r: Keyring, now: int, us: seq<InventoryBody>)
    requires LegalChain(fence, invs, ts, r, now) && |us| == |ts|
    requires forall k | 0 <= k < |ts| :: UsedAt(fence, invs, ts, us[k], now, k)
    ensures Strand(fence, ts, us)
  {
    FenceIsValid(fence, invs, ts, r, now);
    forall k | 0 <= k < |ts|
      ensures LinkWith(fence, ts, us, k)
    {
      ReceiptAt(fence, invs, ts, r, now, k);
      UsedLink(fence, invs, ts, us, now, k);
    }
  }

  lemma NoneLeftOver(invs: seq<Inventory>, ts: seq<Envelope>, us: seq<InventoryBody>)
    requires AllReceipts(ts) && |us| == |ts| && InventoriesDistinct(invs)
    requires forall k | 0 <= k < |ts| :: BodyOf(ts[k]).inventoryDigest == OfInventory(us[k]) && AsInventory(us[k]) in invs
    requires forall n | 0 <= n < |invs| :: Uses(ts, invs[n].digest)
    ensures UsedExactly(invs, us)
  {
    forall i | i in invs
      ensures Among(us, i)
    {
      LeftOver(invs, ts, us, i);
    }
  }

  /** Any accepted chain can be laid out as such a strand. */
  lemma Unwind(fence: Envelope, invs: seq<Inventory>, ts: seq<Envelope>, r: Keyring, now: int) returns (us: seq<InventoryBody>)
    requires LegalChain(fence, invs, ts, r, now)
    ensures Strand(fence, ts, us) && UsedExactly(invs, us)
  {
    us := UsedInventories(fence, invs, ts, r, now, |ts|);
    LaidOut(fence, invs, ts, r, now, us);
    NoneLeftOver(invs, ts, us);
  }

  lemma LeftOver(invs: seq<Inventory>, ts: seq<Envelope>, us: seq<InventoryBody>, i: Inventory)
    requires AllReceipts(ts) && |us| == |ts| && i in invs && InventoriesDistinct(invs)
    requires forall k | 0 <= k < |ts| :: BodyOf(ts[k]).inventoryDigest == OfInventory(us[k]) && AsInventory(us[k]) in invs
    requires forall n | 0 <= n < |invs| :: Uses(ts, invs[n].digest)
    ensures Among(us, i)
  {
    var n :| 0 <= n < |invs| && invs[n] == i;
    assert Uses(ts, invs[n].digest);
    var k :| 0 <= k < |ts| && BodyOf(ts[k]).inventoryDigest == i.digest;
    var m :| 0 <= m < |invs| && invs[m] == AsInventory(us[k]);
    assert invs[m].digest == invs[n].digest;
  }

  // ---------- the language ----------

  function KindsOf(ts: seq<Envelope>): seq<Kind> {
    seq(|ts|, k requires 0 <= k < |ts| => ts[k].kind)
  }

  /** The two words of the language, with the state each ends in. */
  predicate Word(kinds: seq<Kind>, final: State) {
    || (kinds == [CUTOVER, UNFREEZE] && final == TARGET_ACTIVE)
    || (kinds == [CUTOVER, ROLLBACK, UNFREEZE] && final == SOURCE_ACTIVE)
  }

  lemma StrandLanguage(fence: Envelope, ts: seq<Envelope>, us: seq<InventoryBody>)
    requires Strand(fence, ts, us) && 2 <= |ts| <= 3 && ts[|ts| - 1].kind == UNFREEZE
    ensures Word(KindsOf(ts), StateAt(ts, |ts|))
    ensures forall k | 0 <= k < |ts| :: BodyOf(ts[k]).writesFenced <==> k < |ts| - 1
  {
    assert LinkWith(fence, ts, us, 0) && LinkWith(fence, ts, us, 1);
    if |ts| == 3 {
      assert LinkWith(fence, ts, us, 2);
      assert KindsOf(ts) == [ts[0].kind, ts[1].kind, ts[2].kind];
    } else {
      assert KindsOf(ts) == [ts[0].kind, ts[1].kind];
    }
  }

  /** An accepted chain is one of the two words; writes stay fenced until its last receipt. */
  lemma ChainLanguage(fence: Envelope, invs: seq<Inventory>, ts: seq<Envelope>, r: Keyring, now: int)
    requires LegalChain(fence, invs, ts, r, now)
    ensures Word(KindsOf(ts), StateAt(ts, |ts|))
    ensures forall k | 0 <= k < |ts| :: BodyOf(ts[k]).writesFenced <==> k < |ts| - 1
  {
    var us := Unwind(fence, invs, ts, r, now);
    StrandLanguage(fence, ts, us);
  }

  lemma StrandIsBound(fence: Envelope, ts: seq<Envelope>, us: seq<InventoryBody>)
    requires Strand(fence, ts, us)
    ensures forall k | 0 <= k < |ts| :: BodyOf(ts[k]).previous == if k == 0 then ZERO else OfReceipt(BodyOf(ts[k - 1]))
    ensures forall k | 0 <= k < |ts| :: BodyOf(ts[k]).fenceDigest == OfFence(fence.document.fence.body)
  {
    forall k | 0 <= k < |ts|
      ensures BodyOf(ts[k]).previous == if k == 0 then ZERO else OfReceipt(BodyOf(ts[k - 1]))
      ensures BodyOf(ts[k]).fenceDigest == OfFence(fence.document.fence.body)
    {
      assert LinkWith(fence, ts, us, k);
      assert k > 0 ==> LinkWith(fence, ts, us, k - 1);
    }
  }

  /** Each receipt names its predecessor and the fence, and bears its kind's role; all signers, the
      fence's included, are distinct. */
  lemma ChainIsBound(fence: Envelope, invs: seq<Inventory>, ts: seq<Envelope>, r: Keyring, now: int)
    requires LegalChain(fence, invs, ts, r, now)
    ensures forall k | 0 <= k < |ts| :: BodyOf(ts[k]).previous == if k == 0 then ZERO else OfReceipt(BodyOf(ts[k - 1]))
    ensures forall k | 0 <= k < |ts| :: BodyOf(ts[k]).fenceDigest == OfFence(fence.document.fence.body)
    ensures |SignersOf(fence, ts)| == |ts| + 1
    ensures forall k | 0 <= k < |ts| :: ts[k].role == RoleOf(ts[k].kind)
  {
    var us := Unwind(fence, invs, ts, r, now);
    StrandIsBound(fence, ts, us);
    forall k | 0 <= k < |ts|
      ensures ts[k].role == RoleOf(ts[k].kind)
    {
      ReceiptAt(fence, invs, ts, r, now, k);
    }
    SignerCount(ts);
    assert fence.signerId !in set k | 0 <= k < |ts| :: ts[k].signerId;
  }

  lemma {:induction false} SignerCount(ts: seq<Envelope>)
    requires forall j, k | 0 <= j < k < |ts| :: ts[j].signerId != ts[k].signerId
    ensures |set k | 0 <= k < |ts| :: ts[k].signerId| == |ts|
  {
    if ts != [] {
      var front := ts[..|ts| - 1];
      SignerCount(front);
      assert forall k | 0 <= k < |front| :: front[k] == ts[k];
      assert (set k | 0 <= k < |ts| :: ts[k].signerId)
        == (set k | 0 <= k < |front| :: front[k].signerId) + {ts[|ts| - 1].signerId};
    }
  }

  // ---------- the timeline ----------

  /** For each receipt in turn: inventory observed, receipt observed, receipt signed, each strictly
      after the previous signature, the first of which is the fence's. */
  lemma {:induction false} Timeline(fence: Envelope, ts: seq<Envelope>, us: seq<InventoryBody>, k: nat)
    requires Strand(fence, ts, us) && k < |ts|
    ensures fence.document.fence.body.measuredAt <= fence.signedAt <= LastAt(fence, ts, k)
    ensures LastAt(fence, ts, k) < us[k].observedAt <= BodyOf(ts[k]).observedAt <= ts[k].signedAt
    decreases k
  {
    assert LinkWith(fence, ts, us, k);
    if k > 0 {
      Timeline(fence, ts, us, k - 1);
    }
  }

  lemma {:induction false} InOrder(fence: Envelope, ts: seq<Envelope>, us: seq<InventoryBody>, j: nat, k: nat)
    requires Strand(fence, ts, us) && j < k < |ts|
    ensures ts[j].signedAt < us[k].observedAt && us[j].observedAt < us[k].observedAt
    decreases k
  {
    Timeline(fence, ts, us, j);
    Timeline(fence, ts, us, k);
    if j < k - 1 {
      InOrder(fence, ts, us, j, k - 1);
      Timeline(fence, ts, us, k - 1);
    }
  }

  /** In the strand, every event of the timeline comes strictly after the previous signature. */
  predicate Ordered(fence: Envelope, ts: seq<Envelope>, us: seq<InventoryBody>, k: nat)
    requires k < |ts| == |us| && AllReceipts(ts)
  {
    LastAt(fence, ts, k) < us[k].observedAt <= BodyOf(ts[k]).observedAt <= ts[k].signedAt
  }

  lemma StrandTimeline(fence: Envelope, ts: seq<Envelope>, us: seq<InventoryBody>)
    requires Strand(fence, ts, us)
    ensures forall k | 0 <= k < |ts| :: Ordered(fence, ts, us, k) && BodyOf(ts[k]).inventoryDigest == OfInventory(us[k])
    ensures forall j, k | 0 <= j < k < |ts| :: us[j] != us[k]
    ensures ts != [] ==> fence.signedAt < ts[|ts| - 1].signedAt
  {
    forall k | 0 <= k < |ts|
      ensures Ordered(fence, ts, us, k) && BodyOf(ts[k]).inventoryDigest == OfInventory(us[k])
      ensures fence.signedAt < ts[k].signedAt
    {
      Timeline(fence, ts, us, k);
      assert LinkWith(fence, ts, us, k);
    }
    forall j, k | 0 <= j < k < |ts|
      ensures us[j] != us[k]
    {
      InOrder(fence, ts, us, j, k);
    }
  }

  /** The timeline of an accepted chain: fence measured, fence signed, then for each receipt in turn its
      inventory observed, the receipt observed, and signed.  The inventories are exactly those given,
      each used once, and the whole chain spans less than 15 minutes and 30 seconds. */
  lemma ChainTimeline(fence: Envelope, invs: seq<Inventory>, ts: seq<Envelope>, r: Keyring, now: int) returns (us: seq<InventoryBody>)
    requires LegalChain(fence, invs, ts, r, now)
    ensures fence.document.fence.body.measuredAt <= fence.signedAt
    ensures |us| == |ts| && forall k | 0 <= k < |ts| :: Ordered(fence, ts, us, k) && BodyOf(ts[k]).inventoryDigest == OfInventory(us[k])
    ensures UsedExactly(invs, us) && |invs| == |us| && forall j, k | 0 <= j < k < |us| :: us[j] != us[k]
    ensures 0 < ts[|ts| - 1].signedAt - fence.document.fence.body.measuredAt < 15 * MINUTE + 30 * SECOND
  {
    us := Unwind(fence, invs, ts, r, now);
    StrandTimeline(fence, ts, us);
    SameSize(invs, us);
    ChainSpan(fence, invs, ts, r, now, us);
  }

  lemma ChainSpan(fence: Envelope, invs: seq<Inventory>, ts: seq<Envelope>, r: Keyring, now: int, us: seq<InventoryBody>)
    requires LegalChain(fence, invs, ts, r, now) && Strand(fence, ts, us)
    ensures 0 < ts[|ts| - 1].signedAt - fence.document.fence.body.measuredAt < 15 * MINUTE + 30 * SECOND
  {
    StrandTimeline(fence, ts, us);
    ReceiptAt(fence, invs, ts, r, now, |ts| - 1);
    FenceIsValid(fence, invs, ts, r, now);
    FenceIsFresh(fence.document.fence, now);
  }

  lemma FenceIsFresh(f: Fence, now: int)
    requires ValidFence(f, now)
    ensures now - 15 * MINUTE < f.body.measuredAt
  {
  }

  lemma SameSize(invs: seq<Inventory>, us: seq<InventoryBody>)
    requires InventoriesDistinct(invs)
    requires forall j, k | 0 <= j < k < |us| :: us[j] != us[k]
    requires UsedExactly(invs, us)
    ensures |invs| == |us|
  {
    var used := seq(|us|, k requires 0 <= k < |us| => AsInventory(us[k]));
    Once(invs);
    Once(used);
    assert forall k | 0 <= k < |us| :: used[k] == AsInventory(us[k]);
    forall i
      ensures multiset(invs)[i] == multiset(used)[i]
    {
      assert i in used <==> Among(us, i);
    }
    assert multiset(invs) == multiset(used);
    assert |multiset(invs)| == |invs| && |multiset(used)| == |used|;
  }

  lemma {:induction false} Once(invs: seq<Inventory>)
    requires forall m, n | 0 <= m < n < |invs| :: invs[m] != invs[n]
    ensures forall i :: multiset(invs)[i] == if i in invs then 1 else 0
  {
    if invs != [] {
      var front, last := invs[..|invs| - 1], invs[|invs| - 1];
      Once(front);
      assert invs == front + [last];
      assert last !in front;
    }
  }

  // ---------- what the final digest commits to ----------

  /** Going back from equal receipts, everything before them is equal. */
  lemma {:induction false} SamePast(f1: Envelope, t1: seq<Envelope>, u1: seq<InventoryBody>,
                                    f2: Envelope, t2: seq<Envelope>, u2: seq<InventoryBody>, k: nat)
    requires Strand(f1, t1, u1) && Strand(f2, t2, u2)
    requires k < |t1| && k < |t2| && BodyOf(t1[k]) == BodyOf(t2[k])
    ensures forall j | 0 <= j <= k :: t1[j].document == t2[j].document && u1[j] == u2[j]
    ensures f1.document == f2.document
    decreases k
  {
    assert LinkWith(f1, t1, u1, k) && LinkWith(f2, t2, u2, k);
    if k > 0 {
      StrandIsBound(f1, t1, u1);
      StrandIsBound(f2, t2, u2);
      assert OfReceipt(BodyOf(t1[k - 1])) == OfReceipt(BodyOf(t2[k - 1]));
      SamePast(f1, t1, u1, f2, t2, u2, k - 1);
    }
  }

  lemma SameEnd(f1: Envelope, t1: seq<Envelope>, u1: seq<InventoryBody>, f2: Envelope, t2: seq<Envelope>, u2: seq<InventoryBody>)
    requires Strand(f1, t1, u1) && Strand(f2, t2, u2) && t1 != [] && t2 != []
    requires PreviousAt(t1, |t1|) == PreviousAt(t2, |t2|)
    ensures |t1| == |t2| && BodyOf(t1[|t1| - 1]) == BodyOf(t2[|t2| - 1])
  {
    assert LinkWith(f1, t1, u1, |t1| - 1) && LinkWith(f2, t2, u2, |t2| - 1);
  }

  lemma StrandsCommit(f1: Envelope, t1: seq<Envelope>, u1: seq<InventoryBody>, f2: Envelope, t2: seq<Envelope>, u2: seq<InventoryBody>)
    requires Strand(f1, t1, u1) && Strand(f2, t2, u2) && t1 != [] && t2 != []
    requires PreviousAt(t1, |t1|) == PreviousAt(t2, |t2|)
    ensures f1.document == f2.document && u1 == u2
    ensures |t1| == |t2| && forall k | 0 <= k < |t1| :: t1[k].document == t2[k].document
  {
    SameEnd(f1, t1, u1, f2, t2, u2);
    SamePast(f1, t1, u1, f2, t2, u2, |t1| - 1);
  }

  lemma SameInventories(i1: seq<Inventory>, i2: seq<Inventory>, us: seq<InventoryBody>)
    requires UsedExactly(i1, us) && UsedExactly(i2, us)
    ensures forall i :: i in i1 <==> i in i2
  {
    forall i
      ensures i in i1 <==> Among(us, i)
      ensures i in i2 <==> Among(us, i)
    {
    }
  }

  /** Two accepted chains with the same final digest, whoever verified them and when, have the same
      fence, the same receipts and the same inventories. */
  lemma FinalDigestCommits(
      f1: Envelope, i1: seq<Inventory>, t1: seq<Envelope>, r1: Keyring, n1: int,
      f2: Envelope, i2: seq<Inventory>, t2: seq<Envelope>, r2: Keyring, n2: int)
    requires LegalChain(f1, i1, t1, r1, n1) && LegalChain(f2, i2, t2, r2, n2)
    requires PreviousAt(t1, |t1|) == PreviousAt(t2, |t2|)
    ensures f1.document == f2.document
    ensures |t1| == |t2| && forall k | 0 <= k < |t1| :: t1[k].document == t2[k].document
    ensures forall i :: i in i1 <==> i in i2
  {
    var u1 := Unwind(f1, i1, t1, r1, n1);
    var u2 := Unwind(f2, i2, t2, r2, n2);
    StrandsCommit(f1, t1, u1, f2, t2, u2);
    SameInventories(i1, i2, u1);
  }

  // ---------- what runs in the end ----------

  function ActiveRelease(f: FenceBody, final: State): string {
    if final == TARGET_ACTIVE then f.target else f.source
  }

  /** A workload runs in a revision, in at least one replica, all of them ready and available. */
  predicate Serves(w: Workload, name: string, revision: string, release: string) {
    && w.name == name && w.revision == revision && w.release == release
    && w.desired >= 1 && w.ready == w.desired && w.available == w.desired
  }

  predicate Served(b: InventoryBody, name: string, release: string) {
    exists j :: 0 <= j < |b.workloads| && Serves(b.workloads[j], name, b.trafficRevision, release)
  }

  /** Every workload of the inventory serves the release in the revision that has the traffic. */
  predicate FullyReady(b: InventoryBody, release: string) {
    forall i | 0 <= i < |b.workloads| :: Served(b, b.workloads[i].name, release)
  }

  lemma TrafficIsReady(b: InventoryBody, release: string)
    requires ValidWorkloads(b) && b.sourceRevision != b.targetRevision
    requires b.trafficRevision in {b.sourceRevision, b.targetRevision} && ExpectedRelease(b, b.trafficRevision) == Some(release)
    ensures FullyReady(b, release)
  {
    forall i | 0 <= i < |b.workloads|
      ensures Served(b, b.workloads[i].name, release)
    {
      assert Deployed(b, b.workloads[i].name, b.sourceRevision) && Deployed(b, b.workloads[i].name, b.targetRevision);
      assert Deployed(b, b.workloads[i].name, b.trafficRevision);
      var j :| 0 <= j < |b.workloads| && b.workloads[j].name == b.workloads[i].name && b.workloads[j].revision == b.trafficRevision;
      assert ValidWorkload(b, b.workloads[j]);
      assert Serves(b.workloads[j], b.workloads[i].name, b.trafficRevision, release);
    }
  }

  /** All traffic is on the release, and every workload of it is fully ready. */
  predicate Runs(b: InventoryBody, release: string) {
    && (forall n | 0 <= n < |b.bindings| :: b.bindings[n].revision == b.trafficRevision)
    && ExpectedRelease(b, b.trafficRevision) == Some(release)
    && FullyReady(b, release)
  }

  /** A receipt that ends a chain is about the release that its state calls active. */
  lemma LastReceiptFits(e: Envelope, i: Inventory, f: Fence, sequence: int, previous: Digest, state: State, last: int, now: int)
    requires IsReceipt(e) && BodyOf(e).kind == UNFREEZE && ValidInventory(i, now)
    requires Linked(f, e, i.body, sequence, previous, state, last)
    ensures Runs(i.body, ActiveRelease(f.body, BodyOf(e).to))
  {
    TrafficIsReady(i.body, ActiveRelease(f.body, BodyOf(e).to));
  }

  lemma LastIsUnfreeze(fence: Envelope, invs: seq<Inventory>, ts: seq<Envelope>, r: Keyring, now: int)
    requires LegalChain(fence, invs, ts, r, now)
    ensures BodyOf(ts[|ts| - 1]).kind == UNFREEZE
  {
    ReceiptAt(fence, invs, ts, r, now, |ts| - 1);
  }

  /** When a chain is accepted, the inventory of its last receipt shows all traffic on the active
      release and every workload of that release fully ready. */
  lemma FinalInventoryIsReady(fence: Envelope, invs: seq<Inventory>, ts: seq<Envelope>, r: Keyring, now: int) returns (i: Inventory)
    requires LegalChain(fence, invs, ts, r, now)
    ensures i in invs && i.digest == BodyOf(ts[|ts| - 1]).inventoryDigest
    ensures Runs(i.body, ActiveRelease(fence.document.fence.body, StateAt(ts, |ts|)))
  {
    var k := |ts| - 1;
    i := InventoryAt(fence, invs, ts, r, now, k);
    LastIsUnfreeze(fence, invs, ts, r, now);
    LastReceiptFits(ts[k], i, fence.document.fence, k + 1, PreviousAt(ts, k), StateAt(ts, k), LastAt(fence, ts, k), now);
  }
}
