/**
 What the acceptance of a cutover document means, told field by field: whose key signed it and over
 which payload, what a writer fence, a receipt and an inventory must say, and that every document
 of an accepted chain is for the same releases and signed in this way.
 */
module CutoverAuthority {
  import opened Common
  import opened Cutover
  import opened CutoverChain
  import opened CutoverLaws
  import Broker = CutoverBroker

  // ---------- signatures ----------

  /** The four kinds and who may sign them. */
  predicate MaySign(kind: Kind, role: Role) {
    || (kind, role) == (WRITER_FENCE, SRE_RELEASE_FENCE)
    || (kind, role) == (CUTOVER, RELEASE_CUTOVER_AUTHORITY)
    || (kind, role) == (ROLLBACK, DISASTER_RECOVERY_OWNER)
    || (kind, role) == (UNFREEZE, SRE_RELEASE_UNFREEZE)
  }

  /** The key is the envelope's, may sign its kind, was in force when it signed, and did sign it. */
  predicate SignedBy(e: Envelope, key: Key, now: int) {
    && key.keyId == e.keyId && key.signerId == e.signerId && key.organization == e.organization
    && e.role in key.roles && MaySign(e.kind, e.role)
    && key.active && key.revokedAt == None && key.notBefore <= e.signedAt && now < key.notAfter
    && e.signature == SignedWith(key.publicKey, Payload(e.kind, e.keyId, e.document))
  }

  /** An envelope is accepted exactly when its document and the keyring are valid, it is about that
      document, it was signed while the document was current, and a key of the keyring signed it. */
  lemma AcceptedIff(e: Envelope, r: Keyring, now: int)
    ensures Verified(e, r, now) <==>
      && ValidDocument(e.kind, e.document, now) && ValidKeyring(r, now)
      && e.documentDigest == e.document && e.request == Payload(e.kind, e.keyId, e.document)
      && e.usage == "PRODUCTION_DEPLOYMENT_CUTOVER" && e.algorithm == "Ed25519"
      && ObservedAt(e.document) <= e.signedAt <= ValidUntil(e.document) && e.signedAt <= now + 30_000_000
      && exists i :: 0 <= i < |r.keys| && SignedBy(e, r.keys[i], now)
  {
    if Verified(e, r, now) {
      var i :| 0 <= i < |r.keys| && r.keys[i].keyId == e.keyId && SignedUnder(e, r.keys[i], now);
      assert SignedBy(e, r.keys[i], now);
    }
  }

  /** What an accepted envelope is signed with. */
  lemma AcceptedIsSigned(e: Envelope, r: Keyring, now: int) returns (i: nat)
    requires Verified(e, r, now)
    ensures i < |r.keys|
    ensures var key := r.keys[i];
      && key.keyId == e.keyId && key.signerId == e.signerId && e.role in key.roles
      && key.active && key.revokedAt == None && key.notBefore <= e.signedAt && now < key.notAfter
      && e.signature == SignedWith(key.publicKey, Payload(e.kind, e.keyId, e.document))
    ensures e.kind == WRITER_FENCE ==> e.role == SRE_RELEASE_FENCE
    ensures e.kind == CUTOVER ==> e.role == RELEASE_CUTOVER_AUTHORITY
    ensures e.kind == ROLLBACK ==> e.role == DISASTER_RECOVERY_OWNER
    ensures e.kind == UNFREEZE ==> e.role == SRE_RELEASE_UNFREEZE
  {
    i :| 0 <= i < |r.keys| && r.keys[i].keyId == e.keyId && SignedUnder(e, r.keys[i], now);
  }

  /** The signature of an accepted envelope cannot be exchanged for another, ... */
  lemma AlteredIsRefused(e: Envelope, s: Signature, r: Keyring, now: int)
    requires Verified(e, r, now) && s != e.signature
    ensures !Verified(e.(signature := s), r, now)
  {
    var i := AcceptedIsSigned(e, r, now);
    var altered := e.(signature := s);
    if Verified(altered, r, now) {
      var j := AcceptedIsSigned(altered, r, now);
    }
  }

  /** ... and it belongs to nothing else: envelopes with one signature have the same kind, key and document. */
  lemma SignatureBinds(e: Envelope, f: Envelope, r: Keyring, now: int)
    requires Verified(e, r, now) && Verified(f, r, now) && e.signature == f.signature
    ensures e.kind == f.kind && e.keyId == f.keyId && e.document == f.document && e.signerId == f.signerId && e.role == f.role
  {
    var i := AcceptedIsSigned(e, r, now);
    var j := AcceptedIsSigned(f, r, now);
    assert i == j;
  }

  // ---------- documents ----------

  /** A writer fence is valid exactly when it was measured half a minute ahead at most, is still valid, and for
      a quarter of an hour at most; writes are blocked and nothing is in flight; and the backup is at most a
      day older. */
  lemma FenceIff(f: Fence, now: int)
    ensures var b := f.body;
      ValidFence(f, now) <==>
        && b.source != b.target && f.digest == OfFence(b)
        && b.measuredAt <= now + 30_000_000 && b.measuredAt < b.validUntil && now < b.validUntil <= b.measuredAt + 900_000_000
        && b.fenceApplied && b.writesBlocked && b.drainComplete
        && b.inflightActions == 0 && b.pendingOutbox == 0 && b.activeLeases == 0
        && b.backupVerifiedAt <= b.measuredAt <= b.backupVerifiedAt + 86_400_000_000
        && b.evidence.Keys == {"backup_readback", "database_checkpoint", "inflight_query", "lease_query", "outbox_query", "write_fence"}
  {
  }

  /** A receipt is valid exactly when it is current, is one of the four transitions there are, each with its
      sequence number and what it leaves of the write fence, and bears the evidence of its kind. */
  lemma ReceiptIff(t: Receipt, now: int)
    ensures var b := t.body;
      ValidReceipt(t, now) <==>
        && b.source != b.target && t.digest == OfReceipt(b)
        && b.observedAt <= now + 30_000_000 && b.observedAt < b.validUntil && now < b.validUntil <= b.observedAt + 900_000_000
        && (b.kind, b.sequence, b.from, b.to, b.writesFenced) in
             {(CUTOVER, 1, DRAINED, CUTOVER_COMMITTED, true), (ROLLBACK, 2, CUTOVER_COMMITTED, ROLLBACK_COMMITTED, true),
              (UNFREEZE, 2, CUTOVER_COMMITTED, TARGET_ACTIVE, false), (UNFREEZE, 3, ROLLBACK_COMMITTED, SOURCE_ACTIVE, false)}
        && (b.previous == ZERO <==> b.kind == CUTOVER)
        && (b.kind == CUTOVER ==> b.evidence.Keys == {"cutover_operation", "health_observation", "traffic_observation"})
        && (b.kind == ROLLBACK ==> b.evidence.Keys == {"health_observation", "rollback_operation", "traffic_observation"})
        && (b.kind == UNFREEZE ==> b.evidence.Keys == {"control_plane_observation", "traffic_observation", "write_unfreeze"})
  {
  }

  /** An inventory is valid exactly when its services all route to one revision and each of its workloads
      stands once in both. */
  lemma InventoryIff(i: Inventory, now: int)
    ensures var b := i.body;
      ValidInventory(i, now) <==>
        && b.source != b.target && b.sourceRevision != b.targetRevision
        && i.digest == OfInventory(b)
        && b.observedAt <= now + 30_000_000 && b.observedAt < b.validUntil && now < b.validUntil <= b.observedAt + 900_000_000
        && (b.trafficRevision == b.sourceRevision || b.trafficRevision == b.targetRevision)
        && 1 <= |b.bindings| <= 1000 && 2 <= |b.workloads| <= 4000
        && (forall m | 0 <= m < |b.bindings| :: b.bindings[m].revision == b.trafficRevision)
        && (forall m, n | 0 <= m < n < |b.bindings| :: b.bindings[m].service != b.bindings[n].service)
        && (forall m | 0 <= m < |b.workloads| ::
              var w := b.workloads[m];
              && ((w.revision == b.sourceRevision && w.release == b.source) || (w.revision == b.targetRevision && w.release == b.target))
              && w.ready == w.desired && w.available == w.desired && w.desired >= 0
              && (w.desired == 0 ==> w.revision != b.targetRevision && w.revision != b.trafficRevision))
        && (forall m, n | 0 <= m < n < |b.workloads| ::
              (b.workloads[m].name, b.workloads[m].revision) != (b.workloads[n].name, b.workloads[n].revision))
        && (forall m | 0 <= m < |b.workloads| :: Twice(b, b.workloads[m].name))
  {
    var b := i.body;
    assert forall name :: Twice(b, name) <==> Deployed(b, name, b.sourceRevision) && Deployed(b, name, b.targetRevision);
  }

  /** The workload runs in the source revision and in the target revision. */
  predicate Twice(b: InventoryBody, name: string) {
    && (exists m :: 0 <= m < |b.workloads| && b.workloads[m].name == name && b.workloads[m].revision == b.sourceRevision)
    && (exists m :: 0 <= m < |b.workloads| && b.workloads[m].name == name && b.workloads[m].revision == b.targetRevision)
  }

  /** A keyring is valid exactly when it is current, no id and no signer stands twice, every key is usable
      and each of the four roles is held. */
  lemma KeyringIff(r: Keyring, now: int)
    ensures ValidKeyring(r, now) <==>
      && r.version >= 1 && r.issuedAt <= now < r.expiresAt <= r.issuedAt + 31_622_400_000_000
      && 4 <= |r.keys| <= 1000
      && (forall m | 0 <= m < |r.keys| ::
            var k := r.keys[m];
            && 1 <= |k.organization| <= 256 && 1 <= |k.roles| <= 4
            && (forall i, j | 0 <= i < j < |k.roles| :: k.roles[i] != k.roles[j])
            && k.usage == "PRODUCTION_DEPLOYMENT_CUTOVER" && k.algorithm == "Ed25519"
            && (k.active <==> k.revokedAt == None) && k.notBefore < k.notAfter && now < k.notAfter)
      && (forall m, n | 0 <= m < n < |r.keys| :: r.keys[m].keyId != r.keys[n].keyId && r.keys[m].signerId != r.keys[n].signerId)
      && Held(r.keys, SRE_RELEASE_FENCE) && Held(r.keys, RELEASE_CUTOVER_AUTHORITY)
      && Held(r.keys, DISASTER_RECOVERY_OWNER) && Held(r.keys, SRE_RELEASE_UNFREEZE)
  {
    assert SRE_RELEASE_FENCE in ROLES && RELEASE_CUTOVER_AUTHORITY in ROLES && DISASTER_RECOVERY_OWNER in ROLES && SRE_RELEASE_UNFREEZE in ROLES;
  }

  // ---------- chains ----------

  /** Every document of an accepted chain is signed by the key it names, under the role of its kind. */
  lemma ChainIsSigned(fence: Envelope, invs: seq<Inventory>, ts: seq<Envelope>, r: Keyring, now: int)
    requires LegalChain(fence, invs, ts, r, now)
    ensures fence.kind == WRITER_FENCE && exists i :: 0 <= i < |r.keys| && SignedBy(fence, r.keys[i], now)
    ensures forall k | 0 <= k < |ts| :: ts[k].kind != WRITER_FENCE && exists i :: 0 <= i < |r.keys| && SignedBy(ts[k], r.keys[i], now)
  {
    AcceptedIff(fence, r, now);
    forall k | 0 <= k < |ts|
      ensures ts[k].kind != WRITER_FENCE && exists i :: 0 <= i < |r.keys| && SignedBy(ts[k], r.keys[i], now)
    {
      assert Verified(ts[k], r, now);
      AcceptedIff(ts[k], r, now);
    }
  }

  /** Nobody signs twice in an accepted chain, and no transition and no inventory occurs twice. */
  lemma NothingTwice(fence: Envelope, invs: seq<Inventory>, ts: seq<Envelope>, r: Keyring, now: int)
    requires LegalChain(fence, invs, ts, r, now)
    ensures forall j, k | 0 <= j < k < |ts| ::
      ts[j].signerId != ts[k].signerId && ts[j].document.receipt.body.transitionId != ts[k].document.receipt.body.transitionId
    ensures forall k | 0 <= k < |ts| :: ts[k].signerId != fence.signerId
    ensures forall m, n | 0 <= m < n < |invs| :: invs[m].body != invs[n].body && invs[m].body.inventoryId != invs[n].body.inventoryId
  {
  }

  /** Every receipt of an accepted chain is for the releases and the environment of the fence, and so is
      the inventory it names; traffic is on the target revision, except after a rollback. */
  lemma ChainIsInScope(fence: Envelope, invs: seq<Inventory>, ts: seq<Envelope>, r: Keyring, now: int, k: nat) returns (i: Inventory)
    requires LegalChain(fence, invs, ts, r, now) && k < |ts|
    ensures i in invs && BodyOf(ts[k]).inventoryDigest == i.digest == OfInventory(i.body)
    ensures var f := fence.document.fence.body; var t := BodyOf(ts[k]);
      && t.source == i.body.source == f.source && t.target == i.body.target == f.target
      && t.environment == i.body.environment == f.environment
      && t.trafficRevision == i.body.trafficRevision
      && (t.to in {CUTOVER_COMMITTED, TARGET_ACTIVE} ==> t.trafficRevision == i.body.targetRevision)
      && (t.to in {ROLLBACK_COMMITTED, SOURCE_ACTIVE} ==> t.trafficRevision == i.body.sourceRevision)
  {
    i := InventoryAt(fence, invs, ts, r, now, k);
    ReceiptAt(fence, invs, ts, r, now, k);
  }

  /** A response that is accepted answers this very request with an accepted envelope of its operation,
      in the request's scope, completed after it and within a quarter of an hour. */
  lemma AcceptedResponse(p: Broker.Response, q: Broker.Request, r: Keyring, now: int)
    requires Broker.ValidResponse(p, q, r, now)
    ensures var m := q.material;
      && q.requestId == m && q.idempotencyKey == m && m.source != m.target
      && (m.previous == ZERO <==> m.operation == WRITER_FENCE || m.operation == CUTOVER)
      && (m.fenceDigest == ZERO <==> m.operation == WRITER_FENCE)
      && p.request == q && p.requestId == m && p.operation == p.signed.kind == m.operation && Verified(p.signed, r, now)
      && (p.source, p.target, p.environment) == (m.source, m.target, m.environment)
      && p.previous == m.previous && p.fenceDigest == m.fenceDigest
      && now - 900_000_000 <= m.requestedAt <= p.completedAt <= now + 30_000_000
      && (p.inventory == None <==> m.operation == WRITER_FENCE)
  {
  }
}
