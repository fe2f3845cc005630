/**
 The documents of a blue/green cutover and the checks on each of them: the writer fence, the
 inventory of both revisions, the transition receipts, the keyring and the signed envelopes.
 Times are microseconds.  SHA-256 is symbolic: a digest is the value it was taken of, and the
 all-zero digest is the digest of nothing.  A signature is symbolic too: it verifies exactly under
 the public key and for the payload it was made with.
 */
module Cutover {
  import opened Common

  const SECOND: int := 1_000_000
  const MINUTE: int := 60 * SECOND
  const HOUR: int := 60 * MINUTE
  const DAY: int := 24 * HOUR

  datatype Kind = WRITER_FENCE | CUTOVER | ROLLBACK | UNFREEZE

  datatype State = DRAINED | CUTOVER_COMMITTED | ROLLBACK_COMMITTED | TARGET_ACTIVE | SOURCE_ACTIVE

  datatype Digest =
    | ZERO
    | OfFence(fence: FenceBody)
    | OfInventory(inventory: InventoryBody)
    | OfReceipt(receipt: ReceiptBody)
    | OtherDigest(text: string)

  /** `recovery` stands for the database recovery fields other than the time of the backup. */
  datatype FenceBody = FenceBody(
    fenceId: string,
    source: string,
    target: string,
    environment: string,
    fenceApplied: bool,
    writesBlocked: bool,
    drainComplete: bool,
    inflightActions: int,
    pendingOutbox: int,
    activeLeases: int,
    backupVerifiedAt: int,
    recovery: string,
    evidence: map<string, string>,
    measuredAt: int,
    validUntil: int)

  datatype TrafficBinding = TrafficBinding(service: string, revision: string)

  datatype Workload = Workload(
    name: string,
    revision: string,
    release: string,
    image: string,
    desired: int,
    ready: int,
    available: int)

  datatype InventoryBody = InventoryBody(
    inventoryId: string,
    source: string,
    target: string,
    sourceRevision: string,
    targetRevision: string,
    environment: string,
    trafficRevision: string,
    bindings: seq<TrafficBinding>,
    workloads: seq<Workload>,
    observedAt: int,
    validUntil: int)

  datatype ReceiptBody = ReceiptBody(
    transitionId: string,
    kind: Kind,
    source: string,
    target: string,
    environment: string,
    sequence: int,
    previous: Digest,
    fenceDigest: Digest,
    inventoryDigest: Digest,
    trafficRevision: string,
    writesFenced: bool,
    from: State,
    to: State,
    evidence: map<string, string>,
    observedAt: int,
    validUntil: int)

  /** A document with the digest it claims. */
  datatype Fence = Fence(body: FenceBody, digest: Digest)
  datatype Inventory = Inventory(body: InventoryBody, digest: Digest)
  datatype Receipt = Receipt(body: ReceiptBody, digest: Digest)

  datatype Document = FenceDocument(fence: Fence) | ReceiptDocument(receipt: Receipt)

  // ---------- the writer fence ----------

  const FENCE_EVIDENCE: set<string> :=
    {"backup_readback", "database_checkpoint", "inflight_query", "lease_query", "outbox_query", "write_fence"}

  /** Observed no more than 30 seconds ahead, not yet expired, and valid for 15 minutes at most. */
  predicate Timely(observed: int, validUntil: int, now: int) {
    && observed <= now + 30 * SECOND
    && validUntil > now
    && validUntil > observed
    && validUntil - observed <= 15 * MINUTE
  }

  predicate ValidFence(f: Fence, now: int) {
    var b := f.body;
    && b.source != b.target
    && b.fenceApplied && b.writesBlocked && b.drainComplete
    && b.inflightActions == 0 && b.pendingOutbox == 0 && b.activeLeases == 0
    && Timely(b.measuredAt, b.validUntil, now)
    && 0 <= b.measuredAt - b.backupVerifiedAt <= DAY
    && b.evidence.Keys == FENCE_EVIDENCE
    && f.digest == OfFence(b)
  }

  // ---------- transition receipts ----------

  function ReceiptEvidence(kind: Kind): set<string> {
    match kind
    case CUTOVER => {"cutover_operation", "health_observation", "traffic_observation"}
    case ROLLBACK => {"health_observation", "rollback_operation", "traffic_observation"}
    case UNFREEZE => {"control_plane_observation", "traffic_observation", "write_unfreeze"}
    case WRITER_FENCE => {}
  }

  predicate SequenceAllowed(kind: Kind, sequence: int) {
    match kind
    case CUTOVER => sequence == 1
    case ROLLBACK => sequence == 2
    case UNFREEZE => sequence in {2, 3}
    case WRITER_FENCE => false
  }

  function UnfreezePair(from: State): Option<(State, int)> {
    match from
    case CUTOVER_COMMITTED => Some((TARGET_ACTIVE, 2))
    case ROLLBACK_COMMITTED => Some((SOURCE_ACTIVE, 3))
    case _ => None
  }

  predicate StatesAllowed(kind: Kind, from: State, to: State, sequence: int) {
    match kind
    case CUTOVER => from == DRAINED && to == CUTOVER_COMMITTED
    case ROLLBACK => from == CUTOVER_COMMITTED && to == ROLLBACK_COMMITTED
    case UNFREEZE => UnfreezePair(from) == Some((to, sequence))
    case WRITER_FENCE => false
  }

  predicate ValidReceipt(r: Receipt, now: int) {
    var b := r.body;
    && b.kind != WRITER_FENCE
    && b.source != b.target
    && 1 <= b.sequence <= 3
    && Timely(b.observedAt, b.validUntil, now)
    && SequenceAllowed(b.kind, b.sequence)
    && StatesAllowed(b.kind, b.from, b.to, b.sequence)
    && (b.kind == CUTOVER <==> b.previous == ZERO)
    && b.writesFenced == (b.kind != UNFREEZE)
    && b.evidence.Keys == ReceiptEvidence(b.kind)
    && r.digest == OfReceipt(b)
  }

  // ---------- the inventory ----------

  predicate ValidBindings(b: InventoryBody) {
    && 1 <= |b.bindings| <= 1000
    && (forall i | 0 <= i < |b.bindings| :: b.bindings[i].revision == b.trafficRevision)
    && (forall i, j | 0 <= i < j < |b.bindings| :: b.bindings[i].service != b.bindings[j].service)
  }

  function ExpectedRelease(b: InventoryBody, revision: string): Option<string> {
    if revision == b.sourceRevision then Some(b.source)
    else if revision == b.targetRevision then Some(b.target)
    else None
  }

  predicate ValidWorkload(b: InventoryBody, w: Workload) {
    && ExpectedRelease(b, w.revision) == Some(w.release)
    && w.desired >= 0 && w.ready == w.desired && w.available == w.desired
    && (w.revision == b.targetRevision ==> w.desired >= 1)
    && (w.revision == b.trafficRevision ==> w.desired >= 1)
  }

  predicate Deployed(b: InventoryBody, name: string, revision: string) {
    exists i :: 0 <= i < |b.workloads| && b.workloads[i].name == name && b.workloads[i].revision == revision
  }

  predicate OncePerRevision(ws: seq<Workload>) {
    forall i, j | 0 <= i < j < |ws| :: ws[i].name != ws[j].name || ws[i].revision != ws[j].revision
  }

  /** Every workload once in each revision, and nothing else. */
  predicate ValidWorkloads(b: InventoryBody) {
    && 2 <= |b.workloads| <= 4000
    && (forall i | 0 <= i < |b.workloads| :: ValidWorkload(b, b.workloads[i]))
    && OncePerRevision(b.workloads)
    && (forall i | 0 <= i < |b.workloads| ::
          Deployed(b, b.workloads[i].name, b.sourceRevision) && Deployed(b, b.workloads[i].name, b.targetRevision))
  }

  predicate ValidInventory(i: Inventory, now: int) {
    var b := i.body;
    && b.source != b.target
    && b.sourceRevision != b.targetRevision
    && b.trafficRevision in {b.sourceRevision, b.targetRevision}
    && Timely(b.observedAt, b.validUntil, now)
    && ValidBindings(b) && ValidWorkloads(b)
    && i.digest == OfInventory(b)
  }

  method CheckBindings(b: InventoryBody) returns (ok: bool)
    ensures ok == ValidBindings(b)
  {
    if |b.bindings| < 1 || |b.bindings| > 1000 {
      return false;
    }
    var services: set<string> := {};
    for i := 0 to |b.bindings|
      invariant services == set k | 0 <= k < i :: b.bindings[k].service
      invariant forall k | 0 <= k < i :: b.bindings[k].revision == b.trafficRevision
      invariant forall j, k | 0 <= j < k < i :: b.bindings[j].service != b.bindings[k].service
    {
      var binding := b.bindings[i];
      if binding.service in services || binding.revision != b.trafficRevision {
        return false;
      }
      services := services + {binding.service};
    }
    return true;
  }

  /** The revisions seen of each workload. */
  function RevisionsOf(ws: seq<Workload>, name: string): set<string> {
    set i | 0 <= i < |ws| && ws[i].name == name :: ws[i].revision
  }

  function NamesOf(ws: seq<Workload>): set<string> {
    set i | 0 <= i < |ws| :: ws[i].name
  }

  predicate Grouped(table: map<string, set<string>>, ws: seq<Workload>) {
    table.Keys == NamesOf(ws) && forall name | name in table :: table[name] == RevisionsOf(ws, name)
  }

  lemma GroupNext(table: map<string, set<string>>, ws: seq<Workload>, w: Workload)
    requires Grouped(table, ws)
    ensures var seen := if w.name in table then table[w.name] else {};
      Grouped(table[w.name := seen + {w.revision}], ws + [w])
  {
    var more := ws + [w];
    var next := table[w.name := (if w.name in table then table[w.name] else {}) + {w.revision}];
    assert more[|ws|] == w;
    assert forall i | 0 <= i < |ws| :: more[i] == ws[i];
    assert NamesOf(more) == NamesOf(ws) + {w.name};
    forall name | name in next
      ensures next[name] == RevisionsOf(more, name)
    {
      RevisionsNext(ws, w, name);
      if name !in table { assert RevisionsOf(ws, name) == {}; }
    }
  }

  /** The table knows whether the next workload repeats one before it. */
  lemma SeenIff(table: map<string, set<string>>, ws: seq<Workload>, i: nat)
    requires i < |ws| && Grouped(table, ws[..i]) && OncePerRevision(ws[..i])
    ensures ws[i].revision !in (if ws[i].name in table then table[ws[i].name] else {}) <==> OncePerRevision(ws[..i + 1])
    ensures OncePerRevision(ws) ==> OncePerRevision(ws[..i + 1])
  {
    var p, w := ws[..i], ws[i];
    assert forall k | 0 <= k < i :: p[k].name in NamesOf(p);
    assert w.name in table ==> table[w.name] == RevisionsOf(p, w.name);
    assert w.revision in (if w.name in table then table[w.name] else {})
      <==> exists k :: 0 <= k < i && p[k].name == w.name && p[k].revision == w.revision;
    var q := ws[..i + 1];
    assert q[i] == w && forall k | 0 <= k < i :: q[k] == p[k];
  }

  lemma RevisionsNext(ws: seq<Workload>, w: Workload, name: string)
    ensures RevisionsOf(ws + [w], name) == RevisionsOf(ws, name) + (if w.name == name then {w.revision} else {})
  {
    var more := ws + [w];
    assert more[|ws|] == w;
    assert forall i | 0 <= i < |ws| :: more[i] == ws[i];
  }

  /** The declarative form of the last check of the loop's table. */
  lemma GroupsComplete(b: InventoryBody, table: map<string, set<string>>)
    requires Grouped(table, b.workloads)
    requires forall i | 0 <= i < |b.workloads| :: ValidWorkload(b, b.workloads[i])
    ensures (forall name | name in table :: table[name] == {b.sourceRevision, b.targetRevision})
      <==> (forall i | 0 <= i < |b.workloads| ::
              Deployed(b, b.workloads[i].name, b.sourceRevision) && Deployed(b, b.workloads[i].name, b.targetRevision))
  {
    forall name | name in table
      ensures b.sourceRevision in table[name] <==> Deployed(b, name, b.sourceRevision)
      ensures b.targetRevision in table[name] <==> Deployed(b, name, b.targetRevision)
      ensures table[name] <= {b.sourceRevision, b.targetRevision}
    {
    }
    assert forall i | 0 <= i < |b.workloads| :: b.workloads[i].name in table;
    forall name | name in table
      ensures exists i :: 0 <= i < |b.workloads| && b.workloads[i].name == name
    {
      assert name in NamesOf(b.workloads);
    }
  }

  method CheckWorkloads(b: InventoryBody) returns (ok: bool)
    ensures ok == ValidWorkloads(b)
  {
    if |b.workloads| < 2 || |b.workloads| > 4000 {
      return false;
    }
    var table: map<string, set<string>> := map[];
    for i := 0 to |b.workloads|
      invariant Grouped(table, b.workloads[..i])
      invariant forall k | 0 <= k < i :: ValidWorkload(b, b.workloads[k])
      invariant OncePerRevision(b.workloads[..i])
    {
      var w := b.workloads[i];
      if !ValidWorkload(b, w) {
        return false;
      }
      var revisions := if w.name in table then table[w.name] else {};
      SeenIff(table, b.workloads, i);
      if w.revision in revisions {
        return false;
      }
      GroupNext(table, b.workloads[..i], w);
      assert b.workloads[..i + 1] == b.workloads[..i] + [w];
      table := table[w.name := revisions + {w.revision}];
    }
    assert b.workloads[..|b.workloads|] == b.workloads;
    GroupsComplete(b, table);
    return forall name | name in table :: table[name] == {b.sourceRevision, b.targetRevision};
  }

  method ValidateInventory(i: Inventory, now: int) returns (ok: bool)
    ensures ok == ValidInventory(i, now)
  {
    var b := i.body;
    if b.source == b.target || b.sourceRevision == b.targetRevision
       || b.trafficRevision !in {b.sourceRevision, b.targetRevision}
       || !Timely(b.observedAt, b.validUntil, now) {
      return false;
    }
    var bindings := CheckBindings(b);
    if !bindings {
      return false;
    }
    var workloads := CheckWorkloads(b);
    return workloads && i.digest == OfInventory(b);
  }

  // ---------- keys and signatures ----------

  datatype Role = SRE_RELEASE_FENCE | RELEASE_CUTOVER_AUTHORITY | DISASTER_RECOVERY_OWNER | SRE_RELEASE_UNFREEZE

  const ROLES: set<Role> := {SRE_RELEASE_FENCE, RELEASE_CUTOVER_AUTHORITY, DISASTER_RECOVERY_OWNER, SRE_RELEASE_UNFREEZE}

  function RoleOf(kind: Kind): Role {
    match kind
    case WRITER_FENCE => SRE_RELEASE_FENCE
    case CUTOVER => RELEASE_CUTOVER_AUTHORITY
    case ROLLBACK => DISASTER_RECOVERY_OWNER
    case UNFREEZE => SRE_RELEASE_UNFREEZE
  }

  datatype Key = Key(
    keyId: string,
    signerId: string,
    organization: string,
    roles: seq<Role>,
    usage: string,
    algorithm: string,
    publicKey: string,
    active: bool,
    notBefore: int,
    notAfter: int,
    revokedAt: Option<int>)

  datatype Keyring = Keyring(version: int, issuedAt: int, expiresAt: int, keys: seq<Key>)

  predicate ValidKey(k: Key, now: int) {
    && 1 <= |k.organization| <= 256
    && 1 <= |k.roles| <= 4 && (forall i, j | 0 <= i < j < |k.roles| :: k.roles[i] != k.roles[j])
    && k.usage == "PRODUCTION_DEPLOYMENT_CUTOVER" && k.algorithm == "Ed25519"
    && k.active == k.revokedAt.None?
    && k.notBefore < k.notAfter && k.notAfter > now
  }

  predicate ValidKeyring(r: Keyring, now: int) {
    && r.version >= 1
    && r.issuedAt <= now < r.expiresAt && r.issuedAt < r.expiresAt && r.expiresAt - r.issuedAt <= 366 * DAY
    && 4 <= |r.keys| <= 1000
    && (forall i | 0 <= i < |r.keys| :: ValidKey(r.keys[i], now))
    && KeysDistinct(r.keys)
    && (forall role | role in ROLES :: Held(r.keys, role))
  }

  predicate Held(keys: seq<Key>, role: Role) {
    exists i :: 0 <= i < |keys| && role in keys[i].roles
  }

  /** What is signed: the document with the kind and the key it is signed for. */
  datatype Payload = Payload(kind: Kind, keyId: string, document: Document)

  datatype Signature = SignedWith(publicKey: string, payload: Payload) | Unrelated(text: string)

  datatype Envelope = Envelope(
    kind: Kind,
    document: Document,
    documentDigest: Document,
    signerId: string,
    organization: string,
    role: Role,
    keyId: string,
    usage: string,
    algorithm: string,
    signedAt: int,
    request: Payload,
    signature: Signature)

  predicate ValidDocument(kind: Kind, d: Document, now: int) {
    match d
    case FenceDocument(f) => kind == WRITER_FENCE && ValidFence(f, now)
    case ReceiptDocument(r) => kind != WRITER_FENCE && ValidReceipt(r, now) && r.body.kind == kind
  }

  function ObservedAt(d: Document): int {
    match d case FenceDocument(f) => f.body.measuredAt case ReceiptDocument(r) => r.body.observedAt
  }

  function ValidUntil(d: Document): int {
    match d case FenceDocument(f) => f.body.validUntil case ReceiptDocument(r) => r.body.validUntil
  }

  predicate FindKey(r: Keyring, keyId: string, key: Key) {
    exists i :: 0 <= i < |r.keys| && r.keys[i] == key && key.keyId == keyId
  }

  /** `verify_signed_receipt` under a given key. */
  predicate SignedUnder(e: Envelope, key: Key, now: int) {
    && e.documentDigest == e.document
    && e.usage == "PRODUCTION_DEPLOYMENT_CUTOVER" && e.algorithm == "Ed25519"
    && e.role == RoleOf(e.kind)
    && e.signerId == key.signerId && e.organization == key.organization && e.role in key.roles
    && key.active && key.revokedAt.None?
    && key.notBefore <= e.signedAt && key.notAfter > now
    && e.signedAt <= now + 30 * SECOND
    && ObservedAt(e.document) <= e.signedAt <= ValidUntil(e.document)
    && e.request == Payload(e.kind, key.keyId, e.document)
    && e.signature == SignedWith(key.publicKey, Payload(e.kind, key.keyId, e.document))
  }

  predicate Verified(e: Envelope, r: Keyring, now: int) {
    && ValidDocument(e.kind, e.document, now)
    && ValidKeyring(r, now)
    && exists i :: 0 <= i < |r.keys| && r.keys[i].keyId == e.keyId && SignedUnder(e, r.keys[i], now)
  }

  predicate KeysDistinct(keys: seq<Key>) {
    forall i, j | 0 <= i < j < |keys| :: keys[i].keyId != keys[j].keyId && keys[i].signerId != keys[j].signerId
  }

  /** The keys by id, if each is valid and none shares its id or its signer with another. */
  method TabulateKeys(r: Keyring, now: int) returns (table: Option<map<string, Key>>)
    ensures table.Some? <==> KeysDistinct(r.keys) && forall i | 0 <= i < |r.keys| :: ValidKey(r.keys[i], now)
    ensures table.Some? ==>
      && (forall id | id in table.value :: FindKey(r, id, table.value[id]))
      && (forall i | 0 <= i < |r.keys| :: r.keys[i].keyId in table.value)
  {
    var result: map<string, Key> := map[];
    var signers: set<string> := {};
    for i := 0 to |r.keys|
      invariant result.Keys == set k | 0 <= k < i :: r.keys[k].keyId
      invariant forall id | id in result :: FindKey(r, id, result[id])
      invariant signers == set k | 0 <= k < i :: r.keys[k].signerId
      invariant forall k | 0 <= k < i :: ValidKey(r.keys[k], now)
      invariant forall j, k | 0 <= j < k < i ::
          r.keys[j].keyId != r.keys[k].keyId && r.keys[j].signerId != r.keys[k].signerId
    {
      var key := r.keys[i];
      if key.keyId in result || key.signerId in signers || !ValidKey(key, now) {
        return None;
      }
      result := result[key.keyId := key];
      signers := signers + {key.signerId};
    }
    return Some(result);
  }

  /** The keys by id, if the keyring is valid. */
  method ValidateKeyring(r: Keyring, now: int) returns (table: Option<map<string, Key>>)
    ensures table.Some? <==> ValidKeyring(r, now)
    ensures table.Some? ==>
      && (forall id | id in table.value :: FindKey(r, id, table.value[id]))
      && (forall i | 0 <= i < |r.keys| :: r.keys[i].keyId in table.value)
  {
    if r.version < 1 || r.issuedAt > now || r.expiresAt <= now || r.expiresAt <= r.issuedAt
       || r.expiresAt - r.issuedAt > 366 * DAY || |r.keys| < 4 || |r.keys| > 1000 {
      return None;
    }
    table := TabulateKeys(r, now);
    if table.None? {
      return None;
    }
    if exists role | role in ROLES :: !Held(r.keys, role) {
      return None;
    }
  }

  method VerifySignedReceipt(e: Envelope, r: Keyring, expected: Option<Kind>, now: int) returns (ok: bool)
    ensures ok <==> Verified(e, r, now) && (expected.Some? ==> e.kind == expected.value)
    ensures ok ==>
      exists i :: 0 <= i < |r.keys| && r.keys[i].keyId == e.keyId && r.keys[i].signerId == e.signerId && e.role in r.keys[i].roles
                  && e.signature == SignedWith(r.keys[i].publicKey, Payload(e.kind, e.keyId, e.document))
  {
    if expected.Some? && e.kind != expected.value {
      return false;
    }
    if !ValidDocument(e.kind, e.document, now) {
      return false;
    }
    var keys := ValidateKeyring(r, now);
    if keys.None? {
      return false;
    }
    if e.keyId !in keys.value {
      return false;
    }
    var key := keys.value[e.keyId];
    OnlyKey(r, e.keyId, key);
    return SignedUnder(e, key, now);
  }

  /** A valid keyring has one key for an id. */
  lemma OnlyKey(r: Keyring, keyId: string, key: Key)
    requires KeysDistinct(r.keys) && FindKey(r, keyId, key)
    ensures forall i | 0 <= i < |r.keys| && r.keys[i].keyId == keyId :: r.keys[i] == key
  {
  }

  // ---------- finalization ----------

  datatype SigningRequest = SigningRequest(kind: Kind, keyId: string, document: Document, preparedAt: int)

  datatype ExternalSignature = ExternalSignature(request: Payload, keyId: string, algorithm: string, signedAt: int, signature: Signature)

  predicate ValidSigningRequest(q: SigningRequest, now: int) {
    ValidDocument(q.kind, q.document, now) && now - 15 * MINUTE <= q.preparedAt <= now + 30 * SECOND
  }

  /** The external signature answers this request, and not before it was prepared. */
  predicate SignatureFits(q: SigningRequest, s: ExternalSignature) {
    && s.request == Payload(q.kind, q.keyId, q.document)
    && s.keyId == q.keyId && s.algorithm == "Ed25519"
    && q.preparedAt <= s.signedAt
  }

  function EnvelopeOf(q: SigningRequest, s: ExternalSignature, key: Key): Envelope {
    Envelope(q.kind, q.document, q.document, key.signerId, key.organization, RoleOf(q.kind), key.keyId,
             "PRODUCTION_DEPLOYMENT_CUTOVER", "Ed25519", s.signedAt, Payload(q.kind, q.keyId, q.document), s.signature)
  }

  /** The envelope made under the request's key verifies. */
  predicate VerifiesUnder(q: SigningRequest, s: ExternalSignature, r: Keyring, i: nat, now: int)
    requires i < |r.keys|
  {
    r.keys[i].keyId == q.keyId && Verified(EnvelopeOf(q, s, r.keys[i]), r, now)
  }

  lemma UnderOnlyKey(q: SigningRequest, s: ExternalSignature, r: Keyring, key: Key, now: int)
    requires ValidKeyring(r, now) && FindKey(r, q.keyId, key) && ValidDocument(q.kind, q.document, now)
    ensures (exists i :: 0 <= i < |r.keys| && VerifiesUnder(q, s, r, i, now)) <==> SignedUnder(EnvelopeOf(q, s, key), key, now)
  {
    OnlyKey(r, q.keyId, key);
    var i :| 0 <= i < |r.keys| && r.keys[i] == key && key.keyId == q.keyId;
    if SignedUnder(EnvelopeOf(q, s, key), key, now) {
      assert VerifiesUnder(q, s, r, i, now);
    }
  }

  lemma NoKeyNoEnvelope(q: SigningRequest, s: ExternalSignature, r: Keyring, now: int)
    requires !ValidKeyring(r, now) || forall i | 0 <= i < |r.keys| :: r.keys[i].keyId != q.keyId
    ensures !exists i :: 0 <= i < |r.keys| && VerifiesUnder(q, s, r, i, now)
  {
  }

  /** `finalize_external_signature`: it succeeds exactly when the request is current, the signature fits
      it, and the envelope that results is one that verifies. */
  method Finalize(q: SigningRequest, s: ExternalSignature, r: Keyring, now: int) returns (result: Option<Envelope>)
    ensures result.Some? <==>
      ValidSigningRequest(q, now) && SignatureFits(q, s) && exists i :: 0 <= i < |r.keys| && VerifiesUnder(q, s, r, i, now)
    ensures result.Some? ==> Verified(result.value, r, now)
    ensures result.Some? ==>
      && result.value.document == q.document && result.value.kind == q.kind && result.value.keyId == q.keyId
      && result.value.signedAt == s.signedAt >= q.preparedAt
    ensures result.Some? ==> result.value.signature == s.signature
    ensures result.Some? ==>
      exists i :: 0 <= i < |r.keys| && r.keys[i].keyId == q.keyId && r.keys[i].signerId == result.value.signerId
                  && result.value.role in r.keys[i].roles
                  && s.signature == SignedWith(r.keys[i].publicKey, Payload(q.kind, q.keyId, q.document))
  {
    if !ValidSigningRequest(q, now) {
      return None;
    }
    var keys := ValidateKeyring(r, now);
    if keys.None? || q.keyId !in keys.value {
      NoKeyNoEnvelope(q, s, r, now);
      return None;
    }
    var key := keys.value[q.keyId];
    UnderOnlyKey(q, s, r, key, now);
    var payload := Payload(q.kind, q.keyId, q.document);
    if s.request != payload || s.keyId != q.keyId || s.algorithm != "Ed25519"
       || !key.active || key.revokedAt.Some? || RoleOf(q.kind) !in key.roles
       || !(key.notBefore <= s.signedAt <= now + 30 * SECOND) || key.notAfter <= now
       || s.signedAt < q.preparedAt || s.signedAt < ObservedAt(q.document) || s.signedAt > ValidUntil(q.document)
       || s.signature != SignedWith(key.publicKey, payload) {
      return None;
    }
    var e := EnvelopeOf(q, s, key);
    assert SignedUnder(e, key, now);
    assert FindKey(r, e.keyId, key);
    return Some(e);
  }
}
