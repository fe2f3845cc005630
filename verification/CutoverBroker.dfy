/**
 The client of the external cutover authority: the requests it sends, the responses it accepts, and
 what is left for the chain verifier to decide about responses that were accepted one by one.
 */
module CutoverBroker {
  import opened Common
  import opened Cutover
  import opened CutoverChain

  datatype Material = Material(
    source: string,
    target: string,
    environment: string,
    operation: Kind,
    previous: Digest,
    fenceDigest: Digest,
    requestedAt: int)

  /** The request id and the idempotency key are digests of the material. */
  datatype Request = Request(material: Material, requestId: Material, idempotencyKey: Material)

  datatype Response = Response(
    requestId: Material,
    request: Request,
    source: string,
    target: string,
    environment: string,
    operation: Kind,
    previous: Digest,
    fenceDigest: Digest,
    inventory: Option<Inventory>,
    signed: Envelope,
    completedAt: int)

  function PrepareRequest(m: Material): Option<Request> {
    if m.source == m.target
       || (m.operation in {WRITER_FENCE, CUTOVER}) != (m.previous == ZERO)
       || (m.operation == WRITER_FENCE) != (m.fenceDigest == ZERO)
    then None
    else Some(Request(m, m, m))
  }

  predicate ValidRequest(q: Request, now: int) {
    && PrepareRequest(q.material) == Some(q)
    && now - 15 * MINUTE <= q.material.requestedAt <= now + 30 * SECOND
  }

  predicate SameScope(source: string, target: string, environment: string, m: Material) {
    source == m.source && target == m.target && environment == m.environment
  }

  predicate DocumentInScope(d: Document, m: Material) {
    match d
    case FenceDocument(f) => SameScope(f.body.source, f.body.target, f.body.environment, m)
    case ReceiptDocument(r) => SameScope(r.body.source, r.body.target, r.body.environment, m)
  }

  predicate ValidResponse(p: Response, q: Request, r: Keyring, now: int) {
    var m := q.material;
    && ValidRequest(q, now)
    && p.signed.kind == m.operation && Verified(p.signed, r, now)
    && p.requestId == q.requestId && p.request == q
    && SameScope(p.source, p.target, p.environment, m)
    && p.operation == m.operation && p.previous == m.previous && p.fenceDigest == m.fenceDigest
    && DocumentInScope(p.signed.document, m)
    && m.requestedAt <= p.completedAt && now - 15 * MINUTE <= p.completedAt <= now + 30 * SECOND
    && (if m.operation == WRITER_FENCE then p.inventory == None
        else p.inventory.Some? && IsReceipt(p.signed) && ReceiptFits(BodyOf(p.signed), p.inventory.value, m, now))
  }

  predicate ReceiptFits(b: ReceiptBody, i: Inventory, m: Material, now: int) {
    && ValidInventory(i, now)
    && b.previous == m.previous && b.fenceDigest == m.fenceDigest
    && b.inventoryDigest == i.digest && b.trafficRevision == i.body.trafficRevision
    && SameScope(i.body.source, i.body.target, i.body.environment, m)
  }

  // ---------- a cutover carried out through the broker ----------

  /** A request, the response to it, and when and under which keyring it was accepted. */
  datatype Exchange = Exchange(request: Request, response: Response, keyring: Keyring, at: int)

  predicate Accepted(x: Exchange) {
    ValidResponse(x.response, x.request, x.keyring, x.at)
  }

  /** First the fence, then one transition after the other: each request is for the same releases and
      environment and carries the fence's digest and the digest of the receipt before it. */
  predicate CarriesOn(xs: seq<Exchange>) {
    && xs != [] && xs[0].request.material.operation == WRITER_FENCE
    && forall k | 0 < k < |xs| :: Follows(xs, k)
  }

  predicate Follows(xs: seq<Exchange>, k: nat)
    requires 0 < k < |xs|
  {
    var m, first := xs[k].request.material, xs[0].request.material;
    && m.operation != WRITER_FENCE
    && SameScope(m.source, m.target, m.environment, first)
    && m.fenceDigest == DigestOf(xs[0].response.signed)
    && m.previous == (if k == 1 then ZERO else DigestOf(xs[k - 1].response.signed))
  }

  predicate Conducted(xs: seq<Exchange>) {
    CarriesOn(xs) && forall k {:trigger Accepted(xs[k])} | 0 <= k < |xs| :: Accepted(xs[k])
  }

  function FenceOf(xs: seq<Exchange>): Envelope
    requires xs != []
  {
    xs[0].response.signed
  }

  function ReceiptsOf(xs: seq<Exchange>): seq<Envelope>
    requires xs != []
  {
    seq(|xs| - 1, k requires 0 <= k < |xs| - 1 => xs[k + 1].response.signed)
  }

  function InventoriesOf(xs: seq<Exchange>): seq<Inventory>
    requires xs != [] && forall k | 0 < k < |xs| :: xs[k].response.inventory.Some?
  {
    seq(|xs| - 1, k requires 0 <= k < |xs| - 1 => xs[k + 1].response.inventory.value)
  }

  /** Release, environment, predecessor, fence, inventory and traffic revision of the k-th link. */
  predicate LinkedByBroker(fence: Envelope, invs: seq<Inventory>, ts: seq<Envelope>, k: nat)
    requires k < |ts| == |invs|
  {
    && fence.document.FenceDocument? && IsReceipt(ts[k])
    && BodyOf(ts[k]).previous == PreviousAt(ts, k)
    && InScope(fence.document.fence, BodyOf(ts[k]), invs[k].body)
    && BodyOf(ts[k]).inventoryDigest == invs[k].digest == OfInventory(invs[k].body)
  }

  lemma AcceptedReceipt(x: Exchange)
    requires Accepted(x) && x.request.material.operation != WRITER_FENCE
    ensures IsReceipt(x.response.signed) && x.response.inventory.Some?
    ensures x.response.signed.kind != WRITER_FENCE
    ensures var b := BodyOf(x.response.signed); var m := x.request.material; var i := x.response.inventory.value;
      && b.previous == m.previous && b.fenceDigest == m.fenceDigest
      && SameScope(b.source, b.target, b.environment, m) && SameScope(i.body.source, i.body.target, i.body.environment, m)
      && b.trafficRevision == i.body.trafficRevision
      && b.inventoryDigest == i.digest == OfInventory(i.body)
  {
  }

  lemma AcceptedFence(x: Exchange)
    requires Accepted(x) && x.request.material.operation == WRITER_FENCE
    ensures x.response.signed.document.FenceDocument? && x.response.signed.kind == WRITER_FENCE
    ensures DocumentInScope(x.response.signed.document, x.request.material)
  {
  }

  lemma AllReceived(xs: seq<Exchange>)
    requires Conducted(xs)
    ensures forall j | 0 < j < |xs| :: xs[j].response.inventory.Some?
    ensures AllReceipts(ReceiptsOf(xs)) && FenceOf(xs).document.FenceDocument?
  {
    assert Accepted(xs[0]);
    AcceptedFence(xs[0]);
    forall j | 0 < j < |xs|
      ensures xs[j].response.inventory.Some? && IsReceipt(xs[j].response.signed)
    {
      assert Follows(xs, j) && Accepted(xs[j]);
      AcceptedReceipt(xs[j]);
    }
  }

  lemma ScopeCarries(f: Fence, b: ReceiptBody, i: InventoryBody, m: Material, first: Material)
    requires SameScope(f.body.source, f.body.target, f.body.environment, first)
    requires SameScope(m.source, m.target, m.environment, first)
    requires SameScope(b.source, b.target, b.environment, m) && SameScope(i.source, i.target, i.environment, m)
    requires b.fenceDigest == f.digest && b.trafficRevision == i.trafficRevision
    ensures InScope(f, b, i)
  {
  }

  /** The k-th receipt and its inventory, against the fence. */
  lemma ExchangeLinks(xs: seq<Exchange>, k: nat)
    requires Conducted(xs) && 0 < k < |xs|
    ensures FenceOf(xs).document.FenceDocument? && IsReceipt(xs[k].response.signed) && xs[k].response.inventory.Some?
    ensures var b := BodyOf(xs[k].response.signed); var i := xs[k].response.inventory.value;
      && InScope(FenceOf(xs).document.fence, b, i.body)
      && b.previous == (if k == 1 then ZERO else DigestOf(xs[k - 1].response.signed))
      && b.inventoryDigest == i.digest == OfInventory(i.body)
  {
    var x := xs[k];
    assert Follows(xs, k) && Accepted(xs[0]) && Accepted(x);
    AcceptedFence(xs[0]);
    AcceptedReceipt(x);
    ScopeCarries(FenceOf(xs).document.fence, BodyOf(x.response.signed), x.response.inventory.value.body,
                 x.request.material, xs[0].request.material);
  }

  /** Responses accepted one by one satisfy these conditions of every link of the chain. */
  lemma BrokerLinks(xs: seq<Exchange>, k: nat)
    requires Conducted(xs) && k + 1 < |xs|
    ensures forall j | 0 < j < |xs| :: xs[j].response.inventory.Some?
    ensures LinkedByBroker(FenceOf(xs), InventoriesOf(xs), ReceiptsOf(xs), k)
  {
    AllReceived(xs);
    ExchangeLinks(xs, k + 1);
  }

  // ---------- what is left to the chain verifier ----------

  /** Order of states and of time, and the revision that the transition is about. */
  predicate InStep(fence: Envelope, invs: seq<Inventory>, ts: seq<Envelope>, k: nat)
    requires k < |ts| == |invs| && AllReceipts(ts)
  {
    && BodyOf(ts[k]).sequence == k + 1 && BodyOf(ts[k]).from == StateAt(ts, k)
    && InTime(ts[k], invs[k].body, LastAt(fence, ts, k))
    && TrafficFits(BodyOf(ts[k]), invs[k].body, k + 1, StateAt(ts, k))
  }

  predicate IdsDistinct(invs: seq<Inventory>) {
    forall m, n | 0 <= m < n < |invs| :: invs[m].body.inventoryId != invs[n].body.inventoryId
  }

  /** Everything is still valid at the time of the verification, nobody signed twice, nothing was used
      twice, and the transitions were in step. */
  predicate Remaining(fence: Envelope, invs: seq<Inventory>, ts: seq<Envelope>, r: Keyring, now: int)
    requires |ts| == |invs| && AllReceipts(ts)
  {
    && AllVerified(fence, invs, ts, r, now)
    && 2 <= |ts| <= 3
    && SignersDistinct(fence, ts) && TransitionsDistinct(ts) && IdsDistinct(invs)
    && (forall k | 0 <= k < |ts| :: InStep(fence, invs, ts, k))
    && Concluded(ts)
  }

  lemma LinkFromParts(fence: Envelope, invs: seq<Inventory>, ts: seq<Envelope>, k: nat)
    requires k < |ts| == |invs| && AllReceipts(ts) && fence.document.FenceDocument?
    requires LinkedByBroker(fence, invs, ts, k) && InStep(fence, invs, ts, k)
    ensures LinkAt(fence, invs, ts, k)
  {
    assert invs[k].digest == BodyOf(ts[k]).inventoryDigest
      && Linked(fence.document.fence, ts[k], invs[k].body, k + 1, PreviousAt(ts, k), StateAt(ts, k), LastAt(fence, ts, k));
  }

  lemma PartsFromLink(fence: Envelope, invs: seq<Inventory>, ts: seq<Envelope>, k: nat)
    requires k < |ts| == |invs| && AllReceipts(ts) && fence.document.FenceDocument?
    requires LinkedByBroker(fence, invs, ts, k) && LinkAt(fence, invs, ts, k) && InventoriesDistinct(invs)
    ensures InStep(fence, invs, ts, k)
  {
    var n :| 0 <= n < |invs| && invs[n].digest == BodyOf(ts[k]).inventoryDigest
      && Linked(fence.document.fence, ts[k], invs[n].body, k + 1, PreviousAt(ts, k), StateAt(ts, k), LastAt(fence, ts, k));
    assert invs[n].digest == invs[k].digest;
  }

  lemma DistinctDigests(invs: seq<Inventory>)
    requires forall n | 0 <= n < |invs| :: invs[n].digest == OfInventory(invs[n].body)
    ensures InventoriesDistinct(invs) <==> IdsDistinct(invs)
  {
    forall m, n | 0 <= m < n < |invs| && IdsDistinct(invs)
      ensures invs[m].digest != invs[n].digest
    {
      assert invs[m].body.inventoryId != invs[n].body.inventoryId;
    }
  }

  /** A cutover conducted through the broker is accepted as a chain exactly when the remaining
      conditions hold. */
  lemma ConductedChainIff(xs: seq<Exchange>, r: Keyring, now: int)
    requires Conducted(xs)
    ensures forall j | 0 < j < |xs| :: xs[j].response.inventory.Some?
    ensures AllReceipts(ReceiptsOf(xs))
    ensures LegalChain(FenceOf(xs), InventoriesOf(xs), ReceiptsOf(xs), r, now)
      <==> Remaining(FenceOf(xs), InventoriesOf(xs), ReceiptsOf(xs), r, now)
  {
    AllReceived(xs);
    var fence, invs, ts := FenceOf(xs), InventoriesOf(xs), ReceiptsOf(xs);
    forall k | 0 <= k < |ts|
      ensures LinkedByBroker(fence, invs, ts, k)
    {
      BrokerLinks(xs, k);
    }
    ChainIff(fence, invs, ts, r, now);
  }

  lemma ChainIff(fence: Envelope, invs: seq<Inventory>, ts: seq<Envelope>, r: Keyring, now: int)
    requires |ts| == |invs| && fence.document.FenceDocument? && AllReceipts(ts)
    requires forall k | 0 <= k < |ts| :: LinkedByBroker(fence, invs, ts, k)
    ensures LegalChain(fence, invs, ts, r, now) <==> Remaining(fence, invs, ts, r, now)
  {
    forall k | 0 <= k < |ts|
      ensures invs[k].digest == OfInventory(invs[k].body) && Uses(ts, invs[k].digest)
    {
      assert LinkedByBroker(fence, invs, ts, k);
      assert BodyOf(ts[k]).inventoryDigest == invs[k].digest;
    }
    DistinctDigests(invs);
    if InventoriesDistinct(invs) {
      LinksIff(fence, invs, ts);
    }
  }

  lemma LinksIff(fence: Envelope, invs: seq<Inventory>, ts: seq<Envelope>)
    requires |ts| == |invs| && fence.document.FenceDocument? && AllReceipts(ts) && InventoriesDistinct(invs)
    requires forall k | 0 <= k < |ts| :: LinkedByBroker(fence, invs, ts, k)
    ensures (forall k | 0 <= k < |ts| :: LinkAt(fence, invs, ts, k)) <==> (forall k | 0 <= k < |ts| :: InStep(fence, invs, ts, k))
  {
    forall k | 0 <= k < |ts|
      ensures LinkAt(fence, invs, ts, k) <==> InStep(fence, invs, ts, k)
    {
      if InStep(fence, invs, ts, k) {
        LinkFromParts(fence, invs, ts, k);
      } else if LinkAt(fence, invs, ts, k) {
        PartsFromLink(fence, invs, ts, k);
      }
    }
  }
}
