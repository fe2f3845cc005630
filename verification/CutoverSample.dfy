/** A cutover conducted through the broker for each word of the language, both accepted as chains. */
module CutoverSample {
  import opened Common
  import opened Cutover
  import opened CutoverChain
  import opened CutoverLaws
  import opened CutoverBroker

  const NOW: int := 60 * SECOND
  const LATER: int := 10 * MINUTE

  // ---------- keys and signatures ----------

  function KeyFor(name: string, role: Role): Key {
    Key(name, name, "org", [role], "PRODUCTION_DEPLOYMENT_CUTOVER", "Ed25519", name, true, 0, DAY, None)
  }

  function KeyOf(kind: Kind): Key {
    match kind
    case WRITER_FENCE => KeyFor("f", SRE_RELEASE_FENCE)
    case CUTOVER => KeyFor("c", RELEASE_CUTOVER_AUTHORITY)
    case ROLLBACK => KeyFor("r", DISASTER_RECOVERY_OWNER)
    case UNFREEZE => KeyFor("u", SRE_RELEASE_UNFREEZE)
  }

  function Ring(): Keyring {
    Keyring(1, 0, DAY, [KeyOf(WRITER_FENCE), KeyOf(CUTOVER), KeyOf(ROLLBACK), KeyOf(UNFREEZE)])
  }

  lemma RingIsValid()
    ensures ValidKeyring(Ring(), NOW)
  {
    var keys := Ring().keys;
    assert SRE_RELEASE_FENCE in keys[0].roles && RELEASE_CUTOVER_AUTHORITY in keys[1].roles;
    assert DISASTER_RECOVERY_OWNER in keys[2].roles && SRE_RELEASE_UNFREEZE in keys[3].roles;
  }

  function Sign(kind: Kind, d: Document, t: int): Envelope {
    var key := KeyOf(kind);
    Envelope(kind, d, d, key.signerId, key.organization, RoleOf(kind), key.keyId, "PRODUCTION_DEPLOYMENT_CUTOVER",
             "Ed25519", t, Payload(kind, key.keyId, d), SignedWith(key.publicKey, Payload(kind, key.keyId, d)))
  }

  lemma SignedVerifies(kind: Kind, d: Document, t: int)
    requires ValidDocument(kind, d, NOW) && ObservedAt(d) <= t <= ValidUntil(d) && 0 <= t <= NOW
    ensures Verified(Sign(kind, d, t), Ring(), NOW)
  {
    RingIsValid();
    var i := match kind case WRITER_FENCE => 0 case CUTOVER => 1 case ROLLBACK => 2 case UNFREEZE => 3;
    assert Ring().keys[i] == KeyOf(kind);
    assert SignedUnder(Sign(kind, d, t), Ring().keys[i], NOW);
  }

  // ---------- documents ----------

  function Evidence(names: set<string>): map<string, string> {
    map name | name in names :: "evidence"
  }

  function Fenced(): Fence {
    var b := FenceBody("fence", "blue", "green", "prod", true, true, true, 0, 0, 0, 0, "recovery", Evidence(FENCE_EVIDENCE), SECOND, LATER);
    Fence(b, OfFence(b))
  }

  function SignedFence(): Envelope {
    Sign(WRITER_FENCE, FenceDocument(Fenced()), 2 * SECOND)
  }

  lemma FenceVerifies()
    ensures Verified(SignedFence(), Ring(), NOW)
  {
    SignedVerifies(WRITER_FENCE, FenceDocument(Fenced()), 2 * SECOND);
  }

  function Letter(k: nat): string
    requires k < 3
  {
    if k == 0 then "a" else if k == 1 then "b" else "c"
  }

  /** Three seconds for each transition. */
  function Base(k: nat): int {
    3 * (k + 1) * SECOND
  }

  function Inventoried(k: nat, revision: string): Inventory
    requires k < 3
  {
    var b := InventoryBody(Letter(k), "blue", "green", "r1", "r2", "prod", revision, [TrafficBinding("web", revision)],
                           [Workload("web", "r1", "blue", "image", 1, 1, 1), Workload("web", "r2", "green", "image", 1, 1, 1)],
                           Base(k), LATER);
    Inventory(b, OfInventory(b))
  }

  lemma InventoryIsValid(k: nat, revision: string)
    requires k < 3 && revision in {"r1", "r2"}
    ensures ValidInventory(Inventoried(k, revision), NOW)
  {
    var b := Inventoried(k, revision).body;
    assert b.workloads[0].revision == "r1" && b.workloads[1].revision == "r2";
    assert Deployed(b, "web", "r1") && Deployed(b, "web", "r2");
  }

  /** What distinguishes the transitions of a word. */
  datatype Turn = Turn(kind: Kind, from: State, to: State, revision: string)

  function Signed(k: nat, t: Turn, previous: Digest): Envelope
    requires k < 3
  {
    var b := ReceiptBody(Letter(k), t.kind, "blue", "green", "prod", k + 1, previous, Fenced().digest,
                         Inventoried(k, t.revision).digest, t.revision, t.kind != UNFREEZE, t.from, t.to,
                         Evidence(ReceiptEvidence(t.kind)), Base(k) + SECOND, LATER);
    Sign(t.kind, ReceiptDocument(Receipt(b, OfReceipt(b))), Base(k) + 2 * SECOND)
  }

  /** The k-th turn fits its place. */
  predicate Fits(k: nat, t: Turn) {
    && k < 3 && t.kind != WRITER_FENCE && t.revision in {"r1", "r2"}
    && SequenceAllowed(t.kind, k + 1) && StatesAllowed(t.kind, t.from, t.to, k + 1)
    && (t.kind == CUTOVER <==> k == 0)
    && (t.revision == "r2" <==> t.kind == CUTOVER || t.to == TARGET_ACTIVE)
  }

  predicate Precedes(k: nat, previous: Digest) {
    k == 0 <==> previous == ZERO
  }

  lemma TurnVerifies(k: nat, t: Turn, previous: Digest)
    requires Fits(k, t) && Precedes(k, previous)
    ensures Verified(Signed(k, t, previous), Ring(), NOW)
  {
    var e := Signed(k, t, previous);
    SignedVerifies(t.kind, e.document, e.signedAt);
  }

  // ---------- a conducted cutover ----------

  function FenceExchange(): Exchange {
    var m := Material("blue", "green", "prod", WRITER_FENCE, ZERO, ZERO, SECOND);
    var q := Request(m, m, m);
    Exchange(q, Response(m, q, "blue", "green", "prod", WRITER_FENCE, ZERO, ZERO, None, SignedFence(), NOW), Ring(), NOW)
  }

  function TurnExchange(k: nat, t: Turn, previous: Digest): Exchange
    requires k < 3
  {
    var m := Material("blue", "green", "prod", t.kind, previous, Fenced().digest, Base(k));
    var q := Request(m, m, m);
    Exchange(q, Response(m, q, "blue", "green", "prod", t.kind, previous, Fenced().digest, Some(Inventoried(k, t.revision)),
                         Signed(k, t, previous), NOW), Ring(), NOW)
  }

  lemma FenceIsAccepted()
    ensures Accepted(FenceExchange())
  {
    FenceVerifies();
  }

  lemma TurnIsRequested(k: nat, t: Turn, previous: Digest)
    requires Fits(k, t) && Precedes(k, previous)
    ensures ValidRequest(TurnExchange(k, t, previous).request, NOW)
  {
    assert Fenced().digest != ZERO;
  }

  lemma TurnIsAccepted(k: nat, t: Turn, previous: Digest)
    requires Fits(k, t) && Precedes(k, previous)
    ensures Accepted(TurnExchange(k, t, previous))
  {
    TurnIsRequested(k, t, previous);
    TurnVerifies(k, t, previous);
    TurnReceiptFits(k, t, previous);
  }

  lemma TurnReceiptFits(k: nat, t: Turn, previous: Digest)
    requires Fits(k, t)
    ensures ReceiptFits(BodyOf(Signed(k, t, previous)), Inventoried(k, t.revision), TurnExchange(k, t, previous).request.material, NOW)
  {
    InventoryIsValid(k, t.revision);
  }

  lemma TurnInStep(fence: Envelope, invs: seq<Inventory>, ts: seq<Envelope>, k: nat, t: Turn, previous: Digest)
    requires k < |ts| == |invs| && AllReceipts(ts) && Fits(k, t) && Precedes(k, previous)
    requires ts[k] == Signed(k, t, previous) && invs[k] == Inventoried(k, t.revision)
    requires StateAt(ts, k) == t.from && LastAt(fence, ts, k) < Base(k)
    ensures InStep(fence, invs, ts, k)
  {
  }

  // ---------- a cutover, told by its turns ----------

  /** The digest that the k-th receipt names. */
  function Previous(turns: seq<Turn>, k: nat): Digest
    requires k <= |turns| <= 3
  {
    if k == 0 then ZERO else DigestOf(Signed(k - 1, turns[k - 1], Previous(turns, k - 1)))
  }

  /** Each turn fits its place and starts where the one before it ended; no two are of one kind. */
  predicate Story(turns: seq<Turn>) {
    && 2 <= |turns| <= 3
    && (forall k {:trigger Fits(k, turns[k])} | 0 <= k < |turns| :: Fits(k, turns[k]))
    && (forall k {:trigger Starts(turns, k)} | 0 <= k < |turns| :: Starts(turns, k))
    && (forall j, k | 0 <= j < k < |turns| :: turns[j].kind != turns[k].kind)
    && turns[|turns| - 1].kind == UNFREEZE
  }

  predicate Starts(turns: seq<Turn>, k: nat)
    requires k < |turns|
  {
    turns[k].from == if k == 0 then DRAINED else turns[k - 1].to
  }

  lemma PreviousPrecedes(turns: seq<Turn>, k: nat)
    requires k <= |turns| <= 3
    ensures Precedes(k, Previous(turns, k))
  {
    if k > 0 {
      assert Signed(k - 1, turns[k - 1], Previous(turns, k - 1)).document.ReceiptDocument?;
    }
  }

  function Exchanges(turns: seq<Turn>): seq<Exchange>
    requires |turns| <= 3
  {
    [FenceExchange()] + seq(|turns|, k requires 0 <= k < |turns| => TurnExchange(k, turns[k], Previous(turns, k)))
  }

  lemma TurnFollows(xs: seq<Exchange>, k: nat, t: Turn, previous: Digest)
    requires 0 < k < |xs| && k <= 3 && t.kind != WRITER_FENCE
    requires xs[0] == FenceExchange() && xs[k] == TurnExchange(k - 1, t, previous)
    requires previous == if k == 1 then ZERO else DigestOf(xs[k - 1].response.signed)
    ensures Follows(xs, k)
  {
  }

  lemma StoryIsAccepted(turns: seq<Turn>, k: nat)
    requires Story(turns) && 0 < k <= |turns|
    ensures Exchanges(turns)[k] == TurnExchange(k - 1, turns[k - 1], Previous(turns, k - 1))
    ensures Accepted(Exchanges(turns)[k]) && turns[k - 1].kind != WRITER_FENCE
  {
    assert Fits(k - 1, turns[k - 1]);
    PreviousPrecedes(turns, k - 1);
    TurnIsAccepted(k - 1, turns[k - 1], Previous(turns, k - 1));
  }

  lemma StoryFollows(turns: seq<Turn>, k: nat)
    requires Story(turns) && 0 < k <= |turns|
    ensures Accepted(Exchanges(turns)[k]) && Follows(Exchanges(turns), k)
  {
    StoryIsAccepted(turns, k);
    if k > 1 {
      StoryIsAccepted(turns, k - 1);
    }
    TurnFollows(Exchanges(turns), k, turns[k - 1], Previous(turns, k - 1));
  }

  lemma StoryIsConducted(turns: seq<Turn>)
    requires Story(turns)
    ensures Conducted(Exchanges(turns))
  {
    var xs := Exchanges(turns);
    FenceIsAccepted();
    forall k | 0 < k < |xs|
      ensures Accepted(xs[k]) && Follows(xs, k)
    {
      StoryFollows(turns, k);
    }
  }

  /** Its receipts and inventories, one by one. */
  predicate Tells(turns: seq<Turn>, fence: Envelope, invs: seq<Inventory>, ts: seq<Envelope>) {
    && |ts| == |invs| == |turns| <= 3 && fence == SignedFence()
    && forall k {:trigger Told(turns, invs, ts, k)} | 0 <= k < |turns| :: Told(turns, invs, ts, k)
  }

  predicate Told(turns: seq<Turn>, invs: seq<Inventory>, ts: seq<Envelope>, k: nat)
    requires k < |ts| == |invs| == |turns| <= 3
  {
    ts[k] == Signed(k, turns[k], Previous(turns, k)) && invs[k] == Inventoried(k, turns[k].revision)
  }

  lemma StoryVerifies(turns: seq<Turn>, fence: Envelope, invs: seq<Inventory>, ts: seq<Envelope>, k: nat)
    requires Story(turns) && Tells(turns, fence, invs, ts) && k < |turns|
    ensures Verified(ts[k], Ring(), NOW) && ts[k].kind == turns[k].kind != WRITER_FENCE && ValidInventory(invs[k], NOW)
  {
    assert Told(turns, invs, ts, k) && Fits(k, turns[k]);
    PreviousPrecedes(turns, k);
    TurnVerifies(k, turns[k], Previous(turns, k));
    InventoryIsValid(k, turns[k].revision);
  }

  lemma StoryInStep(turns: seq<Turn>, fence: Envelope, invs: seq<Inventory>, ts: seq<Envelope>, k: nat)
    requires Story(turns) && Tells(turns, fence, invs, ts) && k < |turns| && AllReceipts(ts)
    ensures InStep(fence, invs, ts, k)
  {
    assert Told(turns, invs, ts, k) && Fits(k, turns[k]) && Starts(turns, k);
    PreviousPrecedes(turns, k);
    if k > 0 {
      assert Told(turns, invs, ts, k - 1);
    }
    TurnInStep(fence, invs, ts, k, turns[k], Previous(turns, k));
  }

  lemma SignerNames(k: nat, t: Turn, previous: Digest)
    requires Fits(k, t)
    ensures var e := Signed(k, t, previous); var i := Inventoried(k, t.revision);
      && e.signerId == KeyOf(t.kind).signerId && BodyOf(e).transitionId == Letter(k) && i.body.inventoryId == Letter(k)
  {
  }

  /** Everybody signs once, and every id is new. */
  lemma TurnsDiffer(turns: seq<Turn>, fence: Envelope, invs: seq<Inventory>, ts: seq<Envelope>, j: nat, k: nat)
    requires Story(turns) && Tells(turns, fence, invs, ts) && AllReceipts(ts) && j < k < |turns|
    ensures ts[j].signerId != ts[k].signerId
    ensures BodyOf(ts[j]).transitionId != BodyOf(ts[k]).transitionId && invs[j].body.inventoryId != invs[k].body.inventoryId
  {
    assert Told(turns, invs, ts, j) && Told(turns, invs, ts, k) && Fits(j, turns[j]) && Fits(k, turns[k]);
    SignerNames(j, turns[j], Previous(turns, j));
    SignerNames(k, turns[k], Previous(turns, k));
  }

  lemma FenceSignerDiffers(turns: seq<Turn>, fence: Envelope, invs: seq<Inventory>, ts: seq<Envelope>, k: nat)
    requires Story(turns) && Tells(turns, fence, invs, ts) && k < |turns|
    ensures ts[k].signerId != fence.signerId
  {
    assert Told(turns, invs, ts, k) && Fits(k, turns[k]);
    SignerNames(k, turns[k], Previous(turns, k));
  }

  lemma StoryIsDistinct(turns: seq<Turn>, fence: Envelope, invs: seq<Inventory>, ts: seq<Envelope>)
    requires Story(turns) && Tells(turns, fence, invs, ts) && AllReceipts(ts)
    ensures SignersDistinct(fence, ts) && TransitionsDistinct(ts) && IdsDistinct(invs)
  {
    forall j, k | 0 <= j < k < |turns|
      ensures ts[j].signerId != ts[k].signerId
      ensures BodyOf(ts[j]).transitionId != BodyOf(ts[k]).transitionId && invs[j].body.inventoryId != invs[k].body.inventoryId
    {
      TurnsDiffer(turns, fence, invs, ts, j, k);
    }
    forall k | 0 <= k < |turns|
      ensures ts[k].signerId != fence.signerId
    {
      FenceSignerDiffers(turns, fence, invs, ts, k);
    }
  }

  lemma StoryIsConcluded(turns: seq<Turn>, fence: Envelope, invs: seq<Inventory>, ts: seq<Envelope>)
    requires Story(turns) && Tells(turns, fence, invs, ts) && AllReceipts(ts)
    ensures Concluded(ts)
  {
    assert Told(turns, invs, ts, |turns| - 1) && Fits(|turns| - 1, turns[|turns| - 1]);
  }

  lemma StoryRemains(turns: seq<Turn>, fence: Envelope, invs: seq<Inventory>, ts: seq<Envelope>)
    requires Story(turns) && Tells(turns, fence, invs, ts) && AllReceipts(ts)
    ensures Remaining(fence, invs, ts, Ring(), NOW)
  {
    FenceVerifies();
    StoryIsDistinct(turns, fence, invs, ts);
    StoryIsConcluded(turns, fence, invs, ts);
    forall k | 0 <= k < |turns|
      ensures Verified(ts[k], Ring(), NOW) && ts[k].kind != WRITER_FENCE && ValidInventory(invs[k], NOW)
    {
      StoryVerifies(turns, fence, invs, ts, k);
    }
    forall k | 0 <= k < |turns|
      ensures InStep(fence, invs, ts, k)
    {
      StoryInStep(turns, fence, invs, ts, k);
    }
  }

  lemma StoryIsTold(turns: seq<Turn>)
    requires Story(turns)
    ensures var xs := Exchanges(turns);
      && Conducted(xs) && (forall j | 0 < j < |xs| :: xs[j].response.inventory.Some?)
      && AllReceipts(ReceiptsOf(xs)) && Tells(turns, FenceOf(xs), InventoriesOf(xs), ReceiptsOf(xs))
  {
    var xs := Exchanges(turns);
    StoryIsConducted(turns);
    AllReceived(xs);
    forall k | 0 <= k < |turns|
      ensures Told(turns, InventoriesOf(xs), ReceiptsOf(xs), k)
    {
      assert xs[k + 1] == TurnExchange(k, turns[k], Previous(turns, k));
    }
  }

  /** The exchanges are accepted as a chain of these kinds. */
  ghost predicate AcceptedAs(xs: seq<Exchange>, r: Keyring, now: int, kinds: seq<Kind>) {
    && Conducted(xs) && AllReceipts(ReceiptsOf(xs)) && (forall j | 0 < j < |xs| :: xs[j].response.inventory.Some?)
    && LegalChain(FenceOf(xs), InventoriesOf(xs), ReceiptsOf(xs), r, now)
    && KindsOf(ReceiptsOf(xs)) == kinds
  }

  lemma ToldIsLegal(xs: seq<Exchange>, turns: seq<Turn>, kinds: seq<Kind>)
    requires Story(turns) && |kinds| == |turns| && forall k | 0 <= k < |turns| :: kinds[k] == turns[k].kind
    requires Conducted(xs) && (forall j | 0 < j < |xs| :: xs[j].response.inventory.Some?) && AllReceipts(ReceiptsOf(xs))
    requires Tells(turns, FenceOf(xs), InventoriesOf(xs), ReceiptsOf(xs))
    ensures AcceptedAs(xs, Ring(), NOW, kinds)
  {
    var fence, invs, ts := FenceOf(xs), InventoriesOf(xs), ReceiptsOf(xs);
    StoryRemains(turns, fence, invs, ts);
    ConductedChainIff(xs, Ring(), NOW);
    forall k | 0 <= k < |turns|
      ensures ts[k].kind == kinds[k]
    {
      StoryVerifies(turns, fence, invs, ts, k);
    }
  }

  /** Every such story is conducted through the broker and verified as a chain. */
  lemma StoryIsLegal(turns: seq<Turn>, kinds: seq<Kind>)
    requires Story(turns) && |kinds| == |turns| && forall k | 0 <= k < |turns| :: kinds[k] == turns[k].kind
    ensures AcceptedAs(Exchanges(turns), Ring(), NOW, kinds)
  {
    StoryIsTold(turns);
    ToldIsLegal(Exchanges(turns), turns, kinds);
  }

  // ---------- the two words ----------

  const TO_TARGET := Turn(CUTOVER, DRAINED, CUTOVER_COMMITTED, "r2")
  const STAY := Turn(UNFREEZE, CUTOVER_COMMITTED, TARGET_ACTIVE, "r2")
  const BACK := Turn(ROLLBACK, CUTOVER_COMMITTED, ROLLBACK_COMMITTED, "r1")
  const RETURN := Turn(UNFREEZE, ROLLBACK_COMMITTED, SOURCE_ACTIVE, "r1")

  lemma ForthIsStory(turns: seq<Turn>)
    requires turns == [TO_TARGET, STAY]
    ensures Story(turns)
  {
    assert Fits(0, turns[0]) && Fits(1, turns[1]) && Starts(turns, 0) && Starts(turns, 1);
  }

  lemma BackIsStory(turns: seq<Turn>)
    requires turns == [TO_TARGET, BACK, RETURN]
    ensures Story(turns)
  {
    assert Fits(0, turns[0]) && Fits(1, turns[1]) && Fits(2, turns[2]);
    assert Starts(turns, 0) && Starts(turns, 1) && Starts(turns, 2);
  }

  lemma ForthIsAccepted() returns (xs: seq<Exchange>)
    ensures AcceptedAs(xs, Ring(), NOW, [CUTOVER, UNFREEZE])
  {
    var turns := [TO_TARGET, STAY];
    ForthIsStory(turns);
    StoryIsLegal(turns, [CUTOVER, UNFREEZE]);
    xs := Exchanges(turns);
  }

  lemma BackIsAccepted() returns (xs: seq<Exchange>)
    ensures AcceptedAs(xs, Ring(), NOW, [CUTOVER, ROLLBACK, UNFREEZE])
  {
    var turns := [TO_TARGET, BACK, RETURN];
    BackIsStory(turns);
    StoryIsLegal(turns, [CUTOVER, ROLLBACK, UNFREEZE]);
    xs := Exchanges(turns);
  }

  /** Both words of the language are accepted. */
  lemma BothWordsAreAccepted() returns (forth: seq<Exchange>, back: seq<Exchange>, r: Keyring, now: int)
    ensures AcceptedAs(forth, r, now, [CUTOVER, UNFREEZE])
    ensures AcceptedAs(back, r, now, [CUTOVER, ROLLBACK, UNFREEZE])
  {
    forth := ForthIsAccepted();
    back := BackIsAccepted();
    r, now := Ring(), NOW;
  }
}
