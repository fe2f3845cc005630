/**
 The materialization of a stack of Kubernetes documents for one release: versioned names, rewritten
 references, and selectors and labels that carry the revision.
 */
module BlueGreenStack {
  import opened Common
  import opened Sorting
  import opened StackTree
  import Names = ResourceNames

  datatype Error =
    | ReleaseInvalid
    | DocumentInvalid
    | MetadataInvalid
    | LabelsInvalid
    | ResourceInvalid
    | ResourceDuplicate
    | ResourceNameInvalid
    | NameCollision(kind: string)
    | SelectorInvalid
    | DeploymentInvalid
    | PdbInvalid
    | ServiceSelectorInvalid
    | WorkloadSetEmpty

  datatype Resource = Resource(kind: string, name: string)

  /** For each versioned kind, the new name of every resource. */
  type Catalogue = map<string, map<string, string>>

  const VERSIONED: set<string> := {"ConfigMap", "Deployment", "PodDisruptionBudget", "SecretProviderClass"}

  datatype Plan = Plan(
    documents: seq<Node>,
    revision: string,
    names: Catalogue,
    trafficServices: seq<string>,
    workloads: seq<string>)

  // ---------- one document ----------

  /** `_metadata`: the metadata with its labels, empty ones if there are none. */
  function MetadataOf(doc: Node): (result: Result<map<string, Node>, Error>)
    ensures result.Ok? ==> "labels" in result.value && result.value["labels"].Dict?
  {
    if !doc.Dict? || !Get(doc.entries, "metadata").Dict? then Err(MetadataInvalid)
    else
      var m := doc.entries["metadata"].entries;
      var labels := if "labels" in m then m["labels"] else Dict(map[]);
      if !labels.Dict? then Err(LabelsInvalid) else Ok(m["labels" := labels])
  }

  function ResourceOf(doc: Node): Result<Resource, Error> {
    match MetadataOf(doc)
    case Err(e) => Err(e)
    case Ok(m) =>
      if !Get(doc.entries, "kind").Text? || !Get(m, "name").Text? then Err(ResourceInvalid)
      else Ok(Resource(doc.entries["kind"].text, m["name"].text))
  }

  function RenamesOf(c: Catalogue): Renames
    requires c.Keys == VERSIONED
  {
    Renames(c["ConfigMap"], c["SecretProviderClass"], c["Deployment"])
  }

  function Marked(labels: map<string, Node>, revision: string, release: string): map<string, Node> {
    labels[REVISION := Text(revision)][RELEASE := Text(release)]
  }

  /** The document's metadata with its new name and its revision, if its kind is versioned. */
  function StampedMetadata(m: map<string, Node>, res: Resource, c: Catalogue, revision: string, release: string): map<string, Node>
    requires "labels" in m && m["labels"].Dict?
    requires res.kind in VERSIONED ==> res.kind in c && res.name in c[res.kind]
  {
    if res.kind in VERSIONED then
      m["name" := Text(c[res.kind][res.name])]["labels" := Dict(Marked(m["labels"].entries, revision, release))]
    else m
  }

  /** A pod template with the revision among its labels. */
  function MarkTemplate(template: Node, revision: string, release: string): Option<Node> {
    if !template.Dict? || !Get(template.entries, "metadata").Dict? then None
    else
      var m := template.entries["metadata"].entries;
      var labels := if "labels" in m then m["labels"] else Dict(map[]);
      if !labels.Dict? then None
      else Some(Dict(template.entries["metadata" := Dict(m["labels" := Dict(Marked(labels.entries, revision, release))])]))
  }

  /** A deployment's spec with the revision in its selector and in its pods, before the rewriting. */
  function MarkDeployment(spec: Node, revision: string, release: string): Result<Node, Error> {
    if !spec.Dict? then Err(DeploymentInvalid)
    else
      match WithRevision(Get(spec.entries, "selector"), revision)
      case None => Err(SelectorInvalid)
      case Some(selector) =>
        match MarkTemplate(Get(spec.entries, "template"), revision, release)
        case None => Err(DeploymentInvalid)
        case Some(template) => Ok(Dict(spec.entries["selector" := selector]["template" := template]))
  }

  function ProcessDeployment(spec: Node, r: Renames, revision: string, release: string): Result<Node, Error> {
    match MarkDeployment(spec, revision, release)
    case Err(e) => Err(e)
    case Ok(marked) =>
      match Rewrite(marked, r, revision) case None => Err(SelectorInvalid) case Some(done) => Ok(done)
  }

  function ProcessPdb(spec: Node, revision: string): Result<Node, Error> {
    if !spec.Dict? then Err(PdbInvalid)
    else
      match WithRevision(Get(spec.entries, "selector"), revision)
      case None => Err(SelectorInvalid)
      case Some(selector) => Ok(Dict(spec.entries["selector" := selector]))
  }

  /** Whether a service selects pods; one without a selector is left as it is. */
  predicate Selecting(spec: Node) {
    spec.Dict? && Get(spec.entries, "selector") != Null
  }

  function ProcessService(spec: Node, revision: string): Result<Node, Error>
    requires Selecting(spec)
  {
    var selector := spec.entries["selector"];
    if !selector.Dict? || selector.entries == map[] then Err(ServiceSelectorInvalid)
    else Ok(Dict(spec.entries["selector" := Dict(selector.entries[REVISION := Text(revision)])]))
  }

  function TrafficLabels(labels: map<string, Node>, revision: string): map<string, Node> {
    labels["agenttrust.io/apply-phase" := Text("traffic")]["agenttrust.io/traffic-target-revision" := Text(revision)]
  }

  /** Puts the result of processing the spec into the document. */
  function WithSpec(doc: map<string, Node>, spec: Result<Node, Error>): Result<Node, Error> {
    match spec case Err(e) => Err(e) case Ok(s) => Ok(Dict(doc["spec" := s]))
  }

  function Process(doc: Node, c: Catalogue, revision: string, release: string): Result<Node, Error>
    requires c.Keys == VERSIONED && ResourceOf(doc).Ok?
    requires var res := ResourceOf(doc).value; res.kind in VERSIONED ==> res.name in c[res.kind]
  {
    var res := ResourceOf(doc).value;
    var m := StampedMetadata(MetadataOf(doc).value, res, c, revision, release);
    var stamped := doc.entries["metadata" := Dict(m)];
    var spec := Get(stamped, "spec");
    if res.kind == "Deployment" then WithSpec(stamped, ProcessDeployment(spec, RenamesOf(c), revision, release))
    else if res.kind == "PodDisruptionBudget" then WithSpec(stamped, ProcessPdb(spec, revision))
    else if res.kind == "Service" then
      if !Selecting(spec) then Ok(Dict(stamped))
      else WithSpec(stamped["metadata" := Dict(m["labels" := Dict(TrafficLabels(m["labels"].entries, revision))])], ProcessService(spec, revision))
    else
      match Rewrite(Dict(stamped), RenamesOf(c), revision) case None => Err(SelectorInvalid) case Some(done) => Ok(done)
  }

  // ---------- all documents ----------

  const EMPTY: Catalogue := map kind | kind in VERSIONED :: map[]

  predicate NameFits(res: Resource, revision: string)
    requires |revision| < 62
  {
    res.kind in VERSIONED ==> Names.VersionedName(res.name, revision).Ok?
  }

  function AddName(c: Catalogue, doc: Node, revision: string): (d: Catalogue)
    requires c.Keys == VERSIONED && |revision| < 62
    ensures d.Keys == VERSIONED
  {
    if ResourceOf(doc).Ok? && ResourceOf(doc).value.kind in VERSIONED && NameFits(ResourceOf(doc).value, revision) then
      var res := ResourceOf(doc).value;
      c[res.kind := c[res.kind][res.name := Names.VersionedName(res.name, revision).value]]
    else c
  }

  function CatalogueOf(docs: seq<Node>, revision: string): (c: Catalogue)
    requires |revision| < 62
    ensures c.Keys == VERSIONED
  {
    if docs == [] then EMPTY else AddName(CatalogueOf(docs[..|docs| - 1], revision), docs[|docs| - 1], revision)
  }

  predicate Injective(m: map<string, string>) {
    forall a, b | a in m && b in m && m[a] == m[b] :: a == b
  }

  /** Every document names a resource of its own, in a form that can be versioned. */
  predicate Listed(docs: seq<Node>, revision: string)
    requires |revision| < 62
  {
    && (forall i | 0 <= i < |docs| :: ResourceOf(docs[i]).Ok? && NameFits(ResourceOf(docs[i]).value, revision))
    && (forall i, j | 0 <= i < j < |docs| :: ResourceOf(docs[i]) != ResourceOf(docs[j]))
  }

  predicate Named(docs: seq<Node>, c: Catalogue) {
    && c.Keys == VERSIONED
    && forall i | 0 <= i < |docs| ::
         ResourceOf(docs[i]).Ok? && var res := ResourceOf(docs[i]).value; res.kind in VERSIONED ==> res.name in c[res.kind]
  }

  function TrafficName(doc: Node): seq<string> {
    if ResourceOf(doc).Ok? && ResourceOf(doc).value.kind == "Service" && Selecting(Get(doc.entries, "spec"))
    then [ResourceOf(doc).value.name] else []
  }

  function TrafficOf(docs: seq<Node>): seq<string> {
    if docs == [] then [] else TrafficOf(docs[..|docs| - 1]) + TrafficName(docs[|docs| - 1])
  }

  function WorkloadName(doc: Node, c: Catalogue): seq<string>
    requires c.Keys == VERSIONED
  {
    if ResourceOf(doc).Ok? && ResourceOf(doc).value.kind == "Deployment" && ResourceOf(doc).value.name in c["Deployment"]
    then [c["Deployment"][ResourceOf(doc).value.name]] else []
  }

  function WorkloadsOf(docs: seq<Node>, c: Catalogue): seq<string>
    requires c.Keys == VERSIONED
  {
    if docs == [] then [] else WorkloadsOf(docs[..|docs| - 1], c) + WorkloadName(docs[|docs| - 1], c)
  }

  /** The stacks that are materialized. */
  predicate Acceptable(docs: seq<Node>, revision: string, release: string)
    requires |revision| < 62
  {
    var c := CatalogueOf(docs, revision);
    && docs != [] && (forall i | 0 <= i < |docs| :: docs[i].Dict?)
    && Listed(docs, revision)
    && (forall kind | kind in VERSIONED :: Injective(c[kind]))
    && Named(docs, c)
    && (forall i | 0 <= i < |docs| :: Process(docs[i], c, revision, release).Ok?)
    && TrafficOf(docs) != [] && WorkloadsOf(docs, c) != []
  }

  predicate HasResource(docs: seq<Node>, kind: string, name: string) {
    exists i :: 0 <= i < |docs| && ResourceOf(docs[i]) == Ok(Resource(kind, name))
  }

  /** A name of the catalogue is that of a document, with its versioned name. */
  predicate Sourced(docs: seq<Node>, c: Catalogue, revision: string)
    requires |revision| < 62 && c.Keys == VERSIONED
  {
    forall kind, name | kind in VERSIONED && name in c[kind] ::
      Names.VersionedName(name, revision) == Ok(c[kind][name]) && HasResource(docs, kind, name)
  }

  lemma HasResourceNext(front: seq<Node>, doc: Node, kind: string, name: string)
    ensures HasResource(front, kind, name) ==> HasResource(front + [doc], kind, name)
    ensures ResourceOf(doc) == Ok(Resource(kind, name)) ==> HasResource(front + [doc], kind, name)
  {
    if HasResource(front, kind, name) {
      var i :| 0 <= i < |front| && ResourceOf(front[i]) == Ok(Resource(kind, name));
      assert (front + [doc])[i] == front[i];
    }
    assert (front + [doc])[|front|] == doc;
  }

  lemma AddNameSourced(front: seq<Node>, doc: Node, c: Catalogue, revision: string)
    requires |revision| < 62 && c.Keys == VERSIONED && Sourced(front, c, revision)
    ensures Sourced(front + [doc], AddName(c, doc, revision), revision)
  {
    var d := AddName(c, doc, revision);
    forall kind, name | kind in VERSIONED && name in d[kind]
      ensures Names.VersionedName(name, revision) == Ok(d[kind][name]) && HasResource(front + [doc], kind, name)
    {
      HasResourceNext(front, doc, kind, name);
    }
  }

  lemma AddNameNamed(front: seq<Node>, doc: Node, c: Catalogue, revision: string)
    requires |revision| < 62 && Named(front, c) && ResourceOf(doc).Ok? && NameFits(ResourceOf(doc).value, revision)
    ensures Named(front + [doc], AddName(c, doc, revision))
  {
    assert (front + [doc])[|front|] == doc && forall i | 0 <= i < |front| :: (front + [doc])[i] == front[i];
  }

  /** The names catalogued are exactly those of the documents, each with its versioned name. */
  lemma {:induction false} CatalogueIsExact(docs: seq<Node>, revision: string)
    requires |revision| < 62 && Listed(docs, revision)
    ensures Named(docs, CatalogueOf(docs, revision))
    ensures Sourced(docs, CatalogueOf(docs, revision), revision)
  {
    if docs != [] {
      var front, doc := docs[..|docs| - 1], docs[|docs| - 1];
      CatalogueIsExact(front, revision);
      AddNameSourced(front, doc, CatalogueOf(front, revision), revision);
      AddNameNamed(front, doc, CatalogueOf(front, revision), revision);
      assert docs == front + [doc];
    }
  }

  // ---------- the materialization ----------

  /** As many values as keys: no two names were versioned alike. */
  lemma {:induction false} SameSizeIsInjective(m: map<string, string>)
    ensures |m.Values| <= |m|
    ensures |m.Values| == |m| <==> Injective(m)
    decreases |m|
  {
    if m == map[] {
      assert m.Values == {};
    } else {
      var k :| k in m;
      var rest := m - {k};
      SameSizeIsInjective(rest);
      assert m.Keys == rest.Keys + {k} && |m| == |rest| + 1;
      assert m.Values == rest.Values + {m[k]} by {
        forall v | v in m.Values
          ensures v in rest.Values + {m[k]}
        {
          var a :| a in m && m[a] == v;
          if a != k { assert a in rest && rest[a] == v; }
        }
      }
      assert forall a | a in rest :: rest[a] == m[a];
      if m[k] in rest.Values {
        var a :| a in rest && rest[a] == m[k];
        assert !Injective(m);
      } else {
        assert forall a | a in rest :: rest[a] in rest.Values;
        assert Injective(m) <==> Injective(rest);
      }
    }
  }

  function ResourcesOf(docs: seq<Node>): set<Resource> {
    set k | 0 <= k < |docs| && ResourceOf(docs[k]).Ok? :: ResourceOf(docs[k]).value
  }

  lemma ListedNext(front: seq<Node>, doc: Node, revision: string)
    requires |revision| < 62 && Listed(front, revision)
    ensures Listed(front + [doc], revision)
      <==> ResourceOf(doc).Ok? && NameFits(ResourceOf(doc).value, revision) && ResourceOf(doc).value !in ResourcesOf(front)
    ensures ResourceOf(doc).Ok? ==> ResourcesOf(front + [doc]) == ResourcesOf(front) + {ResourceOf(doc).value}
  {
    var docs := front + [doc];
    assert docs[|front|] == doc && forall k | 0 <= k < |front| :: docs[k] == front[k];
  }

  lemma ListedPrefix(docs: seq<Node>, n: nat, revision: string)
    requires |revision| < 62 && n <= |docs|
    ensures Listed(docs, revision) ==> Listed(docs[..n], revision)
  {
  }

  /** One turn of the first loop. */
  method Enter(c: Catalogue, seen: set<Resource>, doc: Node, revision: string) returns (result: Result<Catalogue, Error>)
    requires |revision| < 62 && c.Keys == VERSIONED
    ensures result.Ok? <==> ResourceOf(doc).Ok? && NameFits(ResourceOf(doc).value, revision) && ResourceOf(doc).value !in seen
    ensures result.Ok? ==> result.value == AddName(c, doc, revision)
  {
    var resource := ResourceOf(doc);
    if resource.Err? {
      return Err(resource.error);
    }
    if resource.value in seen {
      return Err(ResourceDuplicate);
    }
    if resource.value.kind !in VERSIONED {
      return Ok(c);
    }
    var name := Names.VersionedName(resource.value.name, revision);
    if name.Err? {
      return Err(ResourceNameInvalid);
    }
    return Ok(c[resource.value.kind := c[resource.value.kind][resource.value.name := name.value]]);
  }

  lemma CatalogueStep(front: seq<Node>, doc: Node, revision: string, docs: seq<Node>)
    requires |revision| < 62 && docs == front + [doc]
    ensures CatalogueOf(docs, revision) == AddName(CatalogueOf(front, revision), doc, revision)
  {
    assert docs[..|docs| - 1] == front;
  }

  method Catalogued(docs: seq<Node>, revision: string) returns (result: Result<Catalogue, Error>)
    requires |revision| < 62
    ensures result.Ok? <==> Listed(docs, revision) && forall kind | kind in VERSIONED :: Injective(CatalogueOf(docs, revision)[kind])
    ensures result.Ok? ==> result.value == CatalogueOf(docs, revision)
  {
    var c := EMPTY;
    var seen: set<Resource> := {};
    for i := 0 to |docs|
      invariant c == CatalogueOf(docs[..i], revision)
      invariant Listed(docs[..i], revision)
      invariant seen == ResourcesOf(docs[..i])
    {
      assert docs[..i + 1] == docs[..i] + [docs[i]];
      CatalogueStep(docs[..i], docs[i], revision, docs[..i + 1]);
      ListedNext(docs[..i], docs[i], revision);
      ListedPrefix(docs, i + 1, revision);
      var entered := Enter(c, seen, docs[i], revision);
      if entered.Err? {
        return Err(entered.error);
      }
      c := entered.value;
      seen := seen + {ResourceOf(docs[i]).value};
    }
    assert docs[..|docs|] == docs;
    var collision := FindCollision(c);
    if collision.Some? {
      return Err(NameCollision(collision.value));
    }
    return Ok(c);
  }

  method FindCollision(c: Catalogue) returns (collision: Option<string>)
    requires c.Keys == VERSIONED
    ensures collision.None? <==> forall kind | kind in VERSIONED :: Injective(c[kind])
  {
    forall kind | kind in VERSIONED
      ensures |c[kind].Values| == |c[kind]| <==> Injective(c[kind])
    {
      SameSizeIsInjective(c[kind]);
    }
    if kind :| kind in VERSIONED && |c[kind].Values| != |c[kind]| {
      return Some(kind);
    }
    return None;
  }

  method ProcessAll(docs: seq<Node>, c: Catalogue, revision: string, release: string) returns (result: Result<Plan, Error>)
    requires Named(docs, c)
    ensures result.Ok? <==> forall i | 0 <= i < |docs| :: Process(docs[i], c, revision, release).Ok?
    ensures result.Ok? ==> var plan := result.value;
      && |plan.documents| == |docs|
      && (forall i | 0 <= i < |docs| :: Process(docs[i], c, revision, release) == Ok(plan.documents[i]))
      && plan == Plan(plan.documents, revision, c, TrafficOf(docs), WorkloadsOf(docs, c))
  {
    var done: seq<Node> := [];
    var traffic: seq<string> := [];
    var workloads: seq<string> := [];
    for i := 0 to |docs|
      invariant |done| == i
      invariant forall k | 0 <= k < i :: Process(docs[k], c, revision, release) == Ok(done[k])
      invariant traffic == TrafficOf(docs[..i]) && workloads == WorkloadsOf(docs[..i], c)
    {
      var doc := docs[i];
      assert docs[..i + 1][..i] == docs[..i] && docs[..i + 1][i] == doc;
      assert TrafficOf(docs[..i + 1]) == traffic + TrafficName(doc);
      assert WorkloadsOf(docs[..i + 1], c) == workloads + WorkloadName(doc, c);
      var processed := Process(doc, c, revision, release);
      if processed.Err? {
        return Err(processed.error);
      }
      done := done + [processed.value];
      var resource := ResourceOf(doc).value;
      if resource.kind == "Deployment" {
        workloads := workloads + [c["Deployment"][resource.name]];
      } else if resource.kind == "Service" && Selecting(Get(doc.entries, "spec")) {
        traffic := traffic + [resource.name];
      }
    }
    assert docs[..|docs|] == docs;
    return Ok(Plan(done, revision, c, traffic, workloads));
  }

  /** The plan of a stack: each document processed under the catalogue of all of them, and the names of the
      services that select pods and of the deployments, sorted. */
  predicate IsPlan(docs: seq<Node>, revision: string, release: string, plan: Plan)
    requires |revision| < 62 && Acceptable(docs, revision, release)
  {
    var c := CatalogueOf(docs, revision);
    && |plan.documents| == |docs|
    && (forall i | 0 <= i < |docs| :: Process(docs[i], c, revision, release) == Ok(plan.documents[i]))
    && plan.revision == revision && plan.names == c
    && IsSorted(plan.trafficServices, Elements(TrafficOf(docs)))
    && IsSorted(plan.workloads, Elements(WorkloadsOf(docs, c)))
  }

  function ReleaseText(release: Names.ReleaseId): string {
    release.algorithm + ":" + release.digest
  }

  method Materialize(docs: seq<Node>, release: Names.ReleaseId, digest: string) returns (result: Result<Plan, Error>)
    ensures Names.ReleaseRevision(release, digest).Err? ==> result == Err(ReleaseInvalid)
    ensures Names.ReleaseRevision(release, digest).Ok? ==> var revision := Names.ReleaseRevision(release, digest).value;
      && |revision| < 62
      && (result.Ok? <==> Acceptable(docs, revision, ReleaseText(release)))
      && (result.Ok? ==> IsPlan(docs, revision, ReleaseText(release), result.value))
  {
    var named := Names.ReleaseRevision(release, digest);
    if named.Err? {
      return Err(ReleaseInvalid);
    }
    var revision := named.value;
    Names.RevisionsAgree(release, digest, release, digest);
    if docs == [] || exists i | 0 <= i < |docs| :: !docs[i].Dict? {
      return Err(DocumentInvalid);
    }
    var catalogue := Catalogued(docs, revision);
    if catalogue.Err? {
      return Err(catalogue.error);
    }
    CatalogueIsExact(docs, revision);
    var processed := ProcessAll(docs, catalogue.value, revision, ReleaseText(release));
    if processed.Err? {
      return processed;
    }
    var plan := processed.value;
    if plan.trafficServices == [] || plan.workloads == [] {
      return Err(WorkloadSetEmpty);
    }
    var traffic := Sorted(Elements(plan.trafficServices));
    var workloads := Sorted(Elements(plan.workloads));
    return Ok(plan.(trafficServices := traffic, workloads := workloads));
  }
}
