/**
 A small stack that is materialized: a reference in it is captured by the renaming, and selectors that ask
 for the labels which every pod gets lose their pods.
 */
module StackSample {
  import opened Common
  import opened Sorting
  import opened StackTree
  import Names = ResourceNames
  import opened BlueGreenStack
  import opened StackLaws
  import opened StackSelection

  const SAMPLE: string := "r-000000000000-00000000"
  const SAMPLE_RELEASE: string := "git:sha1:0000000000000000000000000000000000000000"

  function LabelPair(key: string, text: string): Node {
    Dict(map[key := Text(text)])
  }

  function Document(kind: string, name: string, spec: Node): Node {
    Dict(map["kind" := Text(kind), "metadata" := LabelPair("name", name), "spec" := spec])
  }

  /** A deployment that selects its pods by these labels, which they bear, and these expressions. */
  datatype Selection = Selection(labels: map<string, Node>, expressions: seq<Node>)

  const NOTHING := Selection(map[], [])

  /** Labels are texts, and expressions dictionaries of texts. */
  predicate TextOnly(s: Selection) {
    && TextEntries(s.labels)
    && forall i | 0 <= i < |s.expressions| :: s.expressions[i].Dict? && TextEntries(s.expressions[i].entries)
  }

  predicate TextEntries(m: map<string, Node>) {
    forall k | k in m :: k != "labelSelector" && m[k].Text?
  }

  function SelectorNode(labels: map<string, Node>, expressions: seq<Node>): Node {
    Dict(map["matchLabels" := Dict(labels), "matchExpressions" := List(expressions)])
  }

  function TemplateNode(labels: map<string, Node>): Node {
    Dict(map["metadata" := Dict(map["labels" := Dict(labels)])])
  }

  function WebSpec(s: Selection): Node {
    Dict(map["selector" := SelectorNode(s.labels, s.expressions), "template" := TemplateNode(s.labels)])
  }

  function Web(s: Selection): Node { Document("Deployment", "web", WebSpec(s)) }

  function WebService(): Node { Document("Service", "web", Dict(map["selector" := LabelPair("app", "web")])) }

  function Scaler(target: string): Node {
    Document("HorizontalPodAutoscaler", "web", Dict(map["scaleTargetRef" := LabelPair("name", target)]))
  }

  function Stack(s: Selection, target: string): seq<Node> { [Web(s), WebService(), Scaler(target)] }

  lemma Resources(s: Selection, target: string)
    ensures ResourceOf(Web(s)) == Ok(Resource("Deployment", "web"))
    ensures ResourceOf(WebService()) == Ok(Resource("Service", "web"))
    ensures ResourceOf(Scaler(target)) == Ok(Resource("HorizontalPodAutoscaler", "web"))
  {
  }

  lemma SampleName()
    ensures Names.Revision(SAMPLE) && Names.VersionedName("web", SAMPLE) == Ok("web-" + SAMPLE)
  {
    assert Names.DnsLabel("web");
    Names.VersionedIsLabel("web", SAMPLE);
    assert Names.Base("web", SAMPLE) == "web";
    assert "web" + "-" + SAMPLE == "web-" + SAMPLE;
  }

  function SampleNamesMap(): map<string, string> {
    map["web" := "web-" + SAMPLE]
  }

  lemma WebIsNamed(s: Selection)
    ensures AddName(EMPTY, Web(s), SAMPLE) == EMPTY["Deployment" := SampleNamesMap()]
  {
    SampleName();
    Resources(s, "");
    assert EMPTY["Deployment"] == map[];
  }

  lemma NotNamed(c: Catalogue, doc: Node)
    requires c.Keys == VERSIONED && ResourceOf(doc).Ok? && ResourceOf(doc).value.kind !in VERSIONED
    ensures AddName(c, doc, SAMPLE) == c
  {
  }

  lemma SampleIsListed(s: Selection, target: string)
    ensures Listed(Stack(s, target), SAMPLE)
  {
    SampleName();
    Resources(s, target);
  }

  lemma SampleCatalogue(s: Selection, target: string)
    ensures CatalogueOf(Stack(s, target), SAMPLE) == EMPTY["Deployment" := SampleNamesMap()]
  {
    var docs := Stack(s, target);
    var two, one := docs[..2], docs[..1];
    WebIsNamed(s);
    Resources(s, target);
    assert two[..1] == one && one[..0] == [] && docs[..|docs| - 1] == two;
    assert CatalogueOf([], SAMPLE) == EMPTY;
    assert CatalogueOf(one, SAMPLE) == AddName(EMPTY, Web(s), SAMPLE);
    NotNamed(CatalogueOf(one, SAMPLE), WebService());
    assert CatalogueOf(two, SAMPLE) == CatalogueOf(one, SAMPLE);
    NotNamed(CatalogueOf(two, SAMPLE), Scaler(target));
  }

  /** Without label selectors the rewriting cannot fail. */
  predicate NoLabelSelector(node: Node) {
    match node
    case List(items) => forall i | 0 <= i < |items| :: NoLabelSelector(items[i])
    case Dict(m) => forall k | k in m :: k != "labelSelector" && NoLabelSelector(m[k])
    case _ => true
  }

  lemma {:induction false} RewriteSucceeds(node: Node, r: Renames, revision: string)
    requires NoLabelSelector(node)
    ensures Rewrite(node, r, revision).Some?
  {
    match node
    case List(items) =>
      forall i | 0 <= i < |items|
        ensures Rewrite(items[i], r, revision).Some?
      {
        RewriteSucceeds(items[i], r, revision);
      }
    case Dict(m) =>
      forall k | k in m
        ensures Rewrite(m[k], r, revision).Some?
      {
        RewriteSucceeds(m[k], r, revision);
      }
    case _ =>
  }

  lemma TextsOnly(m: map<string, Node>)
    requires TextEntries(m)
    ensures NoLabelSelector(Dict(m))
  {
  }

  function MarkedSpec(s: Selection): Node {
    Dict(map["selector" := SelectorNode(s.labels[REVISION := Text(SAMPLE)], s.expressions),
             "template" := TemplateNode(Marked(s.labels, SAMPLE, SAMPLE_RELEASE))])
  }

  lemma SelectorIsMarked(s: Selection)
    ensures WithRevision(SelectorNode(s.labels, s.expressions), SAMPLE)
      == Some(SelectorNode(s.labels[REVISION := Text(SAMPLE)], s.expressions))
  {
    var labels := Dict(s.labels[REVISION := Text(SAMPLE)]);
    assert SelectorNode(s.labels, s.expressions).entries["matchLabels" := labels]
        == map["matchLabels" := labels, "matchExpressions" := List(s.expressions)];
  }

  lemma TemplateIsMarked(s: Selection)
    ensures MarkTemplate(TemplateNode(s.labels), SAMPLE, SAMPLE_RELEASE) == Some(TemplateNode(Marked(s.labels, SAMPLE, SAMPLE_RELEASE)))
  {
    var labels := Dict(Marked(s.labels, SAMPLE, SAMPLE_RELEASE));
    assert (map["labels" := Dict(s.labels)])["labels" := labels] == map["labels" := labels];
    var metadata := Dict(map["labels" := labels]);
    assert TemplateNode(s.labels).entries["metadata" := metadata] == map["metadata" := metadata];
  }

  lemma WebIsMarked(s: Selection)
    ensures MarkDeployment(WebSpec(s), SAMPLE, SAMPLE_RELEASE) == Ok(MarkedSpec(s))
  {
    SelectorIsMarked(s);
    TemplateIsMarked(s);
    var selector := SelectorNode(s.labels[REVISION := Text(SAMPLE)], s.expressions);
    var template := TemplateNode(Marked(s.labels, SAMPLE, SAMPLE_RELEASE));
    assert WebSpec(s).entries["selector" := selector]["template" := template] == map["selector" := selector, "template" := template];
  }

  lemma ExpressionsAreTexts(s: Selection)
    requires TextOnly(s)
    ensures NoLabelSelector(List(s.expressions))
  {
    forall i | 0 <= i < |s.expressions|
      ensures NoLabelSelector(s.expressions[i])
    {
      TextsOnly(s.expressions[i].entries);
    }
  }

  lemma WebHasNoLabelSelector(s: Selection)
    requires TextOnly(s)
    ensures NoLabelSelector(MarkedSpec(s))
  {
    TextsOnly(Marked(s.labels, SAMPLE, SAMPLE_RELEASE));
    TextsOnly(s.labels[REVISION := Text(SAMPLE)]);
    ExpressionsAreTexts(s);
    assert NoLabelSelector(SelectorNode(s.labels[REVISION := Text(SAMPLE)], s.expressions));
    assert NoLabelSelector(Dict(map["labels" := Dict(Marked(s.labels, SAMPLE, SAMPLE_RELEASE))]));
    assert NoLabelSelector(TemplateNode(Marked(s.labels, SAMPLE, SAMPLE_RELEASE)));
  }

  lemma WebIsProcessed(c: Catalogue, s: Selection)
    requires c.Keys == VERSIONED && "web" in c["Deployment"] && TextOnly(s)
    ensures ResourceOf(Web(s)).Ok? && Process(Web(s), c, SAMPLE, SAMPLE_RELEASE).Ok?
  {
    WebIsMarked(s);
    WebHasNoLabelSelector(s);
    RewriteSucceeds(MarkedSpec(s), RenamesOf(c), SAMPLE);
    Resources(s, "");
    assert Get(Stamp(Web(s), c, SAMPLE, SAMPLE_RELEASE), "spec") == WebSpec(s);
  }

  lemma ServiceIsProcessed(c: Catalogue)
    requires c.Keys == VERSIONED
    ensures ResourceOf(WebService()).Ok? && Process(WebService(), c, SAMPLE, SAMPLE_RELEASE).Ok?
  {
    Resources(NOTHING, "");
    var selector := LabelPair("app", "web");
    assert "app" in selector.entries;
    var spec := Dict(map["selector" := selector]);
    assert Selecting(spec) && ProcessService(spec, SAMPLE).Ok?;
    assert Get(Stamp(WebService(), c, SAMPLE, SAMPLE_RELEASE), "spec") == spec;
  }

  /** The scaler as it is rewritten. */
  function StampedScaler(target: string): Node {
    Dict(map["kind" := Text("HorizontalPodAutoscaler"),
             "metadata" := Dict(map["name" := Text("web"), "labels" := Dict(map[])]),
             "spec" := Dict(map["scaleTargetRef" := LabelPair("name", target)])])
  }

  lemma ScalerHasNoLabelSelector(target: string)
    ensures NoLabelSelector(StampedScaler(target))
  {
    TextsOnly(map[]);
    TextsOnly(map["name" := Text(target)]);
    var metadata := Dict(map["name" := Text("web"), "labels" := Dict(map[])]);
    assert NoLabelSelector(metadata);
    var spec := Dict(map["scaleTargetRef" := LabelPair("name", target)]);
    assert NoLabelSelector(spec);
  }

  lemma NewMetadata(kind: Node, was: Node, metadata: Node, spec: Node)
    ensures (map["kind" := kind, "metadata" := was, "spec" := spec])["metadata" := metadata]
         == map["kind" := kind, "metadata" := metadata, "spec" := spec]
  {
  }

  lemma ScalerMetadata(target: string)
    ensures MetadataOf(Scaler(target)) == Ok(map["name" := Text("web"), "labels" := Dict(map[])])
  {
    assert (map["name" := Text("web")])["labels" := Dict(map[])] == map["name" := Text("web"), "labels" := Dict(map[])];
  }

  lemma ScalerIsStamped(c: Catalogue, target: string)
    requires c.Keys == VERSIONED
    ensures ResourceOf(Scaler(target)) == Ok(Resource("HorizontalPodAutoscaler", "web"))
    ensures Dict(Stamp(Scaler(target), c, SAMPLE, SAMPLE_RELEASE)) == StampedScaler(target)
  {
    Resources(NOTHING, target);
    ScalerMetadata(target);
    NewMetadata(Text("HorizontalPodAutoscaler"), LabelPair("name", "web"), Dict(MetadataOf(Scaler(target)).value),
                Dict(map["scaleTargetRef" := LabelPair("name", target)]));
  }

  lemma ScalerIsProcessed(c: Catalogue, target: string)
    requires c.Keys == VERSIONED
    ensures ResourceOf(Scaler(target)).Ok? && Process(Scaler(target), c, SAMPLE, SAMPLE_RELEASE).Ok?
  {
    ScalerIsStamped(c, target);
    ScalerHasNoLabelSelector(target);
    RewriteSucceeds(StampedScaler(target), RenamesOf(c), SAMPLE);
  }

  lemma OneIsProcessed(c: Catalogue, s: Selection, target: string, doc: Node)
    requires c.Keys == VERSIONED && "web" in c["Deployment"] && TextOnly(s)
    requires doc == Web(s) || doc == WebService() || doc == Scaler(target)
    ensures CanProcess(doc, c) && Process(doc, c, SAMPLE, SAMPLE_RELEASE).Ok?
  {
    Resources(s, target);
    if doc == Web(s) {
      WebIsProcessed(c, s);
    } else if doc == WebService() {
      ServiceIsProcessed(c);
    } else {
      ScalerIsProcessed(c, target);
    }
  }

  lemma AllAreProcessed(c: Catalogue, s: Selection, target: string)
    requires c.Keys == VERSIONED && "web" in c["Deployment"] && TextOnly(s)
    ensures forall i | 0 <= i < 3 :: Process(Stack(s, target)[i], c, SAMPLE, SAMPLE_RELEASE).Ok?
  {
    forall i | 0 <= i < 3
      ensures Process(Stack(s, target)[i], c, SAMPLE, SAMPLE_RELEASE).Ok?
    {
      OneIsProcessed(c, s, target, Stack(s, target)[i]);
    }
  }

  lemma SampleNames(s: Selection, target: string)
    ensures forall kind | kind in VERSIONED :: Injective(CatalogueOf(Stack(s, target), SAMPLE)[kind])
    ensures "web" in CatalogueOf(Stack(s, target), SAMPLE)["Deployment"]
    ensures Named(Stack(s, target), CatalogueOf(Stack(s, target), SAMPLE))
  {
    SampleCatalogue(s, target);
    SampleIsListed(s, target);
    CatalogueIsExact(Stack(s, target), SAMPLE);
  }

  lemma SampleIsAcceptable(s: Selection, target: string)
    requires TextOnly(s)
    ensures Names.Revision(SAMPLE) && Acceptable(Stack(s, target), SAMPLE, SAMPLE_RELEASE)
  {
    SampleName();
    SampleIsListed(s, target);
    SampleNames(s, target);
    AllAreProcessed(CatalogueOf(Stack(s, target), SAMPLE), s, target);
    Collected(s, target);
  }

  /** The plan of an acceptable stack. */
  lemma PlanOf(docs: seq<Node>, revision: string, release: string) returns (plan: Plan)
    requires Names.Revision(revision) && Acceptable(docs, revision, release)
    ensures Materialized(docs, revision, release, plan)
  {
    var c := CatalogueOf(docs, revision);
    assert forall i | 0 <= i < |docs| :: Process(docs[i], c, revision, release).Ok?;
    var documents := seq(|docs|, i requires 0 <= i < |docs| => Process(docs[i], c, revision, release).value);
    plan := Plan(documents, revision, c, SortedOf(Elements(TrafficOf(docs))), SortedOf(Elements(WorkloadsOf(docs, c))));
  }

  /** The stack is materialized, and a scaler that names a deployment that does not exist, `web-r-...`,
      names the deployment `web` afterwards. */
  lemma SampleCapture() returns (plan: Plan)
    ensures Materialized(Stack(NOTHING, "web-" + SAMPLE), SAMPLE, SAMPLE_RELEASE, plan)
    ensures Resolve(Stack(NOTHING, "web-" + SAMPLE), "Deployment", "web-" + SAMPLE) == None
    ensures "Deployment" in plan.names
    ensures Resolve(plan.documents, "Deployment", RenameIn(plan.names["Deployment"], "web-" + SAMPLE)) == Some(0)
  {
    SampleIsAcceptable(NOTHING, "web-" + SAMPLE);
    plan := PlanOf(Stack(NOTHING, "web-" + SAMPLE), SAMPLE, SAMPLE_RELEASE);
    PlanCaptures(plan);
  }

  lemma PlanCaptures(plan: Plan)
    requires Materialized(Stack(NOTHING, "web-" + SAMPLE), SAMPLE, SAMPLE_RELEASE, plan)
    ensures Resolve(Stack(NOTHING, "web-" + SAMPLE), "Deployment", "web-" + SAMPLE) == None
    ensures "Deployment" in plan.names
    ensures Resolve(plan.documents, "Deployment", RenameIn(plan.names["Deployment"], "web-" + SAMPLE)) == Some(0)
  {
    var docs := Stack(NOTHING, "web-" + SAMPLE);
    SampleCatalogue(NOTHING, "web-" + SAMPLE);
    assert plan.names == CatalogueOf(docs, SAMPLE);
    assert |"web-" + SAMPLE| != |"web"|;
    DanglingIsCaptured(docs, SAMPLE, SAMPLE_RELEASE, plan, "Deployment", "web");
    Resources(NOTHING, "web-" + SAMPLE);
    ResourceText(Web(NOTHING));
    assert IsResource(docs[0], "Deployment", "web");
  }

  lemma Collected(s: Selection, target: string)
    ensures TrafficOf(Stack(s, target)) != []
    ensures forall c: Catalogue | c.Keys == VERSIONED && "web" in c["Deployment"] :: WorkloadsOf(Stack(s, target), c) != []
  {
    var docs := Stack(s, target);
    Resources(s, target);
    var two, one := docs[..2], docs[..1];
    assert two[..1] == one && one[..0] == [] && docs[..|docs| - 1] == two;
    assert TrafficOf(two) == TrafficOf(one) + ["web"];
    forall c: Catalogue | c.Keys == VERSIONED && "web" in c["Deployment"]
      ensures WorkloadsOf(docs, c) != []
    {
      assert WorkloadsOf(one, c) == [c["Deployment"]["web"]];
      assert WorkloadsOf(two, c) == WorkloadsOf(one, c) + [];
    }
  }

  // ---------- selectors that lose their pods ----------

  /** The deployment asks for a release id, and its pods bear it. */
  function FormerRelease(former: string): Selection {
    Selection(map[RELEASE := Text(former)], [])
  }

  function Unrevised(): Node {
    Dict(map["key" := Text(REVISION), "operator" := Text("DoesNotExist")])
  }

  /** The deployment asks for pods without a revision, and its pods have none. */
  const NO_REVISION := Selection(map[], [Unrevised()])

  lemma WebPlaces(s: Selection)
    ensures SelectorOf(Web(s)) == SelectorNode(s.labels, s.expressions)
    ensures Get(DictOf(SpecOfDoc(Web(s))), "template") == TemplateNode(s.labels)
  {
  }

  lemma WebIsDeployment(s: Selection)
    ensures IsDeployment(Web(s)) && SelectorPlace(Web(s)).Some?
  {
    Resources(s, "");
    ResourceText(Web(s));
  }

  lemma WebParts(s: Selection)
    ensures IsDeployment(Web(s)) && SelectorOf(Web(s)).Dict? && SelectorPlace(Web(s)).Some?
    ensures AskedLabels(Web(s)) == s.labels && Expressions(Web(s)) == s.expressions && PodLabels(Web(s)) == s.labels
  {
    WebIsDeployment(s);
    WebPlaces(s);
  }

  /** The stack is materialized, and its deployment selects its pods before, and after if it keeps them. */
  lemma WebSelection(s: Selection) returns (plan: Plan)
    requires TextOnly(s) && forall e | e in s.expressions :: Satisfied(e, s.labels)
    ensures Materialized(Stack(s, "web"), SAMPLE, SAMPLE_RELEASE, plan)
    ensures SelectsPods(Web(s), PodLabels(Web(s)))
    ensures SelectsPods(plan.documents[0], PodLabels(plan.documents[0])) <==> KeepsPods(Web(s), s.labels, SAMPLE, SAMPLE_RELEASE)
  {
    SampleIsAcceptable(s, "web");
    plan := PlanOf(Stack(s, "web"), SAMPLE, SAMPLE_RELEASE);
    WebParts(s);
    SelectsParts(Web(s), s.labels);
    assert Stack(s, "web")[0] == Web(s);
    DeploymentSelectsItsPods(Stack(s, "web"), SAMPLE, SAMPLE_RELEASE, plan, 0);
  }

  lemma FormerIsNotKept(former: string)
    requires former != SAMPLE_RELEASE
    ensures TextOnly(FormerRelease(former)) && FormerRelease(former).expressions == []
    ensures !KeepsPods(Web(FormerRelease(former)), FormerRelease(former).labels, SAMPLE, SAMPLE_RELEASE)
  {
    WebParts(FormerRelease(former));
  }

  /** A deployment that asks for another release id than the new one selects its pods before, and not
      after. */
  lemma ReleaseIdLosesPods(former: string) returns (plan: Plan)
    requires former != SAMPLE_RELEASE
    ensures var s := FormerRelease(former);
      && Materialized(Stack(s, "web"), SAMPLE, SAMPLE_RELEASE, plan)
      && SelectsPods(Web(s), PodLabels(Web(s))) && !SelectsPods(plan.documents[0], PodLabels(plan.documents[0]))
  {
    FormerIsNotKept(former);
    plan := WebSelection(FormerRelease(former));
  }

  lemma RevisionIsNotKept()
    ensures TextOnly(NO_REVISION) && forall e | e in NO_REVISION.expressions :: Satisfied(e, NO_REVISION.labels)
    ensures !KeepsPods(Web(NO_REVISION), NO_REVISION.labels, SAMPLE, SAMPLE_RELEASE)
  {
    WebParts(NO_REVISION);
    assert Unrevised() in NO_REVISION.expressions && AboutMarks(Unrevised());
    assert !Satisfied(Unrevised(), Marked(NO_REVISION.labels, SAMPLE, SAMPLE_RELEASE));
  }

  /** Neither does one that asks for pods without a revision. */
  lemma NoRevisionLosesPods() returns (plan: Plan)
    ensures Materialized(Stack(NO_REVISION, "web"), SAMPLE, SAMPLE_RELEASE, plan)
    ensures SelectsPods(Web(NO_REVISION), PodLabels(Web(NO_REVISION)))
    ensures !SelectsPods(plan.documents[0], PodLabels(plan.documents[0]))
  {
    RevisionIsNotKept();
    plan := WebSelection(NO_REVISION);
  }
}
