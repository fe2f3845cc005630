/**
 What a materialized stack guarantees: the renaming is injective and keeps references resolving to the
 same documents, and the selectors of one revision match no pods of another.
 */
module StackLaws {
  import opened Common
  import opened StackTree
  import Names = ResourceNames
  import opened BlueGreenStack

  // ---------- places in a processed document ----------

  const NAME: seq<Step> := [Key("metadata"), Key("name")]
  const KIND: seq<Step> := [Key("kind")]

  /** A place that the stamping of names and labels does not touch. */
  predicate Ordinary(p: seq<Step>) {
    p != [] && p[0] != Key("metadata") && Key(REVISION) !in p && Key(RELEASE) !in p
  }

  lemma OrdinaryIsNotLabel(node: Node, p: seq<Step>)
    requires Key(REVISION) !in p
    ensures !BelowLabel(p) && !IsRevisionLabel(node, p)
  {
    forall j | 0 <= j < |p| - 3
      ensures !LabelSteps(p, j)
    {
      assert p[j + 2] in p;
    }
    if |p| >= 3 {
      assert p[|p| - 1] in p;
    }
  }

  lemma OrdinaryRest(p: seq<Step>)
    requires p != [] && Key(REVISION) !in p && Key(RELEASE) !in p
    ensures Key(REVISION) !in p[1..] && Key(RELEASE) !in p[1..]
  {
  }

  lemma MarkedText(labels: map<string, Node>, revision: string, release: string, q: seq<Step>)
    ensures Key(REVISION) !in q && Key(RELEASE) !in q ==> TextAt(Dict(Marked(labels, revision, release)), q) == TextAt(Dict(labels), q)
    ensures TextAt(Dict(Marked(labels, revision, release)), [Key(REVISION)]) == Some(revision)
  {
    UpdatedEntry(labels, REVISION, Text(revision), q);
    UpdatedEntry(labels[REVISION := Text(revision)], RELEASE, Text(release), q);
    if q != [] { assert q[0] in q; }
    UpdatedEntry(labels, REVISION, Text(revision), [Key(REVISION)]);
    UpdatedEntry(labels[REVISION := Text(revision)], RELEASE, Text(release), [Key(REVISION)]);
    TextOfText(revision, [Key(REVISION)][1..]);
  }

  /** A dictionary found or defaulted under a key reads the same either way. */
  lemma DefaultedText(m: map<string, Node>, key: string, rest: seq<Step>)
    ensures TextAt(if key in m then m[key] else Dict(map[]), rest) == TextAt(Dict(m), [Key(key)] + rest)
  {
    var p := [Key(key)] + rest;
    assert p[1..] == rest;
    EmptyHoldsNothing(rest);
  }

  lemma UpdatedPath(m: map<string, Node>, key: string, node: Node, rest: seq<Step>)
    ensures TextAt(Dict(m[key := node]), [Key(key)] + rest) == TextAt(node, rest)
  {
    assert ([Key(key)] + rest)[1..] == rest;
  }

  // ---------- a deployment's spec ----------

  const SELECTOR_LABELS: seq<Step> := [Key("selector"), Key("matchLabels")]
  const POD_LABELS: seq<Step> := [Key("template"), Key("metadata"), Key("labels")]

  lemma TemplateText(template: Node, revision: string, release: string, q: seq<Step>)
    requires MarkTemplate(template, revision, release).Some?
    ensures Key(REVISION) !in q && Key(RELEASE) !in q ==>
      TextAt(MarkTemplate(template, revision, release).value, q) == TextAt(template, q)
    ensures TextAt(MarkTemplate(template, revision, release).value, [Key("metadata"), Key("labels"), Key(REVISION)]) == Some(revision)
  {
    var m := template.entries["metadata"].entries;
    var labels := if "labels" in m then m["labels"] else Dict(map[]);
    var marked := Dict(Marked(labels.entries, revision, release));
    var meta := Dict(m["labels" := marked]);
    var place := [Key("metadata"), Key("labels"), Key(REVISION)];
    MarkedText(labels.entries, revision, release, []);
    UpdatedPath(m, "labels", marked, [Key(REVISION)]);
    UpdatedPath(template.entries, "metadata", meta, [Key("labels"), Key(REVISION)]);
    assert [Key("labels")] + [Key(REVISION)] == [Key("labels"), Key(REVISION)];
    assert [Key("metadata")] + [Key("labels"), Key(REVISION)] == place;
    if Key(REVISION) !in q && Key(RELEASE) !in q {
      UpdatedEntry(template.entries, "metadata", meta, q);
      if q != [] && q[0] == Key("metadata") {
        var q1 := q[1..];
        UpdatedEntry(m, "labels", marked, q1);
        if q1 != [] && q1[0] == Key("labels") {
          var q2 := q1[1..];
          OrdinaryRest(q);
          OrdinaryRest(q1);
          MarkedText(labels.entries, revision, release, q2);
          DefaultedText(m, "labels", q2);
          assert [Key("labels")] + q2 == q1;
        }
      }
    }
  }

  lemma SelectorText(selector: Node, revision: string, q: seq<Step>)
    requires WithRevision(selector, revision).Some?
    ensures Key(REVISION) !in q ==> TextAt(WithRevision(selector, revision).value, q) == TextAt(selector, q)
    ensures TextAt(WithRevision(selector, revision).value, [Key("matchLabels"), Key(REVISION)]) == Some(revision)
  {
    if Key(REVISION) !in q {
      assert |q| >= 2 ==> q[1] in q;
      RevisionAdded(selector, revision, q);
    }
    RevisionAdded(selector, revision, [Key("matchLabels"), Key(REVISION)]);
  }

  lemma MarkedSpec(spec: Node, revision: string, release: string, q: seq<Step>)
    requires MarkDeployment(spec, revision, release).Ok?
    ensures var marked := MarkDeployment(spec, revision, release).value;
      && (Key(REVISION) !in q && Key(RELEASE) !in q ==> TextAt(marked, q) == TextAt(spec, q))
      && TextAt(marked, SELECTOR_LABELS + [Key(REVISION)]) == Some(revision)
      && TextAt(marked, POD_LABELS + [Key(REVISION)]) == Some(revision)
  {
    var selector, template := Get(spec.entries, "selector"), Get(spec.entries, "template");
    var newSelector := WithRevision(selector, revision).value;
    var newTemplate := MarkTemplate(template, revision, release).value;
    var first := spec.entries["selector" := newSelector];
    SelectorText(selector, revision, []);
    TemplateText(template, revision, release, []);
    var toSelector := SELECTOR_LABELS + [Key(REVISION)];
    var toPods := POD_LABELS + [Key(REVISION)];
    assert toSelector[1..] == [Key("matchLabels"), Key(REVISION)];
    assert toPods[1..] == [Key("metadata"), Key("labels"), Key(REVISION)];
    UpdatedEntry(spec.entries, "selector", newSelector, toSelector);
    UpdatedEntry(first, "template", newTemplate, toSelector);
    UpdatedEntry(first, "template", newTemplate, toPods);
    if Key(REVISION) !in q && Key(RELEASE) !in q && q != [] {
      UpdatedEntry(spec.entries, "selector", newSelector, q);
      UpdatedEntry(first, "template", newTemplate, q);
      OrdinaryRest(q);
      SelectorText(selector, revision, q[1..]);
      TemplateText(template, revision, release, q[1..]);
    }
  }

  /** In a processed deployment's spec, selector and pods carry the revision, references read through the
      renames, and every other text is as it was. */
  lemma DeploymentSpec(spec: Node, r: Renames, revision: string, release: string, q: seq<Step>)
    requires ProcessDeployment(spec, r, revision, release).Ok?
    ensures var done := ProcessDeployment(spec, r, revision, release).value;
      && (Key(REVISION) !in q && Key(RELEASE) !in q ==> TextAt(done, q) == RenameFound(FormOf(q), r, TextAt(spec, q)))
      && TextAt(done, SELECTOR_LABELS + [Key(REVISION)]) == Some(revision)
      && TextAt(done, POD_LABELS + [Key(REVISION)]) == Some(revision)
  {
    var marked := MarkDeployment(spec, revision, release).value;
    MarkedSpec(spec, revision, release, q);
    if Key(REVISION) !in q && Key(RELEASE) !in q {
      OrdinaryIsNotLabel(marked, q);
      RewriteKeepsPlaces(marked, q, r, revision);
    }
    PlainLabel(marked, SELECTOR_LABELS + [Key(REVISION)], r, revision);
    PlainLabel(marked, POD_LABELS + [Key(REVISION)], r, revision);
  }

  /** A revision label outside label selectors reads the same after the rewriting. */
  lemma PlainLabel(node: Node, p: seq<Step>, r: Renames, revision: string)
    requires Rewrite(node, r, revision).Some? && TextAt(node, p) == Some(revision)
    requires p == SELECTOR_LABELS + [Key(REVISION)] || p == POD_LABELS + [Key(REVISION)]
    ensures TextAt(Rewrite(node, r, revision).value, p) == Some(revision)
  {
    assert !BelowLabel(p) by {
      if |p| > 3 { assert !LabelSteps(p, 0); }
    }
    RewriteKeepsPlaces(node, p, r, revision);
  }

  // ---------- a processed document ----------

  function NewName(res: Resource, c: Catalogue): string
    requires res.kind in VERSIONED ==> res.kind in c && res.name in c[res.kind]
  {
    if res.kind in VERSIONED then c[res.kind][res.name] else res.name
  }

  /** The documents, and the parts of a deployment, whose references are rewritten. */
  predicate Rewritten(kind: string, p: seq<Step>) {
    if kind == "Deployment" then p != [] && p[0] == Key("spec") else kind != "PodDisruptionBudget" && kind != "Service"
  }

  predicate CanProcess(doc: Node, c: Catalogue) {
    && c.Keys == VERSIONED && ResourceOf(doc).Ok?
    && var res := ResourceOf(doc).value; res.kind in VERSIONED ==> res.name in c[res.kind]
  }

  lemma ResourceText(doc: Node)
    requires ResourceOf(doc).Ok?
    ensures TextAt(doc, KIND) == Some(ResourceOf(doc).value.kind) && TextAt(doc, NAME) == Some(ResourceOf(doc).value.name)
    ensures doc.Dict?
  {
    assert KIND[1..] == [] && NAME[1..] == [Key("name")] && [Key("name")][1..] == [];
  }

  function Stamp(doc: Node, c: Catalogue, revision: string, release: string): map<string, Node>
    requires CanProcess(doc, c)
  {
    doc.entries["metadata" := Dict(StampedMetadata(MetadataOf(doc).value, ResourceOf(doc).value, c, revision, release))]
  }

  lemma StampText(doc: Node, c: Catalogue, revision: string, release: string, p: seq<Step>)
    requires CanProcess(doc, c)
    ensures p != [] && p[0] != Key("metadata") ==> TextAt(Dict(Stamp(doc, c, revision, release)), p) == TextAt(doc, p)
    ensures TextAt(Dict(Stamp(doc, c, revision, release)), KIND) == TextAt(doc, KIND)
    ensures TextAt(Dict(Stamp(doc, c, revision, release)), NAME) == Some(NewName(ResourceOf(doc).value, c))
  {
    var m := StampedMetadata(MetadataOf(doc).value, ResourceOf(doc).value, c, revision, release);
    UpdatedEntry(doc.entries, "metadata", Dict(m), p);
    UpdatedEntry(doc.entries, "metadata", Dict(m), KIND);
    UpdatedPath(doc.entries, "metadata", Dict(m), [Key("name")]);
    assert [Key("metadata")] + [Key("name")] == NAME;
    assert m["name"] == Text(NewName(ResourceOf(doc).value, c));
    TextOfText(NewName(ResourceOf(doc).value, c), [Key("name")][1..]);
  }

  lemma SpecText(doc: map<string, Node>, spec: Node, p: seq<Step>)
    ensures TextAt(Dict(doc["spec" := spec]), p)
      == if p != [] && p[0] == Key("spec") then TextAt(spec, p[1..]) else TextAt(Dict(doc), p)
    ensures TextAt(Dict(doc["spec" := spec]), KIND) == TextAt(Dict(doc), KIND)
    ensures TextAt(Dict(doc["spec" := spec]), NAME) == TextAt(Dict(doc), NAME)
  {
    UpdatedEntry(doc, "spec", spec, p);
    UpdatedEntry(doc, "spec", spec, KIND);
    UpdatedEntry(doc, "spec", spec, NAME);
  }

  lemma SpecOf(doc: map<string, Node>, q: seq<Step>)
    ensures TextAt(Dict(doc), [Key("spec")] + q) == TextAt(Get(doc, "spec"), q)
  {
    assert ([Key("spec")] + q)[1..] == q;
    if "spec" !in doc && q != [] {
      assert Child(Null, q[0]) == None;
    }
  }

  lemma FormUnderSpec(q: seq<Step>)
    ensures FormOf([Key("spec")] + q) == FormOf(q)
  {
  }

  /** What is expected at an untouched place of a processed document. */
  function ExpectedText(doc: Node, c: Catalogue, p: seq<Step>): Option<string>
    requires CanProcess(doc, c)
  {
    if Rewritten(ResourceOf(doc).value.kind, p) then RenameFound(FormOf(p), RenamesOf(c), TextAt(doc, p)) else TextAt(doc, p)
  }

  lemma ProcessedDeployment(doc: Node, c: Catalogue, revision: string, release: string, p: seq<Step>)
    requires CanProcess(doc, c) && Process(doc, c, revision, release).Ok? && ResourceOf(doc).value.kind == "Deployment"
    ensures var out := Process(doc, c, revision, release).value;
      && TextAt(out, KIND) == TextAt(doc, KIND) && TextAt(out, NAME) == Some(NewName(ResourceOf(doc).value, c))
      && (Ordinary(p) ==> TextAt(out, p) == ExpectedText(doc, c, p))
      && TextAt(out, [Key("spec")] + SELECTOR_LABELS + [Key(REVISION)]) == Some(revision)
      && TextAt(out, [Key("spec")] + POD_LABELS + [Key(REVISION)]) == Some(revision)
  {
    var stamped := Stamp(doc, c, revision, release);
    var spec := Get(stamped, "spec");
    var done := ProcessDeployment(spec, RenamesOf(c), revision, release).value;
    StampText(doc, c, revision, release, p);
    SpecText(stamped, done, p);
    DeploymentSpec(spec, RenamesOf(c), revision, release, []);
    SpecText(stamped, done, [Key("spec")] + SELECTOR_LABELS + [Key(REVISION)]);
    SpecText(stamped, done, [Key("spec")] + POD_LABELS + [Key(REVISION)]);
    assert ([Key("spec")] + SELECTOR_LABELS + [Key(REVISION)])[1..] == SELECTOR_LABELS + [Key(REVISION)];
    assert ([Key("spec")] + POD_LABELS + [Key(REVISION)])[1..] == POD_LABELS + [Key(REVISION)];
    if Ordinary(p) && p[0] == Key("spec") {
      var q := p[1..];
      OrdinaryRest(p);
      assert p == [Key("spec")] + q;
      DeploymentSpec(spec, RenamesOf(c), revision, release, q);
      SpecOf(stamped, q);
      FormUnderSpec(q);
    }
  }

  lemma ProcessedPdb(doc: Node, c: Catalogue, revision: string, release: string, p: seq<Step>)
    requires CanProcess(doc, c) && Process(doc, c, revision, release).Ok? && ResourceOf(doc).value.kind == "PodDisruptionBudget"
    ensures var out := Process(doc, c, revision, release).value;
      && TextAt(out, KIND) == TextAt(doc, KIND) && TextAt(out, NAME) == Some(NewName(ResourceOf(doc).value, c))
      && (Ordinary(p) ==> TextAt(out, p) == ExpectedText(doc, c, p))
      && TextAt(out, [Key("spec")] + SELECTOR_LABELS + [Key(REVISION)]) == Some(revision)
  {
    var stamped := Stamp(doc, c, revision, release);
    var spec := Get(stamped, "spec");
    var selector := WithRevision(Get(spec.entries, "selector"), revision).value;
    var done := ProcessPdb(spec, revision).value;
    var toLabel := [Key("spec")] + SELECTOR_LABELS + [Key(REVISION)];
    StampText(doc, c, revision, release, p);
    SpecText(stamped, done, p);
    SpecText(stamped, done, toLabel);
    assert toLabel[1..] == [Key("selector")] + [Key("matchLabels"), Key(REVISION)];
    UpdatedPath(spec.entries, "selector", selector, [Key("matchLabels"), Key(REVISION)]);
    SelectorText(Get(spec.entries, "selector"), revision, []);
    if Ordinary(p) && p[0] == Key("spec") {
      var q := p[1..];
      OrdinaryRest(p);
      assert p == [Key("spec")] + q;
      SpecOf(stamped, q);
      UpdatedEntry(spec.entries, "selector", selector, q);
      if q != [] {
        OrdinaryRest(q);
        SelectorText(Get(spec.entries, "selector"), revision, q[1..]);
        if q[0] == Key("selector") { NullSelector(spec.entries, q); }
      }
    }
  }

  lemma NullSelector(spec: map<string, Node>, q: seq<Step>)
    requires q != [] && q[0] == Key("selector")
    ensures TextAt(Dict(spec), q) == TextAt(Get(spec, "selector"), q[1..])
  {
    if "selector" !in spec && q[1..] != [] {
      assert Child(Null, q[1..][0]) == None;
    }
  }

  const SERVICE_SELECTOR: seq<Step> := [Key("spec"), Key("selector")]

  lemma ServiceSpec(spec: Node, revision: string, q: seq<Step>)
    requires Selecting(spec) && ProcessService(spec, revision).Ok?
    ensures Key(REVISION) !in q ==> TextAt(ProcessService(spec, revision).value, q) == TextAt(spec, q)
    ensures TextAt(ProcessService(spec, revision).value, [Key("selector"), Key(REVISION)]) == Some(revision)
  {
    var selector := spec.entries["selector"].entries;
    var marked := Dict(selector[REVISION := Text(revision)]);
    UpdatedPath(spec.entries, "selector", marked, [Key(REVISION)]);
    UpdatedEntry(selector, REVISION, Text(revision), [Key(REVISION)]);
    TextOfText(revision, [Key(REVISION)][1..]);
    assert [Key("selector")] + [Key(REVISION)] == [Key("selector"), Key(REVISION)];
    if Key(REVISION) !in q && q != [] {
      UpdatedEntry(spec.entries, "selector", marked, q);
      UpdatedEntry(selector, REVISION, Text(revision), q[1..]);
      assert |q| > 1 ==> q[1] in q;
    }
  }

  lemma ServiceSelectorText(doc: map<string, Node>, spec: Node, revision: string)
    requires Selecting(spec) && ProcessService(spec, revision).Ok?
    ensures TextAt(Dict(doc["spec" := ProcessService(spec, revision).value]), SERVICE_SELECTOR + [Key(REVISION)]) == Some(revision)
  {
    SpecText(doc, ProcessService(spec, revision).value, SERVICE_SELECTOR + [Key(REVISION)]);
    assert (SERVICE_SELECTOR + [Key(REVISION)])[1..] == [Key("selector"), Key(REVISION)];
    ServiceSpec(spec, revision, []);
  }

  lemma ProcessedServiceName(doc: Node, c: Catalogue, revision: string, release: string)
    requires CanProcess(doc, c) && Process(doc, c, revision, release).Ok? && ResourceOf(doc).value.kind == "Service"
    ensures var out := Process(doc, c, revision, release).value;
      TextAt(out, KIND) == TextAt(doc, KIND) && TextAt(out, NAME) == Some(NewName(ResourceOf(doc).value, c))
  {
    var stamped := Stamp(doc, c, revision, release);
    StampText(doc, c, revision, release, KIND);
    if Selecting(Get(stamped, "spec")) {
      var m := MetadataOf(doc).value;
      var labels := Dict(TrafficLabels(m["labels"].entries, revision));
      var meta := Dict(m["labels" := labels]);
      UpdatedEntry(stamped, "metadata", meta, KIND);
      UpdatedPath(stamped, "metadata", meta, [Key("name")]);
      assert [Key("metadata")] + [Key("name")] == NAME;
      UpdatedEntry(m, "labels", labels, [Key("name")]);
      ResourceText(doc);
      StampedName(doc);
    }
  }

  /** A service with a selector, as it is labelled and marked. */
  function MarkedService(stamped: map<string, Node>, m: map<string, Node>, revision: string): map<string, Node>
    requires "labels" in m && m["labels"].Dict?
    requires Selecting(Get(stamped, "spec")) && ProcessService(Get(stamped, "spec"), revision).Ok?
  {
    stamped["metadata" := Dict(m["labels" := Dict(TrafficLabels(m["labels"].entries, revision))])]
           ["spec" := ProcessService(Get(stamped, "spec"), revision).value]
  }

  lemma MarkedServiceText(stamped: map<string, Node>, m: map<string, Node>, revision: string, p: seq<Step>)
    requires "labels" in m && m["labels"].Dict?
    requires Selecting(Get(stamped, "spec")) && ProcessService(Get(stamped, "spec"), revision).Ok?
    ensures Ordinary(p) ==> TextAt(Dict(MarkedService(stamped, m, revision)), p) == TextAt(Dict(stamped), p)
    ensures TextAt(Dict(MarkedService(stamped, m, revision)), SERVICE_SELECTOR + [Key(REVISION)]) == Some(revision)
  {
    var meta := Dict(m["labels" := Dict(TrafficLabels(m["labels"].entries, revision))]);
    var spec := Get(stamped, "spec");
    UpdatedEntry(stamped, "metadata", meta, p);
    SpecText(stamped["metadata" := meta], ProcessService(spec, revision).value, p);
    ServiceSelectorText(stamped["metadata" := meta], spec, revision);
    if Ordinary(p) && p[0] == Key("spec") {
      ServiceSpecText(stamped, revision, p);
    }
  }

  lemma ProcessedService(doc: Node, c: Catalogue, revision: string, release: string, p: seq<Step>)
    requires CanProcess(doc, c) && Process(doc, c, revision, release).Ok? && ResourceOf(doc).value.kind == "Service"
    ensures var out := Process(doc, c, revision, release).value;
      && TextAt(out, KIND) == TextAt(doc, KIND) && TextAt(out, NAME) == Some(NewName(ResourceOf(doc).value, c))
      && (Ordinary(p) ==> TextAt(out, p) == ExpectedText(doc, c, p))
      && (Selecting(Get(doc.entries, "spec")) ==> TextAt(out, SERVICE_SELECTOR + [Key(REVISION)]) == Some(revision))
  {
    var stamped := Stamp(doc, c, revision, release);
    StampText(doc, c, revision, release, p);
    ProcessedServiceName(doc, c, revision, release);
    if Selecting(Get(stamped, "spec")) {
      var m := MetadataOf(doc).value;
      MarkedServiceText(stamped, m, revision, p);
      assert Process(doc, c, revision, release).value == Dict(MarkedService(stamped, m, revision));
    }
  }

  lemma ServiceSpecText(doc: map<string, Node>, revision: string, p: seq<Step>)
    requires Selecting(Get(doc, "spec")) && ProcessService(Get(doc, "spec"), revision).Ok?
    requires Ordinary(p) && p[0] == Key("spec")
    ensures TextAt(ProcessService(Get(doc, "spec"), revision).value, p[1..]) == TextAt(Dict(doc), p)
  {
    OrdinaryRest(p);
    ServiceSpec(Get(doc, "spec"), revision, p[1..]);
    SpecOf(doc, p[1..]);
    assert p == [Key("spec")] + p[1..];
  }

  lemma StampedName(doc: Node)
    requires ResourceOf(doc).Ok?
    ensures TextAt(Dict(MetadataOf(doc).value), [Key("name")]) == Some(ResourceOf(doc).value.name)
  {
    assert [Key("name")][1..] == [];
  }

  lemma ProcessedOther(doc: Node, c: Catalogue, revision: string, release: string, p: seq<Step>)
    requires CanProcess(doc, c) && Process(doc, c, revision, release).Ok?
    requires ResourceOf(doc).value.kind !in {"Deployment", "PodDisruptionBudget", "Service"}
    ensures var out := Process(doc, c, revision, release).value;
      && TextAt(out, KIND) == TextAt(doc, KIND) && TextAt(out, NAME) == Some(NewName(ResourceOf(doc).value, c))
      && (Ordinary(p) ==> TextAt(out, p) == ExpectedText(doc, c, p))
  {
    var stamped := Dict(Stamp(doc, c, revision, release));
    var r := RenamesOf(c);
    StampText(doc, c, revision, release, p);
    RewriteKeepsPlaces(stamped, KIND, r, revision);
    RewriteKeepsPlaces(stamped, NAME, r, revision);
    ResourceText(doc);
    if Ordinary(p) {
      OrdinaryIsNotLabel(stamped, p);
      RewriteKeepsPlaces(stamped, p, r, revision);
    }
  }

  /** In a processed document the kind stays, the name is the versioned one, every reference that is
      rewritten reads its target's new name, and every other text outside metadata and revision labels
      stays as it was. */
  lemma ProcessKeepsTexts(doc: Node, c: Catalogue, revision: string, release: string, p: seq<Step>)
    requires CanProcess(doc, c) && Process(doc, c, revision, release).Ok?
    ensures var out := Process(doc, c, revision, release).value;
      && TextAt(out, KIND) == TextAt(doc, KIND) && TextAt(out, NAME) == Some(NewName(ResourceOf(doc).value, c))
      && (Ordinary(p) ==> TextAt(out, p) == ExpectedText(doc, c, p))
  {
    var kind := ResourceOf(doc).value.kind;
    if kind == "Deployment" {
      ProcessedDeployment(doc, c, revision, release, p);
    } else if kind == "PodDisruptionBudget" {
      ProcessedPdb(doc, c, revision, release, p);
    } else if kind == "Service" {
      ProcessedService(doc, c, revision, release, p);
    } else {
      ProcessedOther(doc, c, revision, release, p);
    }
  }

  // ---------- references resolve as before ----------

  predicate IsResource(doc: Node, kind: string, name: string) {
    TextAt(doc, KIND) == Some(kind) && TextAt(doc, NAME) == Some(name)
  }

  /** The first document of a kind and name. */
  function Resolve(docs: seq<Node>, kind: string, name: string): (found: Option<nat>)
    ensures found.Some? ==> found.value < |docs| && IsResource(docs[found.value], kind, name)
    ensures found.Some? ==> forall i | 0 <= i < found.value :: !IsResource(docs[i], kind, name)
    ensures found.None? ==> forall i | 0 <= i < |docs| :: !IsResource(docs[i], kind, name)
  {
    if docs == [] then None
    else if IsResource(docs[0], kind, name) then Some(0)
    else Shift(Resolve(docs[1..], kind, name), 1)
  }

  predicate Materialized(docs: seq<Node>, revision: string, release: string, plan: Plan) {
    Names.Revision(revision) && Acceptable(docs, revision, release) && IsPlan(docs, revision, release, plan)
  }

  lemma DocumentAt(docs: seq<Node>, revision: string, release: string, plan: Plan, i: nat)
    requires Materialized(docs, revision, release, plan) && i < |docs|
    ensures CanProcess(docs[i], plan.names) && Process(docs[i], plan.names, revision, release) == Ok(plan.documents[i])
  {
    assert Process(docs[i], CatalogueOf(docs, revision), revision, release).Ok?;
  }

  /** Before and after, a document of a versioned kind has one name and its versioned name. */
  lemma ResourceBeforeAndAfter(docs: seq<Node>, revision: string, release: string, plan: Plan, i: nat, kind: string, name: string)
    requires Materialized(docs, revision, release, plan) && i < |docs| && kind in VERSIONED
    ensures IsResource(docs[i], kind, name) <==> ResourceOf(docs[i]) == Ok(Resource(kind, name))
    ensures IsResource(docs[i], kind, name) ==> name in plan.names[kind]
    ensures IsResource(plan.documents[i], kind, name)
      <==> exists was :: IsResource(docs[i], kind, was) && was in plan.names[kind] && plan.names[kind][was] == name
  {
    DocumentAt(docs, revision, release, plan, i);
    ProcessKeepsTexts(docs[i], plan.names, revision, release, []);
    ResourceText(docs[i]);
  }

  /** A reference by name, read through the renames, resolves to the same document after as before,
      exactly when it resolved before or its name is not the new name of another document. */
  lemma {:induction false} ResolutionKept(docs: seq<Node>, revision: string, release: string, plan: Plan, kind: string, name: string)
    requires Materialized(docs, revision, release, plan) && kind in VERSIONED
    ensures kind in plan.names && (name in plan.names[kind] <==> Resolve(docs, kind, name).Some?)
    ensures Resolve(plan.documents, kind, RenameIn(plan.names[kind], name)) == Resolve(docs, kind, name)
      <==> name in plan.names[kind] || forall m | m in plan.names[kind] :: plan.names[kind][m] != name
  {
    var names := plan.names[kind];
    CatalogueIsExact(docs, revision);
    var before := Resolve(docs, kind, name);
    var after := Resolve(plan.documents, kind, RenameIn(names, name));
    if name in names {
      KnownName(docs, revision, release, plan, kind, name);
    } else {
      UnknownName(docs, revision, release, plan, kind, name);
    }
  }

  lemma {:induction false} KnownName(docs: seq<Node>, revision: string, release: string, plan: Plan, kind: string, name: string)
    requires Materialized(docs, revision, release, plan) && kind in VERSIONED && name in plan.names[kind]
    ensures Resolve(docs, kind, name).Some?
    ensures Resolve(plan.documents, kind, plan.names[kind][name]) == Resolve(docs, kind, name)
  {
    var names := plan.names[kind];
    CatalogueIsExact(docs, revision);
    assert HasResource(docs, kind, name);
    var i :| 0 <= i < |docs| && ResourceOf(docs[i]) == Ok(Resource(kind, name));
    forall j | 0 <= j < |docs|
      ensures IsResource(docs[j], kind, name) <==> j == i
      ensures IsResource(plan.documents[j], kind, names[name]) <==> j == i
    {
      ResourceBeforeAndAfter(docs, revision, release, plan, j, kind, name);
      ResourceBeforeAndAfter(docs, revision, release, plan, j, kind, names[name]);
      OnlyOne(docs, revision, i, j);
    }
  }

  lemma OnlyOne(docs: seq<Node>, revision: string, i: nat, j: nat)
    requires |revision| < 62 && Listed(docs, revision) && i < |docs| && j < |docs|
    ensures ResourceOf(docs[i]) == ResourceOf(docs[j]) <==> i == j
  {
  }

  lemma {:induction false} UnknownName(docs: seq<Node>, revision: string, release: string, plan: Plan, kind: string, name: string)
    requires Materialized(docs, revision, release, plan) && kind in VERSIONED && name !in plan.names[kind]
    ensures Resolve(docs, kind, name).None?
    ensures Resolve(plan.documents, kind, name).None? <==> forall m | m in plan.names[kind] :: plan.names[kind][m] != name
  {
    var names := plan.names[kind];
    CatalogueIsExact(docs, revision);
    forall i | 0 <= i < |docs|
      ensures !IsResource(docs[i], kind, name)
      ensures IsResource(plan.documents[i], kind, name) <==> exists m :: IsResource(docs[i], kind, m) && m in names && names[m] == name
    {
      ResourceBeforeAndAfter(docs, revision, release, plan, i, kind, name);
    }
    forall m | m in names && names[m] == name
      ensures Resolve(plan.documents, kind, name).Some?
    {
      KnownName(docs, revision, release, plan, kind, m);
    }
  }

  /** The kind of document that a reference names. */
  function TargetKind(form: Form): string
    requires form != Plain
  {
    match form
    case ConfigMapName => "ConfigMap"
    case SecretProviderName => "SecretProviderClass"
    case DeploymentName => "Deployment"
  }

  lemma RenamedText(form: Form, c: Catalogue, name: string)
    requires form != Plain && c.Keys == VERSIONED
    ensures TargetKind(form) in VERSIONED
    ensures RenameText(form, RenamesOf(c), name) == RenameIn(c[TargetKind(form)], name)
  {
  }

  /** The text of a reference after the materialization. */
  lemma ReferenceAfter(docs: seq<Node>, revision: string, release: string, plan: Plan, i: nat, p: seq<Step>)
    requires Materialized(docs, revision, release, plan) && i < |docs|
    requires Ordinary(p) && FormOf(p) != Plain && TextAt(docs[i], p).Some?
    ensures ResourceOf(docs[i]).Ok? && TargetKind(FormOf(p)) in plan.names
    ensures var name := TextAt(docs[i], p).value;
      TextAt(plan.documents[i], p)
        == Some(if Rewritten(ResourceOf(docs[i]).value.kind, p) then RenameIn(plan.names[TargetKind(FormOf(p))], name) else name)
  {
    DocumentAt(docs, revision, release, plan, i);
    ProcessKeepsTexts(docs[i], plan.names, revision, release, p);
    RenamedText(FormOf(p), plan.names, TextAt(docs[i], p).value);
  }

  /** A reference that names a resource must be rewritten, unless the name is its own new name; one that
      names nothing must not be another's new name. */
  predicate KeepsTarget(names: map<string, string>, name: string, rewritten: bool) {
    if name in names then rewritten || names[name] == name else forall m | m in names :: names[m] != name
  }

  /** A name that was not read through the renames resolves as before exactly when it is its own new
      name, or names nothing before and after. */
  lemma {:induction false} UnchangedName(docs: seq<Node>, revision: string, release: string, plan: Plan, kind: string, name: string)
    requires Materialized(docs, revision, release, plan) && kind in VERSIONED
    ensures kind in plan.names
    ensures Resolve(plan.documents, kind, name) == Resolve(docs, kind, name) <==> KeepsTarget(plan.names[kind], name, false)
  {
    var names := plan.names[kind];
    if name in names {
      KnownName(docs, revision, release, plan, kind, name);
      var after := Resolve(plan.documents, kind, name);
      if after == Resolve(docs, kind, name) {
        ResourceBeforeAndAfter(docs, revision, release, plan, after.value, kind, name);
      }
    } else {
      UnknownName(docs, revision, release, plan, kind, name);
    }
  }

  /** A reference standing in a document resolves to the same document after as before exactly when it
      named a resource and was rewritten, or needed no rewriting, or named nothing and its name is no
      other document's new name. */
  lemma {:induction false} ReferenceResolves(docs: seq<Node>, revision: string, release: string, plan: Plan, i: nat, p: seq<Step>)
    requires Materialized(docs, revision, release, plan) && i < |docs|
    requires Ordinary(p) && FormOf(p) != Plain && TextAt(docs[i], p).Some?
    ensures TextAt(plan.documents[i], p).Some? && ResourceOf(docs[i]).Ok? && TargetKind(FormOf(p)) in plan.names
    ensures var kind, before := TargetKind(FormOf(p)), TextAt(docs[i], p).value;
      Resolve(plan.documents, kind, TextAt(plan.documents[i], p).value) == Resolve(docs, kind, before)
      <==> KeepsTarget(plan.names[kind], before, Rewritten(ResourceOf(docs[i]).value.kind, p))
  {
    var kind, before := TargetKind(FormOf(p)), TextAt(docs[i], p).value;
    ReferenceAfter(docs, revision, release, plan, i, p);
    if Rewritten(ResourceOf(docs[i]).value.kind, p) {
      ResolutionKept(docs, revision, release, plan, kind, before);
    } else {
      UnchangedName(docs, revision, release, plan, kind, before);
    }
  }

  /** A dangling reference is captured in every stack: the versioned name of any resource names nothing
      before, unless it was itself a resource, and names that resource after. */
  lemma {:induction false} DanglingIsCaptured(docs: seq<Node>, revision: string, release: string, plan: Plan, kind: string, name: string)
    requires Materialized(docs, revision, release, plan) && kind in VERSIONED && name in plan.names[kind]
    requires plan.names[kind][name] !in plan.names[kind]
    ensures var dangling := plan.names[kind][name];
      && Resolve(docs, kind, dangling).None?
      && Resolve(plan.documents, kind, RenameIn(plan.names[kind], dangling)) == Resolve(docs, kind, name)
      && Resolve(docs, kind, name).Some?
  {
    KnownName(docs, revision, release, plan, kind, name);
    UnknownName(docs, revision, release, plan, kind, plan.names[kind][name]);
  }

  lemma CataloguedName(docs: seq<Node>, revision: string, release: string, plan: Plan, kind: string, a: string)
    requires Materialized(docs, revision, release, plan) && kind in VERSIONED && a in plan.names[kind]
    ensures Names.VersionedName(a, revision) == Ok(plan.names[kind][a])
  {
    CatalogueIsExact(docs, revision);
    SourcedName(docs, plan.names, revision, kind, a);
  }

  lemma SourcedName(docs: seq<Node>, c: Catalogue, revision: string, kind: string, a: string)
    requires |revision| < 62 && c.Keys == VERSIONED && Sourced(docs, c, revision) && kind in VERSIONED && a in c[kind]
    ensures Names.VersionedName(a, revision) == Ok(c[kind][a])
  {
  }

  /** The new names: injective within a kind, DNS labels, and never names of another revision. */
  lemma NewNames(docs: seq<Node>, revision: string, release: string, plan: Plan, kind: string, a: string, b: string)
    requires Materialized(docs, revision, release, plan) && kind in VERSIONED && a in plan.names[kind] && b in plan.names[kind]
    ensures plan.names[kind][a] == plan.names[kind][b] ==> a == b
    ensures Names.DnsLabel(plan.names[kind][a])
    ensures forall other, name | Names.Revision(other) && other != revision && Names.VersionedName(name, other).Ok? ::
      Names.VersionedName(name, other).value != plan.names[kind][a]
  {
    CataloguedName(docs, revision, release, plan, kind, a);
    Names.VersionedIsLabel(a, revision);
    NeverOfAnotherRevision(a, revision, plan.names[kind][a]);
    assert Injective(plan.names[kind]);
  }

  lemma NeverOfAnotherRevision(a: string, revision: string, value: string)
    requires Names.Revision(revision) && Names.VersionedName(a, revision) == Ok(value)
    ensures forall other, name | Names.Revision(other) && other != revision && Names.VersionedName(name, other).Ok? ::
      Names.VersionedName(name, other).value != value
  {
    forall other, name | Names.Revision(other) && other != revision && Names.VersionedName(name, other).Ok?
      ensures Names.VersionedName(name, other).value != value
    {
      Names.RevisionsSeparateNames(a, revision, name, other);
    }
  }

  // ---------- revisions do not mix ----------

  /** A selector's labels select a pod with at least these labels. */
  predicate Matches(selector: map<string, Node>, labels: map<string, Node>) {
    forall k | k in selector :: k in labels && labels[k] == selector[k]
  }

  /** A match expression of a selector holds of a pod's labels. */
  predicate Satisfied(expression: Node, labels: map<string, Node>) {
    && expression.Dict? && Get(expression.entries, "key").Text?
    && var key := expression.entries["key"].text; var values := Get(expression.entries, "values");
       match Get(expression.entries, "operator")
       case Text("Exists") => key in labels
       case Text("DoesNotExist") => key !in labels
       case Text("In") => values.List? && key in labels && labels[key] in values.items
       case Text("NotIn") => values.List? && (key !in labels || labels[key] !in values.items)
       case _ => false
  }

  /** A selector with labels and expressions selects a pod that fits both. */
  predicate Selects(selector: Node, labels: map<string, Node>) {
    && selector.Dict?
    && (Get(selector.entries, "matchLabels").Dict? ==> Matches(selector.entries["matchLabels"].entries, labels))
    && (Get(selector.entries, "matchExpressions").List? ==>
          forall e | e in selector.entries["matchExpressions"].items :: Satisfied(e, labels))
  }

  /** A document selects pods with these labels: a service by labels alone. */
  predicate SelectsPods(doc: Node, labels: map<string, Node>) {
    var selector := At(doc, SERVICE_SELECTOR);
    selector.Some? && if TextAt(doc, KIND) == Some("Service") then selector.value.Dict? && Matches(selector.value.entries, labels)
                      else Selects(selector.value, labels)
  }

  /** Where a processed document selects pods. */
  function SelectorPlace(doc: Node): Option<seq<Step>> {
    if TextAt(doc, KIND) in {Some("Deployment"), Some("PodDisruptionBudget")} then Some([Key("spec")] + SELECTOR_LABELS)
    else if TextAt(doc, KIND) == Some("Service") && doc.Dict? && Selecting(Get(doc.entries, "spec")) then Some(SERVICE_SELECTOR)
    else None
  }

  lemma {:induction false} AtConcat(node: Node, p: seq<Step>, q: seq<Step>)
    ensures At(node, p + q) == match At(node, p) case None => None case Some(inner) => At(inner, q)
    decreases |p|
  {
    if p == [] {
      assert p + q == q;
    } else {
      assert (p + q)[1..] == p[1..] + q;
      if Child(node, p[0]).Some? {
        AtConcat(Child(node, p[0]).value, p[1..], q);
      }
    }
  }

  /** A label read at a place is an entry of the dictionary there. */
  lemma {:induction false} LabelOf(node: Node, p: seq<Step>, key: string, value: string)
    requires TextAt(node, p + [Key(key)]) == Some(value)
    ensures At(node, p).Some? && At(node, p).value.Dict?
    ensures key in At(node, p).value.entries && At(node, p).value.entries[key] == Text(value)
  {
    AtConcat(node, p, [Key(key)]);
    assert [Key(key)][1..] == [];
  }

  lemma SelectorsAreMarked(docs: seq<Node>, revision: string, release: string, plan: Plan, i: nat)
    requires Materialized(docs, revision, release, plan) && i < |docs| && SelectorPlace(docs[i]).Some?
    ensures TextAt(plan.documents[i], SelectorPlace(docs[i]).value + [Key(REVISION)]) == Some(revision)
  {
    DocumentAt(docs, revision, release, plan, i);
    ResourceText(docs[i]);
    var kind := ResourceOf(docs[i]).value.kind;
    if kind == "Deployment" {
      ProcessedDeployment(docs[i], plan.names, revision, release, []);
    } else if kind == "PodDisruptionBudget" {
      ProcessedPdb(docs[i], plan.names, revision, release, []);
    } else {
      ProcessedService(docs[i], plan.names, revision, release, []);
    }
  }

  lemma PodsAreMarked(docs: seq<Node>, revision: string, release: string, plan: Plan, i: nat)
    requires Materialized(docs, revision, release, plan) && i < |docs| && TextAt(docs[i], KIND) == Some("Deployment")
    ensures TextAt(plan.documents[i], [Key("spec")] + POD_LABELS + [Key(REVISION)]) == Some(revision)
  {
    DocumentAt(docs, revision, release, plan, i);
    ResourceText(docs[i]);
    ProcessedDeployment(docs[i], plan.names, revision, release, []);
  }

  lemma MarkedSelector(doc: Node, labels: map<string, Node>, revision: string, place: seq<Step>)
    requires place == SERVICE_SELECTOR || place == [Key("spec")] + SELECTOR_LABELS
    requires place == SERVICE_SELECTOR <==> TextAt(doc, KIND) == Some("Service")
    requires TextAt(doc, place + [Key(REVISION)]) == Some(revision) && SelectsPods(doc, labels)
    ensures REVISION in labels && labels[REVISION] == Text(revision)
  {
    LabelOf(doc, place, REVISION, revision);
    if place != SERVICE_SELECTOR {
      AtConcat(doc, SERVICE_SELECTOR, [Key("matchLabels")]);
      assert [Key("spec")] + SELECTOR_LABELS == SERVICE_SELECTOR + [Key("matchLabels")];
      var selector := At(doc, SERVICE_SELECTOR).value;
      assert [Key("matchLabels")][1..] == [];
      assert At(selector, [Key("matchLabels")]) == Child(selector, Key("matchLabels"));
    }
  }

  /** No deployment, disruption budget or service of one revision selects the pods of a deployment of
      another, by labels and match expressions. */
  lemma {:induction false} RevisionsDoNotMix(blue: seq<Node>, r1: string, release1: string, plan1: Plan, i: nat,
                          green: seq<Node>, r2: string, release2: string, plan2: Plan, j: nat)
    requires Materialized(blue, r1, release1, plan1) && Materialized(green, r2, release2, plan2) && r1 != r2
    requires i < |blue| && SelectorPlace(blue[i]).Some? && j < |green| && TextAt(green[j], KIND) == Some("Deployment")
    ensures var pods := At(plan2.documents[j], [Key("spec")] + POD_LABELS);
      && pods.Some? && pods.value.Dict?
      && !SelectsPods(plan1.documents[i], pods.value.entries)
  {
    SelectorsAreMarked(blue, r1, release1, plan1, i);
    PodsAreMarked(green, r2, release2, plan2, j);
    LabelOf(plan2.documents[j], [Key("spec")] + POD_LABELS, REVISION, r2);
    var labels := At(plan2.documents[j], [Key("spec")] + POD_LABELS).value.entries;
    DocumentAt(blue, r1, release1, plan1, i);
    ProcessKeepsTexts(blue[i], plan1.names, r1, release1, []);
    if SelectsPods(plan1.documents[i], labels) {
      MarkedSelector(plan1.documents[i], labels, r1, SelectorPlace(blue[i]).value);
    }
  }
}
