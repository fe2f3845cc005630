/**
 The plan of a materialized stack in the terms of its documents: which labels they and their pods bear
 afterwards, what the selectors ask for, and what the plan lists.
 */
module StackPlan {
  import opened Common
  import opened Sorting
  import opened StackTree
  import Names = ResourceNames
  import opened BlueGreenStack
  import opened StackLaws

  // ---------- names ----------

  /** The revision of a release, ... */
  lemma RevisionIs(release: Names.ReleaseId, digest: string)
    ensures Names.ReleaseRevision(release, digest).Ok? <==>
      && ((release.algorithm == "git:sha1" && |release.digest| == 40) || (release.algorithm == "git:sha256" && |release.digest| == 64))
      && (forall i | 0 <= i < |release.digest| :: '0' <= release.digest[i] <= '9' || 'a' <= release.digest[i] <= 'f')
      && |digest| == 64 && (forall i | 0 <= i < |digest| :: '0' <= digest[i] <= '9' || 'a' <= digest[i] <= 'f')
    ensures Names.ReleaseRevision(release, digest).Ok? ==>
      Names.ReleaseRevision(release, digest).value == "r-" + release.digest[..12] + "-" + digest[..8]
  {
  }

  lemma LabelIff(name: string)
    ensures Names.DnsLabel(name) <==>
      && 1 <= |name| <= 63 && name[0] != '-' && name[|name| - 1] != '-'
      && forall i | 0 <= i < |name| :: 'a' <= name[i] <= 'z' || '0' <= name[i] <= '9' || name[i] == '-'
  {
  }

  /** ... and the name of a resource for a revision: its first 39 characters without trailing dashes, a dash and the
      revision. */
  lemma VersionedIs(name: string, revision: string) returns (base: string)
    requires Names.Revision(revision) && Names.DnsLabel(name)
    ensures Names.VersionedName(name, revision) == Ok(base + "-" + revision)
    ensures base <= name && 1 <= |base| <= 39 && base[|base| - 1] != '-'
    ensures forall i | |base| <= i < |name| && i < 39 :: name[i] == '-'
  {
    Names.VersionedIsLabel(name, revision);
    Names.BaseOfLabel(name, revision);
    base := Names.Base(name, revision);
  }

  // ---------- documents ----------

  /** What a document is the resource of. */
  lemma ResourceIff(doc: Node, kind: string, name: string)
    ensures ResourceOf(doc) == Ok(Resource(kind, name)) <==>
      && doc.Dict? && "kind" in doc.entries && doc.entries["kind"] == Text(kind)
      && "metadata" in doc.entries && doc.entries["metadata"].Dict?
      && var m := doc.entries["metadata"].entries;
         "name" in m && m["name"] == Text(name) && ("labels" in m ==> m["labels"].Dict?)
  {
  }

  /** The documents of these kinds get a name and labels of the revision. */
  lemma VersionedIff(kind: string)
    ensures kind in VERSIONED <==>
      kind == "ConfigMap" || kind == "Deployment" || kind == "PodDisruptionBudget" || kind == "SecretProviderClass"
  {
  }

  // ---------- labels of documents ----------

  function LabelPlace(k: string): seq<Step> {
    [Key("metadata"), Key("labels"), Key(k)]
  }

  lemma MetadataText(doc: map<string, Node>, m: map<string, Node>, labels: map<string, Node>, k: string)
    ensures TextAt(Dict(doc["metadata" := Dict(m["labels" := Dict(labels)])]), LabelPlace(k)) == TextAt(Dict(labels), [Key(k)])
  {
    UpdatedPath(m, "labels", Dict(labels), [Key(k)]);
    UpdatedPath(doc, "metadata", Dict(m["labels" := Dict(labels)]), [Key("labels"), Key(k)]);
    assert [Key("labels")] + [Key(k)] == [Key("labels"), Key(k)];
    assert [Key("metadata")] + [Key("labels"), Key(k)] == LabelPlace(k);
  }

  lemma EntryText(labels: map<string, Node>, k: string)
    ensures TextAt(Dict(labels), [Key(k)]) == if k in labels && labels[k].Text? then Some(labels[k].text) else None
  {
    if k in labels {
      SamePlace(Dict(labels), Key(k), labels[k], []);
      assert [Key(k)] + [] == [Key(k)];
    }
  }

  /** The label before: none if there are no labels. */
  lemma LabelBefore(doc: Node, k: string)
    requires MetadataOf(doc).Ok?
    ensures TextAt(doc, LabelPlace(k)) == TextAt(MetadataOf(doc).value["labels"], [Key(k)])
  {
    var m := doc.entries["metadata"].entries;
    DefaultedText(m, "labels", [Key(k)]);
    SamePlace(doc, Key("metadata"), Dict(m), [Key("labels")] + [Key(k)]);
    assert [Key("metadata")] + ([Key("labels")] + [Key(k)]) == LabelPlace(k);
  }

  /** The label in the metadata before the spec is processed. */
  lemma StampedLabel(doc: Node, c: Catalogue, revision: string, release: string, k: string)
    requires CanProcess(doc, c)
    ensures TextAt(Dict(Stamp(doc, c, revision, release)), LabelPlace(k)) ==
      if ResourceOf(doc).value.kind in VERSIONED && k == "agenttrust.io/release-id" then Some(release)
      else if ResourceOf(doc).value.kind in VERSIONED && k == "agenttrust.io/revision" then Some(revision)
      else TextAt(doc, LabelPlace(k))
  {
    var m, res := MetadataOf(doc).value, ResourceOf(doc).value;
    var labels := m["labels"].entries;
    LabelBefore(doc, k);
    EntryText(labels, k);
    if res.kind in VERSIONED {
      var marked := Marked(labels, revision, release);
      MetadataText(doc.entries, m["name" := Text(c[res.kind][res.name])], marked, k);
      EntryText(marked, k);
    } else {
      MetadataText(doc.entries, m, labels, k);
      assert m["labels" := Dict(labels)] == m;
    }
  }

  lemma LabelUnderSpec(doc: map<string, Node>, spec: Node, k: string)
    ensures TextAt(Dict(doc["spec" := spec]), LabelPlace(k)) == TextAt(Dict(doc), LabelPlace(k))
  {
    UpdatedEntry(doc, "spec", spec, LabelPlace(k));
  }

  lemma LabelRewritten(doc: Node, r: Renames, revision: string, k: string)
    requires Rewrite(doc, r, revision).Some?
    ensures TextAt(Rewrite(doc, r, revision).value, LabelPlace(k)) == TextAt(doc, LabelPlace(k))
  {
    var p := LabelPlace(k);
    RewriteKeepsPlaces(doc, p, r, revision);
    assert p[|p| - 2] == Key("labels");
    if TextAt(doc, p).Some? {
      assert RenameText(FormOf(p), r, TextAt(doc, p).value) == TextAt(doc, p).value;
    }
  }

  lemma TrafficLabel(doc: map<string, Node>, m: map<string, Node>, revision: string, k: string)
    requires "labels" in m && m["labels"].Dict? && "metadata" in doc && doc["metadata"] == Dict(m)
    ensures TextAt(Dict(doc["metadata" := Dict(m["labels" := Dict(TrafficLabels(m["labels"].entries, revision))])]), LabelPlace(k)) ==
      if k == "agenttrust.io/traffic-target-revision" then Some(revision)
      else if k == "agenttrust.io/apply-phase" then Some("traffic")
      else TextAt(Dict(doc), LabelPlace(k))
  {
    var labels := m["labels"].entries;
    MetadataText(doc, m, TrafficLabels(labels, revision), k);
    EntryText(TrafficLabels(labels, revision), k);
    MetadataText(doc, m, labels, k);
    EntryText(labels, k);
    assert m["labels" := Dict(labels)] == m && doc["metadata" := Dict(m)] == doc;
  }

  /** Every versioned document bears its revision and its release id, every service that selects pods the phase and the
      revision it turns to, and every other label stays as it was. */
  lemma LabelsAfter(doc: Node, c: Catalogue, revision: string, release: string, k: string)
    requires CanProcess(doc, c) && Process(doc, c, revision, release).Ok?
    ensures var kind := ResourceOf(doc).value.kind;
      var versioned := kind in {"ConfigMap", "Deployment", "PodDisruptionBudget", "SecretProviderClass"};
      var traffic := kind == "Service" && Get(doc.entries, "spec").Dict? && Get(Get(doc.entries, "spec").entries, "selector") != Null;
      TextAt(Process(doc, c, revision, release).value, [Key("metadata"), Key("labels"), Key(k)]) ==
        if versioned && k == "agenttrust.io/revision" then Some(revision)
        else if versioned && k == "agenttrust.io/release-id" then Some(release)
        else if traffic && k == "agenttrust.io/apply-phase" then Some("traffic")
        else if traffic && k == "agenttrust.io/traffic-target-revision" then Some(revision)
        else TextAt(doc, [Key("metadata"), Key("labels"), Key(k)])
  {
    var stamped, kind := Stamp(doc, c, revision, release), ResourceOf(doc).value.kind;
    StampedLabel(doc, c, revision, release, k);
    var spec := Get(stamped, "spec");
    assert spec == Get(doc.entries, "spec");
    if kind == "Deployment" {
      LabelUnderSpec(stamped, ProcessDeployment(spec, RenamesOf(c), revision, release).value, k);
    } else if kind == "PodDisruptionBudget" {
      LabelUnderSpec(stamped, ProcessPdb(spec, revision).value, k);
    } else if kind == "Service" {
      if Selecting(spec) {
        var m := MetadataOf(doc).value;
        TrafficLabel(stamped, m, revision, k);
        LabelUnderSpec(stamped["metadata" := Dict(m["labels" := Dict(TrafficLabels(m["labels"].entries, revision))])],
                       ProcessService(spec, revision).value, k);
      }
    } else {
      LabelRewritten(Dict(stamped), RenamesOf(c), revision, k);
    }
  }

  // ---------- pods ----------

  lemma PodPlace(spec: map<string, Node>, template: map<string, Node>, m: map<string, Node>, labels: map<string, Node>, k: string)
    ensures TextAt(Dict(spec["template" := Dict(template["metadata" := Dict(m["labels" := Dict(labels)])])]),
                   [Key("template"), Key("metadata"), Key("labels"), Key(k)])
      == TextAt(Dict(labels), [Key(k)])
  {
    MetadataText(template, m, labels, k);
    UpdatedPath(spec, "template", Dict(template["metadata" := Dict(m["labels" := Dict(labels)])]), LabelPlace(k));
    assert [Key("template")] + LabelPlace(k) == [Key("template"), Key("metadata"), Key("labels"), Key(k)];
  }

  lemma MarkedPod(spec: Node, revision: string, release: string, k: string)
    requires MarkDeployment(spec, revision, release).Ok?
    ensures TextAt(MarkDeployment(spec, revision, release).value, [Key("template"), Key("metadata"), Key("labels"), Key(k)]) ==
      if k == "agenttrust.io/revision" then Some(revision)
      else if k == "agenttrust.io/release-id" then Some(release)
      else TextAt(spec, [Key("template"), Key("metadata"), Key("labels"), Key(k)])
  {
    var selector := WithRevision(Get(spec.entries, "selector"), revision).value;
    var template := spec.entries["template"].entries;
    var m := template["metadata"].entries;
    var labels := if "labels" in m then m["labels"] else Dict(map[]);
    var marked := Marked(labels.entries, revision, release);
    PodPlace(spec.entries["selector" := selector], template, m, marked, k);
    EntryText(marked, k);
    EntryText(labels.entries, k);
    DefaultedText(m, "labels", [Key(k)]);
    SamePlace(spec, Key("template"), Dict(template), LabelPlace(k));
    SamePlace(Dict(template), Key("metadata"), Dict(m), [Key("labels")] + [Key(k)]);
    assert [Key("metadata")] + ([Key("labels")] + [Key(k)]) == LabelPlace(k);
    assert [Key("template")] + LabelPlace(k) == [Key("template"), Key("metadata"), Key("labels"), Key(k)];
  }

  /** The pods of a deployment bear its revision and its release id, and otherwise the labels they had. */
  lemma PodLabelsAfter(spec: Node, r: Renames, revision: string, release: string, k: string)
    requires ProcessDeployment(spec, r, revision, release).Ok?
    ensures TextAt(ProcessDeployment(spec, r, revision, release).value, [Key("template"), Key("metadata"), Key("labels"), Key(k)]) ==
      if k == "agenttrust.io/revision" then Some(revision)
      else if k == "agenttrust.io/release-id" then Some(release)
      else TextAt(spec, [Key("template"), Key("metadata"), Key("labels"), Key(k)])
  {
    var p := [Key("template"), Key("metadata"), Key("labels"), Key(k)];
    var marked := MarkDeployment(spec, revision, release).value;
    MarkedPod(spec, revision, release, k);
    RewriteKeepsPlaces(marked, p, r, revision);
    assert p[|p| - 2] == Key("labels") && p[|p| - 3] == Key("metadata");
    if TextAt(marked, p).Some? {
      assert RenameText(FormOf(p), r, TextAt(marked, p).value) == TextAt(marked, p).value;
    }
  }

  // ---------- when the processing of a document fails ----------

  /** A selector whose labels, if there are any, are a dictionary. */
  predicate Selector(node: Node) {
    node.Dict? && ("matchLabels" in node.entries ==> node.entries["matchLabels"].Dict?)
  }

  /** A label selector in the tree that is a dictionary but no selector. */
  ghost predicate BadSelector(node: Node, p: seq<Step>) {
    p != [] && p[|p| - 1] == Key("labelSelector") && At(node, p).Some? && At(node, p).value.Dict? && !Selector(At(node, p).value)
  }

  lemma EditKeepsShape(key: string, child: Node, r: Renames, revision: string)
    ensures Edit(key, child, r, revision).Some? <==> !(key == "labelSelector" && child.Dict? && !Selector(child))
    ensures Edit(key, child, r, revision).Some? ==>
      (Edit(key, child, r, revision).value.Dict? <==> child.Dict?) && (Selector(Edit(key, child, r, revision).value) <==> Selector(child))
  {
  }

  lemma RewriteKeepsShape(node: Node, r: Renames, revision: string)
    requires Rewrite(node, r, revision).Some?
    ensures Rewrite(node, r, revision).value.Dict? <==> node.Dict?
    ensures Selector(Rewrite(node, r, revision).value) <==> Selector(node)
  {
    if node.Dict? && "matchLabels" in node.entries {
      KeepsKind(node.entries["matchLabels"], r, revision);
    }
  }

  lemma BadEntryFails(m: map<string, Node>, r: Renames, revision: string)
    requires "labelSelector" in m && m["labelSelector"].Dict? && !Selector(m["labelSelector"])
    ensures Rewrite(Dict(m), r, revision).None?
  {
    var child := m["labelSelector"];
    if Rewrite(child, r, revision).Some? {
      RewriteKeepsShape(child, r, revision);
      EditKeepsShape("labelSelector", Rewrite(child, r, revision).value, r, revision);
    }
  }

  lemma BadChildFails(node: Node, step: Step, r: Renames, revision: string)
    requires Child(node, step).Some? && Rewrite(Child(node, step).value, r, revision).None?
    ensures Rewrite(node, r, revision).None?
  {
  }

  lemma {:induction false} BadSelectorFails(node: Node, p: seq<Step>, r: Renames, revision: string)
    requires BadSelector(node, p)
    ensures Rewrite(node, r, revision).None?
    decreases p
  {
    if |p| == 1 {
      var child := node.entries["labelSelector"];
      SamePlace(node, Key("labelSelector"), child, []);
      assert p == [Key("labelSelector")] + [];
      BadEntryFails(node.entries, r, revision);
    } else {
      BadSelectorFails(Child(node, p[0]).value, p[1..], r, revision);
      BadChildFails(node, p[0], r, revision);
    }
  }

  lemma BadBelow(node: Node, step: Step, child: Node, q: seq<Step>)
    requires Child(node, step) == Some(child) && BadSelector(child, q)
    ensures BadSelector(node, [step] + q)
  {
    SamePlace(node, step, child, q);
  }

  lemma {:induction false} FailsAtSelector(node: Node, r: Renames, revision: string) returns (p: seq<Step>)
    requires Rewrite(node, r, revision).None?
    ensures BadSelector(node, p)
    decreases node
  {
    match node
    case List(items) =>
      var i :| 0 <= i < |items| && Rewrite(items[i], r, revision).None?;
      var q := FailsAtSelector(items[i], r, revision);
      BadBelow(node, Index(i), items[i], q);
      p := [Index(i)] + q;
    case Dict(m) =>
      var k :| k in m && (Rewrite(m[k], r, revision).None? || Edit(k, Rewrite(m[k], r, revision).value, r, revision).None?);
      if Rewrite(m[k], r, revision).None? {
        var q := FailsAtSelector(m[k], r, revision);
        BadBelow(node, Key(k), m[k], q);
        p := [Key(k)] + q;
      } else {
        RewriteKeepsShape(m[k], r, revision);
        EditKeepsShape(k, Rewrite(m[k], r, revision).value, r, revision);
        p := [Key(k)];
        SamePlace(node, Key(k), m[k], []);
        assert [Key(k)] + [] == p;
      }
  }

  /** The rewriting fails exactly on a label selector whose labels are no dictionary. */
  lemma RewriteFailsIff(node: Node, r: Renames, revision: string)
    ensures Rewrite(node, r, revision).None? <==> exists p :: BadSelector(node, p)
  {
    if Rewrite(node, r, revision).None? {
      var p := FailsAtSelector(node, r, revision);
    }
    if p :| BadSelector(node, p) {
      BadSelectorFails(node, p, r, revision);
    }
  }

  /** A document is processed exactly if its spec has the form that its kind demands. */
  lemma ProcessedIff(doc: Node, c: Catalogue, revision: string, release: string)
    requires CanProcess(doc, c)
    ensures var kind, spec := ResourceOf(doc).value.kind, Get(doc.entries, "spec");
      Process(doc, c, revision, release).Ok? <==>
        if kind == "Deployment" then
          && spec.Dict? && Selector(Get(spec.entries, "selector"))
          && Get(spec.entries, "template").Dict? && Get(Get(spec.entries, "template").entries, "metadata").Dict?
          && (var m := Get(Get(spec.entries, "template").entries, "metadata").entries; "labels" in m ==> m["labels"].Dict?)
          && forall p :: !BadSelector(MarkDeployment(spec, revision, release).value, p)
        else if kind == "PodDisruptionBudget" then spec.Dict? && Selector(Get(spec.entries, "selector"))
        else if kind == "Service" then
          spec.Dict? && Get(spec.entries, "selector") != Null ==>
            Get(spec.entries, "selector").Dict? && Get(spec.entries, "selector").entries != map[]
        else forall p :: !BadSelector(Dict(Stamp(doc, c, revision, release)), p)
  {
    var kind, spec := ResourceOf(doc).value.kind, Get(doc.entries, "spec");
    var stamped := Stamp(doc, c, revision, release);
    assert Get(stamped, "spec") == spec;
    if kind == "Deployment" {
      if MarkDeployment(spec, revision, release).Ok? {
        RewriteFailsIff(MarkDeployment(spec, revision, release).value, RenamesOf(c), revision);
      }
    } else if kind != "PodDisruptionBudget" && kind != "Service" {
      RewriteFailsIff(Dict(stamped), RenamesOf(c), revision);
    }
  }

  // ---------- references ----------

  /** The kind of document that a text names by the last two keys of its place. */
  function Target(key: string, field: string): Option<string> {
    if key == "configMap" && field == "name" then Some("ConfigMap")
    else if key == "configMapRef" && field == "name" then Some("ConfigMap")
    else if key == "volumeAttributes" && field == "secretProviderClass" then Some("SecretProviderClass")
    else if key == "scaleTargetRef" && field == "name" then Some("Deployment")
    else None
  }

  lemma TargetIs(front: seq<Step>, key: string, field: string, c: Catalogue, name: string)
    requires c.Keys == VERSIONED
    ensures RenameText(FormOf(front + [Key(key), Key(field)]), RenamesOf(c), name) ==
      match Target(key, field) case None => name case Some(kind) => if name in c[kind] then c[kind][name] else name
  {
    var p := front + [Key(key), Key(field)];
    assert p[|p| - 2] == Key(key) && p[|p| - 1] == Key(field);
  }

  /** Outside metadata and revision labels, a text in the spec of a deployment or in a document of any other kind than
      a disruption budget or a service reads the new name of what it refers to; every other text stays. */
  lemma ReferencesAfter(doc: Node, c: Catalogue, revision: string, release: string, front: seq<Step>, key: string, field: string)
    requires CanProcess(doc, c) && Process(doc, c, revision, release).Ok?
    requires var p := front + [Key(key), Key(field)];
      p[0] != Key("metadata") && Key("agenttrust.io/revision") !in p && Key("agenttrust.io/release-id") !in p
    ensures var p, kind := front + [Key(key), Key(field)], ResourceOf(doc).value.kind;
      var rewritten := if kind == "Deployment" then p[0] == Key("spec") else kind != "PodDisruptionBudget" && kind != "Service";
      TextAt(Process(doc, c, revision, release).value, p) ==
        match TextAt(doc, p)
        case None => None
        case Some(name) =>
          match Target(key, field)
          case None => Some(name)
          case Some(target) => Some(if rewritten && name in c[target] then c[target][name] else name)
  {
    var p := front + [Key(key), Key(field)];
    assert Ordinary(p);
    ProcessKeepsTexts(doc, c, revision, release, p);
    if TextAt(doc, p).Some? {
      TargetIs(front, key, field, c, TextAt(doc, p).value);
    }
  }

  // ---------- what the plan lists ----------

  lemma ElementsNext(s: seq<string>, x: string)
    ensures Elements(s + [x]) == Elements(s) + {x}
  {
    assert (s + [x])[|s|] == x && forall i | 0 <= i < |s| :: (s + [x])[i] == s[i];
  }

  ghost predicate Serves(docs: seq<Node>, name: string) {
    exists i :: 0 <= i < |docs| && ResourceOf(docs[i]) == Ok(Resource("Service", name))
                && Get(docs[i].entries, "spec").Dict? && Get(Get(docs[i].entries, "spec").entries, "selector") != Null
  }

  ghost predicate Deploys(docs: seq<Node>, c: Catalogue, name: string)
    requires c.Keys == VERSIONED
  {
    exists i, was :: 0 <= i < |docs| && ResourceOf(docs[i]) == Ok(Resource("Deployment", was))
                     && was in c["Deployment"] && c["Deployment"][was] == name
  }

  lemma ServesNext(front: seq<Node>, doc: Node, name: string)
    ensures Serves(front + [doc], name) <==> Serves(front, name) || Serves([doc], name)
  {
    var docs := front + [doc];
    assert docs[|front|] == [doc][0] && forall i | 0 <= i < |front| :: docs[i] == front[i];
  }

  lemma DeploysNext(front: seq<Node>, doc: Node, c: Catalogue, name: string)
    requires c.Keys == VERSIONED
    ensures Deploys(front + [doc], c, name) <==> Deploys(front, c, name) || Deploys([doc], c, name)
  {
    var docs := front + [doc];
    assert docs[|front|] == [doc][0] && forall i | 0 <= i < |front| :: docs[i] == front[i];
  }

  lemma {:induction false} TrafficIff(docs: seq<Node>, name: string)
    ensures name in Elements(TrafficOf(docs)) <==> Serves(docs, name)
    decreases |docs|
  {
    if docs != [] {
      var front, doc := docs[..|docs| - 1], docs[|docs| - 1];
      assert docs == front + [doc];
      TrafficIff(front, name);
      ServesNext(front, doc, name);
      assert Serves([doc], name) <==> TrafficName(doc) == [name] by {
        assert [doc][0] == doc;
      }
      if TrafficName(doc) != [] {
        ElementsNext(TrafficOf(front), TrafficName(doc)[0]);
        assert TrafficName(doc) == [TrafficName(doc)[0]];
      } else {
        assert TrafficOf(docs) == TrafficOf(front);
      }
    }
  }

  lemma {:induction false} WorkloadsIff(docs: seq<Node>, c: Catalogue, name: string)
    requires c.Keys == VERSIONED
    ensures name in Elements(WorkloadsOf(docs, c)) <==> Deploys(docs, c, name)
    decreases |docs|
  {
    if docs != [] {
      var front, doc := docs[..|docs| - 1], docs[|docs| - 1];
      assert docs == front + [doc];
      WorkloadsIff(front, c, name);
      DeploysNext(front, doc, c, name);
      assert Deploys([doc], c, name) <==> WorkloadName(doc, c) == [name] by {
        assert [doc][0] == doc;
      }
      if WorkloadName(doc, c) != [] {
        ElementsNext(WorkloadsOf(front, c), WorkloadName(doc, c)[0]);
        assert WorkloadName(doc, c) == [WorkloadName(doc, c)[0]];
      } else {
        assert WorkloadsOf(docs, c) == WorkloadsOf(front, c);
      }
    }
  }

  /** No service and no deployment is listed twice before the lists are sorted, so that none is lost. */
  lemma {:induction false} ListedOnce(docs: seq<Node>, revision: string, c: Catalogue)
    requires |revision| < 62 && Listed(docs, revision) && c.Keys == VERSIONED && Injective(c["Deployment"])
    ensures forall i, j | 0 <= i < j < |TrafficOf(docs)| :: TrafficOf(docs)[i] != TrafficOf(docs)[j]
    ensures forall i, j | 0 <= i < j < |WorkloadsOf(docs, c)| :: WorkloadsOf(docs, c)[i] != WorkloadsOf(docs, c)[j]
    decreases |docs|
  {
    if docs != [] {
      var front, doc := docs[..|docs| - 1], docs[|docs| - 1];
      ListedPrefix(docs, |docs| - 1, revision);
      ListedOnce(front, revision, c);
      assert forall i | 0 <= i < |front| :: ResourceOf(front[i]) != ResourceOf(doc);
      forall i | 0 <= i < |TrafficOf(front)|
        ensures TrafficName(doc) != [TrafficOf(front)[i]]
      {
        TrafficIff(front, TrafficOf(front)[i]);
      }
      forall i | 0 <= i < |WorkloadsOf(front, c)|
        ensures WorkloadName(doc, c) != [WorkloadsOf(front, c)[i]]
      {
        WorkloadsIff(front, c, WorkloadsOf(front, c)[i]);
      }
    }
  }

  /** The plan lists, sorted, exactly the services that select pods and the new names of the deployments, and there is
      at least one of each. */
  lemma PlanLists(docs: seq<Node>, revision: string, release: string, plan: Plan)
    requires Materialized(docs, revision, release, plan)
    ensures plan.names.Keys == VERSIONED && plan.revision == revision
    ensures plan.trafficServices != [] && plan.workloads != []
    ensures forall i, j | 0 <= i < j < |plan.trafficServices| :: Less(plan.trafficServices[i], plan.trafficServices[j])
    ensures forall i, j | 0 <= i < j < |plan.workloads| :: Less(plan.workloads[i], plan.workloads[j])
    ensures forall name :: name in plan.trafficServices <==>
      exists i :: 0 <= i < |docs| && ResourceOf(docs[i]) == Ok(Resource("Service", name))
                  && Get(docs[i].entries, "spec").Dict? && Get(Get(docs[i].entries, "spec").entries, "selector") != Null
    ensures forall name :: name in plan.workloads <==>
      exists i, was :: 0 <= i < |docs| && ResourceOf(docs[i]) == Ok(Resource("Deployment", was))
                       && was in plan.names["Deployment"] && plan.names["Deployment"][was] == name
  {
    forall name
      ensures name in plan.trafficServices <==> Serves(docs, name)
      ensures name in plan.workloads <==> Deploys(docs, plan.names, name)
    {
      TrafficIff(docs, name);
      WorkloadsIff(docs, plan.names, name);
      assert name in plan.trafficServices <==> name in Elements(plan.trafficServices);
      assert name in plan.workloads <==> name in Elements(plan.workloads);
    }
    EmptyElements(TrafficOf(docs));
    EmptyElements(WorkloadsOf(docs, plan.names));
    EmptyElements(plan.trafficServices);
    EmptyElements(plan.workloads);
  }
}
