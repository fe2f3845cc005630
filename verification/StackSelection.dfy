/**
 Which pods a materialized document selects.  Selectors get the revision, pods the revision and the
 release id, and a deployment's references are rewritten; so a document selects the pods of a
 deployment of its stack afterwards under conditions that can be read off the stack before.
 */
module StackSelection {
  import opened Common
  import opened StackTree
  import Names = ResourceNames
  import opened BlueGreenStack
  import opened StackLaws

  // ---------- what a document asks for, and what labels pods bear ----------

  function DictOf(node: Node): map<string, Node> {
    match node case Dict(m) => m case _ => map[]
  }

  function SpecOfDoc(doc: Node): Node {
    Get(DictOf(doc), "spec")
  }

  function SelectorOf(doc: Node): Node {
    Get(DictOf(SpecOfDoc(doc)), "selector")
  }

  function KindOf(doc: Node): Option<string> {
    TextAt(doc, KIND)
  }

  predicate IsService(doc: Node) {
    KindOf(doc) == Some("Service")
  }

  predicate IsDeployment(doc: Node) {
    KindOf(doc) == Some("Deployment")
  }

  /** The labels that the document's selector asks for. */
  function AskedLabels(doc: Node): map<string, Node> {
    if IsService(doc) then DictOf(SelectorOf(doc)) else DictOf(Get(DictOf(SelectorOf(doc)), "matchLabels"))
  }

  function ItemsOf(node: Node): seq<Node> {
    match node case List(items) => items case _ => []
  }

  /** The match expressions of the document's selector; a service has none. */
  function Expressions(doc: Node): seq<Node> {
    if IsService(doc) then [] else ItemsOf(Get(DictOf(SelectorOf(doc)), "matchExpressions"))
  }

  /** The labels of a deployment's pods. */
  function PodLabels(doc: Node): map<string, Node> {
    var template := Get(DictOf(SpecOfDoc(doc)), "template");
    var metadata := Get(DictOf(template), "metadata");
    DictOf(Get(DictOf(metadata), "labels"))
  }

  lemma AtTwo(doc: Node)
    ensures At(doc, SERVICE_SELECTOR)
      == if doc.Dict? && "spec" in doc.entries && doc.entries["spec"].Dict? && "selector" in doc.entries["spec"].entries
         then Some(SelectorOf(doc)) else None
  {
    assert SERVICE_SELECTOR[1..] == [Key("selector")] && [Key("selector")][1..] == [];
  }

  /** A document with a selector selects pods by the labels and expressions it asks for. */
  lemma SelectsParts(doc: Node, labels: map<string, Node>)
    requires SelectorOf(doc).Dict?
    ensures SelectsPods(doc, labels)
      <==> Matches(AskedLabels(doc), labels) && forall e | e in Expressions(doc) :: Satisfied(e, labels)
  {
    AtTwo(doc);
  }

  // ---------- what the rewriting leaves of them ----------

  /** A node found under a key, as the rewriting leaves it. */
  function Settled(key: string, node: Node, r: Renames, revision: string): Node {
    match Rewrite(node, r, revision)
    case None => node
    case Some(w) => match Edit(key, w, r, revision) case None => node case Some(v) => v
  }

  function SettledMap(m: map<string, Node>, r: Renames, revision: string): map<string, Node> {
    map k | k in m :: Settled(k, m[k], r, revision)
  }

  function SettledItems(items: seq<Node>, r: Renames, revision: string): seq<Node> {
    seq(|items|, i requires 0 <= i < |items| => Settled("", items[i], r, revision))
  }

  lemma RewrittenDict(node: Node, r: Renames, revision: string)
    requires node.Dict? && Rewrite(node, r, revision).Some?
    ensures Rewrite(node, r, revision).value == Dict(SettledMap(node.entries, r, revision))
    ensures forall k | k in node.entries :: Rewrite(node.entries[k], r, revision).Some?
  {
    var m := node.entries;
    assert forall k | k in m :: Rewrite(m[k], r, revision).Some? && Edit(k, Rewrite(m[k], r, revision).value, r, revision).Some?;
    assert DictOf(Rewrite(node, r, revision).value) == SettledMap(m, r, revision);
  }

  /** A key whose value the rewriting only descends into. */
  predicate Transparent(key: string) {
    key !in {"configMap", "configMapRef", "volumeAttributes", "scaleTargetRef", "labelSelector"}
  }

  /** An entry of a rewritten dictionary. */
  lemma RewrittenEntry(node: Node, key: string, r: Renames, revision: string)
    requires node.Dict? && Rewrite(node, r, revision).Some? && Transparent(key)
    ensures key in node.entries ==> Rewrite(node.entries[key], r, revision).Some?
    ensures Get(DictOf(Rewrite(node, r, revision).value), key)
      == if key in node.entries then Rewrite(node.entries[key], r, revision).value else Null
  {
    RewrittenDict(node, r, revision);
  }

  lemma RewrittenItems(node: Node, r: Renames, revision: string)
    requires Rewrite(node, r, revision).Some?
    ensures ItemsOf(Rewrite(node, r, revision).value) == SettledItems(ItemsOf(node), r, revision)
  {
    if node.List? {
      assert forall i | 0 <= i < |node.items| :: Rewrite(node.items[i], r, revision).Some?;
    }
  }

  lemma RewrittenDictOf(node: Node, r: Renames, revision: string)
    requires Rewrite(node, r, revision).Some?
    ensures DictOf(Rewrite(node, r, revision).value) == SettledMap(DictOf(node), r, revision)
  {
    if node.Dict? {
      RewrittenDict(node, r, revision);
    }
  }

  lemma NullIsKept(r: Renames, revision: string)
    ensures Rewrite(Null, r, revision) == Some(Null)
  {
  }

  // ---------- the parts of a processed deployment ----------

  lemma MarkedSelectorParts(selector: Node, revision: string)
    requires WithRevision(selector, revision).Some?
    ensures var marked := WithRevision(selector, revision).value;
      && marked.Dict? && Get(DictOf(marked), "matchExpressions") == Get(DictOf(selector), "matchExpressions")
      && DictOf(Get(DictOf(marked), "matchLabels")) == DictOf(Get(DictOf(selector), "matchLabels"))[REVISION := Text(revision)]
  {
  }

  lemma SettledSelector(selector: Node, r: Renames, revision: string)
    requires selector.Dict? && Rewrite(selector, r, revision).Some?
    ensures var done := Rewrite(selector, r, revision).value;
      && done.Dict?
      && DictOf(Get(DictOf(done), "matchLabels")) == SettledMap(DictOf(Get(DictOf(selector), "matchLabels")), r, revision)
      && ItemsOf(Get(DictOf(done), "matchExpressions")) == SettledItems(ItemsOf(Get(DictOf(selector), "matchExpressions")), r, revision)
  {
    NullIsKept(r, revision);
    RewrittenEntry(selector, "matchLabels", r, revision);
    RewrittenEntry(selector, "matchExpressions", r, revision);
    RewrittenDictOf(Get(DictOf(selector), "matchLabels"), r, revision);
    RewrittenItems(Get(DictOf(selector), "matchExpressions"), r, revision);
    KeepsKind(selector, r, revision);
  }

  function LabelsOfTemplate(template: Node): map<string, Node> {
    DictOf(Get(DictOf(Get(DictOf(template), "metadata")), "labels"))
  }

  lemma MarkedTemplateParts(template: Node, revision: string, release: string)
    requires MarkTemplate(template, revision, release).Some?
    ensures LabelsOfTemplate(MarkTemplate(template, revision, release).value) == Marked(LabelsOfTemplate(template), revision, release)
  {
  }

  lemma SettledTemplate(template: Node, r: Renames, revision: string)
    requires template.Dict? && Get(DictOf(template), "metadata").Dict? && Rewrite(template, r, revision).Some?
    ensures LabelsOfTemplate(Rewrite(template, r, revision).value) == SettledMap(LabelsOfTemplate(template), r, revision)
  {
    var metadata := template.entries["metadata"];
    NullIsKept(r, revision);
    RewrittenEntry(template, "metadata", r, revision);
    RewrittenEntry(metadata, "labels", r, revision);
    RewrittenDictOf(Get(metadata.entries, "labels"), r, revision);
  }

  /** In a processed deployment's spec. */
  lemma ProcessedSpec(spec: Node, r: Renames, revision: string, release: string)
    requires ProcessDeployment(spec, r, revision, release).Ok?
    ensures var done := DictOf(ProcessDeployment(spec, r, revision, release).value);
            var selector, was := Get(done, "selector"), Get(DictOf(spec), "selector");
      && selector.Dict?
      && DictOf(Get(DictOf(selector), "matchLabels"))
           == SettledMap(DictOf(Get(DictOf(was), "matchLabels"))[REVISION := Text(revision)], r, revision)
      && ItemsOf(Get(DictOf(selector), "matchExpressions")) == SettledItems(ItemsOf(Get(DictOf(was), "matchExpressions")), r, revision)
      && LabelsOfTemplate(Get(done, "template")) == SettledMap(Marked(LabelsOfTemplate(Get(DictOf(spec), "template")), revision, release), r, revision)
  {
    var marked := MarkDeployment(spec, revision, release).value;
    var selector := WithRevision(Get(spec.entries, "selector"), revision).value;
    var template := MarkTemplate(Get(spec.entries, "template"), revision, release).value;
    assert marked.entries["selector"] == selector && marked.entries["template"] == template;
    RewrittenEntry(marked, "selector", r, revision);
    RewrittenEntry(marked, "template", r, revision);
    MarkedSelectorParts(Get(spec.entries, "selector"), revision);
    SettledSelector(selector, r, revision);
    MarkedTemplateParts(Get(spec.entries, "template"), revision, release);
    SettledTemplate(template, r, revision);
  }

  // ---------- the parts of a processed document ----------

  lemma StampedSpec(doc: Node, c: Catalogue, revision: string, release: string)
    requires CanProcess(doc, c)
    ensures Get(Stamp(doc, c, revision, release), "spec") == SpecOfDoc(doc)
  {
  }

  lemma KindKept(doc: Node, c: Catalogue, revision: string, release: string)
    requires CanProcess(doc, c) && Process(doc, c, revision, release).Ok?
    ensures KindOf(Process(doc, c, revision, release).value) == KindOf(doc) == Some(ResourceOf(doc).value.kind)
  {
    ProcessKeepsTexts(doc, c, revision, release, []);
    ResourceText(doc);
  }

  lemma DeploymentParts(doc: Node, c: Catalogue, revision: string, release: string)
    requires CanProcess(doc, c) && Process(doc, c, revision, release).Ok? && IsDeployment(doc)
    ensures var out := Process(doc, c, revision, release).value; var r := RenamesOf(c);
      && SelectorOf(out).Dict?
      && AskedLabels(out) == SettledMap(AskedLabels(doc)[REVISION := Text(revision)], r, revision)
      && Expressions(out) == SettledItems(Expressions(doc), r, revision)
      && PodLabels(out) == SettledMap(Marked(PodLabels(doc), revision, release), r, revision)
  {
    KindKept(doc, c, revision, release);
    StampedSpec(doc, c, revision, release);
    ProcessedSpec(SpecOfDoc(doc), RenamesOf(c), revision, release);
  }

  lemma PdbParts(doc: Node, c: Catalogue, revision: string, release: string)
    requires CanProcess(doc, c) && Process(doc, c, revision, release).Ok? && KindOf(doc) == Some("PodDisruptionBudget")
    ensures var out := Process(doc, c, revision, release).value;
      && SelectorOf(out).Dict?
      && AskedLabels(out) == AskedLabels(doc)[REVISION := Text(revision)] && Expressions(out) == Expressions(doc)
  {
    KindKept(doc, c, revision, release);
    StampedSpec(doc, c, revision, release);
    MarkedSelectorParts(SelectorOf(doc), revision);
  }

  lemma ServiceParts(doc: Node, c: Catalogue, revision: string, release: string)
    requires CanProcess(doc, c) && Process(doc, c, revision, release).Ok? && IsService(doc) && Selecting(SpecOfDoc(doc))
    ensures var out := Process(doc, c, revision, release).value;
      && SelectorOf(out).Dict?
      && AskedLabels(out) == AskedLabels(doc)[REVISION := Text(revision)] && Expressions(out) == Expressions(doc)
  {
    KindKept(doc, c, revision, release);
    StampedSpec(doc, c, revision, release);
  }

  // ---------- when it selects pods ----------

  /** A label or an expression of a selector as it is afterwards: a deployment's is rewritten. */
  function Seen(settles: bool, key: string, node: Node, r: Renames, revision: string): Node {
    if settles then Settled(key, node, r, revision) else node
  }

  /** The labels of pods afterwards. */
  function LabelsAfter(labels: map<string, Node>, r: Renames, revision: string, release: string): map<string, Node> {
    SettledMap(Marked(labels, revision, release), r, revision)
  }

  /** The pods bear every label asked for, as both are afterwards. */
  predicate LabelsAgree(asked: map<string, Node>, labels: map<string, Node>, settles: bool, r: Renames, revision: string, release: string) {
    && (forall k | k in asked && k !in {REVISION, RELEASE} ::
          k in labels && Settled(k, labels[k], r, revision) == Seen(settles, k, asked[k], r, revision))
    && (RELEASE in asked ==> asked[RELEASE] == Text(release))
  }

  /** Read off the stack before: whether the document selects the pods afterwards. */
  predicate WillSelect(doc: Node, labels: map<string, Node>, r: Renames, revision: string, release: string) {
    && LabelsAgree(AskedLabels(doc), labels, IsDeployment(doc), r, revision, release)
    && forall e | e in Expressions(doc) ::
         Satisfied(Seen(IsDeployment(doc), "", e, r, revision), LabelsAfter(labels, r, revision, release))
  }

  lemma TextSettles(key: string, text: string, r: Renames, revision: string)
    requires Transparent(key)
    ensures Settled(key, Text(text), r, revision) == Text(text)
    ensures forall node :: Settled(key, node, r, revision) == Text(text) ==> node == Text(text)
  {
  }

  /** The labels asked for afterwards, on the labels of the pods afterwards. */
  lemma MatchesAfter(asked: map<string, Node>, labels: map<string, Node>, settles: bool, r: Renames, revision: string, release: string)
    ensures var marked := asked[REVISION := Text(revision)];
      Matches(if settles then SettledMap(marked, r, revision) else marked, LabelsAfter(labels, r, revision, release))
      <==> LabelsAgree(asked, labels, settles, r, revision, release)
  {
    var marked := asked[REVISION := Text(revision)];
    var after := if settles then SettledMap(marked, r, revision) else marked;
    var bearing := LabelsAfter(labels, r, revision, release);
    TextSettles(REVISION, revision, r, revision);
    TextSettles(RELEASE, release, r, revision);
    assert after.Keys == marked.Keys;
    assert bearing[REVISION] == Text(revision) && bearing[RELEASE] == Text(release);
    forall k | k in after
      ensures after[k] == Seen(settles, k, marked[k], r, revision)
      ensures k !in {REVISION, RELEASE} && k in bearing ==> k in labels && bearing[k] == Settled(k, labels[k], r, revision)
    {
    }
  }

  lemma ExpressionsAfter(expressions: seq<Node>, labels: map<string, Node>, r: Renames, revision: string)
    ensures (forall e | e in SettledItems(expressions, r, revision) :: Satisfied(e, labels))
      <==> forall e | e in expressions :: Satisfied(Settled("", e, r, revision), labels)
  {
    var after := SettledItems(expressions, r, revision);
    forall i | 0 <= i < |expressions|
      ensures after[i] in after && expressions[i] in expressions && after[i] == Settled("", expressions[i], r, revision)
    {
    }
  }

  /** What the processed document asks for. */
  lemma PartsAfter(doc: Node, c: Catalogue, revision: string, release: string)
    requires CanProcess(doc, c) && Process(doc, c, revision, release).Ok? && SelectorPlace(doc).Some?
    ensures var out := Process(doc, c, revision, release).value; var r := RenamesOf(c);
            var asked := AskedLabels(doc)[REVISION := Text(revision)];
      && SelectorOf(out).Dict?
      && AskedLabels(out) == (if IsDeployment(doc) then SettledMap(asked, r, revision) else asked)
      && Expressions(out) == if IsDeployment(doc) then SettledItems(Expressions(doc), r, revision) else Expressions(doc)
  {
    if IsDeployment(doc) {
      DeploymentParts(doc, c, revision, release);
    } else if IsService(doc) {
      ServiceParts(doc, c, revision, release);
    } else {
      PdbParts(doc, c, revision, release);
    }
  }

  /** A deployment, disruption budget or service selects the pods of a deployment of its stack afterwards
      exactly when `WillSelect` holds of the stack before. */
  lemma SelectionIff(docs: seq<Node>, revision: string, release: string, plan: Plan, i: nat, j: nat)
    requires Materialized(docs, revision, release, plan) && i < |docs| && j < |docs|
    requires SelectorPlace(docs[i]).Some? && IsDeployment(docs[j])
    ensures plan.names.Keys == VERSIONED
    ensures SelectsPods(plan.documents[i], PodLabels(plan.documents[j]))
      <==> WillSelect(docs[i], PodLabels(docs[j]), RenamesOf(plan.names), revision, release)
  {
    DocumentAt(docs, revision, release, plan, i);
    DocumentAt(docs, revision, release, plan, j);
    var r := RenamesOf(plan.names);
    PartsAfter(docs[i], plan.names, revision, release);
    DeploymentParts(docs[j], plan.names, revision, release);
    SelectsParts(plan.documents[i], PodLabels(plan.documents[j]));
    MatchesAfter(AskedLabels(docs[i]), PodLabels(docs[j]), IsDeployment(docs[i]), r, revision, release);
    ExpressionsAfter(Expressions(docs[i]), PodLabels(plan.documents[j]), r, revision);
  }

  // ---------- labels that are no lists or dictionaries ----------

  predicate Leaf(node: Node) {
    !node.List? && !node.Dict?
  }

  predicate Leaves(labels: map<string, Node>) {
    forall k | k in labels :: Leaf(labels[k])
  }

  lemma DictsStayDicts(key: string, node: Node, r: Renames, revision: string)
    ensures Leaf(node) ==> Settled(key, node, r, revision) == node
    ensures Leaf(Settled(key, node, r, revision)) ==> Leaf(node)
  {
  }

  lemma LeavesAreKept(labels: map<string, Node>, r: Renames, revision: string, release: string)
    requires Leaves(labels)
    ensures LabelsAfter(labels, r, revision, release) == Marked(labels, revision, release)
    ensures Leaves(Marked(labels, revision, release))
  {
    var marked := Marked(labels, revision, release);
    forall k | k in marked
      ensures Leaf(marked[k]) && Settled(k, marked[k], r, revision) == marked[k]
    {
      assert k in {REVISION, RELEASE} || marked[k] == labels[k];
      DictsStayDicts(k, marked[k], r, revision);
    }
  }

  lemma LeafIn(items: seq<Node>, value: Node, r: Renames, revision: string)
    requires Leaf(value)
    ensures value in SettledItems(items, r, revision) <==> value in items
  {
    var after := SettledItems(items, r, revision);
    forall i | 0 <= i < |items|
      ensures after[i] == value <==> items[i] == value
    {
      DictsStayDicts("", items[i], r, revision);
    }
  }

  lemma TextKept(node: Node, r: Renames, revision: string)
    requires Rewrite(node, r, revision).Some?
    ensures var w := Rewrite(node, r, revision).value;
      (w.Text? || node.Text? ==> w == node) && (w.List? <==> node.List?) && (w.Dict? <==> node.Dict?)
  {
  }

  /** An expression holds of leaf labels after the rewriting as before. */
  lemma ExpressionKept(e: Node, labels: map<string, Node>, r: Renames, revision: string)
    requires Leaves(labels)
    ensures Satisfied(Settled("", e, r, revision), labels) <==> Satisfied(e, labels)
  {
    if Rewrite(e, r, revision).Some? {
      TextKept(e, r, revision);
      if e.Dict? {
        NullIsKept(r, revision);
        RewrittenEntry(e, "key", r, revision);
        RewrittenEntry(e, "operator", r, revision);
        RewrittenEntry(e, "values", r, revision);
        TextKept(Get(e.entries, "key"), r, revision);
        TextKept(Get(e.entries, "operator"), r, revision);
        TextKept(Get(e.entries, "values"), r, revision);
        RewrittenItems(Get(e.entries, "values"), r, revision);
        if Get(e.entries, "key").Text? && e.entries["key"].text in labels {
          LeafIn(ItemsOf(Get(e.entries, "values")), labels[e.entries["key"].text], r, revision);
        }
      }
    }
  }

  /** The pods have every label asked for but the revision, the release id is this release's if it is asked
      for, and the expressions hold of the marked labels. */
  predicate SelectsMarked(doc: Node, labels: map<string, Node>, revision: string, release: string) {
    AskedMet(AskedLabels(doc), labels, release)
    && forall e | e in Expressions(doc) :: Satisfied(e, Marked(labels, revision, release))
  }

  predicate AskedMet(asked: map<string, Node>, labels: map<string, Node>, release: string) {
    && (forall k | k in asked && k !in {REVISION, RELEASE} :: k in labels && labels[k] == asked[k])
    && (RELEASE in asked ==> asked[RELEASE] == Text(release))
  }

  lemma LeavesAgree(asked: map<string, Node>, labels: map<string, Node>, settles: bool, r: Renames, revision: string, release: string)
    requires Leaves(labels)
    ensures LabelsAgree(asked, labels, settles, r, revision, release) <==> AskedMet(asked, labels, release)
  {
    forall k | k in asked && k in labels
      ensures Settled(k, labels[k], r, revision) == Seen(settles, k, asked[k], r, revision) <==> labels[k] == asked[k]
    {
      DictsStayDicts(k, labels[k], r, revision);
      DictsStayDicts(k, asked[k], r, revision);
    }
  }

  /** For pods whose labels are no lists or dictionaries, in terms of the labels as they stand. */
  lemma LeafSelectionIff(docs: seq<Node>, revision: string, release: string, plan: Plan, i: nat, j: nat)
    requires Materialized(docs, revision, release, plan) && i < |docs| && j < |docs|
    requires SelectorPlace(docs[i]).Some? && IsDeployment(docs[j]) && Leaves(PodLabels(docs[j]))
    ensures PodLabels(plan.documents[j]) == Marked(PodLabels(docs[j]), revision, release)
    ensures SelectsPods(plan.documents[i], PodLabels(plan.documents[j]))
      <==> SelectsMarked(docs[i], PodLabels(docs[j]), revision, release)
  {
    SelectionIff(docs, revision, release, plan, i, j);
    var r, labels := RenamesOf(plan.names), PodLabels(docs[j]);
    DocumentAt(docs, revision, release, plan, j);
    DeploymentParts(docs[j], plan.names, revision, release);
    LeavesAreKept(labels, r, revision, release);
    LeavesAgree(AskedLabels(docs[i]), labels, IsDeployment(docs[i]), r, revision, release);
    forall e | e in Expressions(docs[i])
      ensures Satisfied(Seen(IsDeployment(docs[i]), "", e, r, revision), Marked(labels, revision, release))
        <==> Satisfied(e, Marked(labels, revision, release))
    {
      ExpressionKept(e, Marked(labels, revision, release), r, revision);
    }
  }

  // ---------- what it selected before ----------

  /** An expression about one of the labels that every pod gets. */
  predicate AboutMarks(e: Node) {
    Get(DictOf(e), "key") in {Text(REVISION), Text(RELEASE)}
  }

  lemma OtherExpressions(e: Node, labels: map<string, Node>, revision: string, release: string)
    requires !AboutMarks(e)
    ensures Satisfied(e, Marked(labels, revision, release)) <==> Satisfied(e, labels)
  {
  }

  lemma HasSelector(docs: seq<Node>, revision: string, release: string, plan: Plan, i: nat)
    requires Materialized(docs, revision, release, plan) && i < |docs| && SelectorPlace(docs[i]).Some?
    ensures SelectorOf(docs[i]).Dict?
  {
    DocumentAt(docs, revision, release, plan, i);
    ResourceText(docs[i]);
    StampedSpec(docs[i], plan.names, revision, release);
  }

  /** The document keeps what it selected: a release id it asks for is this release's, and its expressions
      about the revision and the release id hold of the new ones. */
  predicate KeepsPods(doc: Node, labels: map<string, Node>, revision: string, release: string) {
    && (RELEASE in AskedLabels(doc) ==> AskedLabels(doc)[RELEASE] == Text(release))
    && forall e | e in Expressions(doc) && AboutMarks(e) :: Satisfied(e, Marked(labels, revision, release))
  }

  /** A document that selected the pods of a deployment of its stack still does exactly when it keeps them. */
  lemma StillSelectsIff(docs: seq<Node>, revision: string, release: string, plan: Plan, i: nat, j: nat)
    requires Materialized(docs, revision, release, plan) && i < |docs| && j < |docs|
    requires SelectorPlace(docs[i]).Some? && IsDeployment(docs[j]) && Leaves(PodLabels(docs[j]))
    requires SelectsPods(docs[i], PodLabels(docs[j]))
    ensures SelectsPods(plan.documents[i], PodLabels(plan.documents[j]))
      <==> KeepsPods(docs[i], PodLabels(docs[j]), revision, release)
  {
    LeafSelectionIff(docs, revision, release, plan, i, j);
    HasSelector(docs, revision, release, plan, i);
    SelectsParts(docs[i], PodLabels(docs[j]));
    forall e | e in Expressions(docs[i]) && !AboutMarks(e)
      ensures Satisfied(e, Marked(PodLabels(docs[j]), revision, release))
    {
      OtherExpressions(e, PodLabels(docs[j]), revision, release);
    }
  }

  /** In particular a deployment and its own pods. */
  lemma DeploymentSelectsItsPods(docs: seq<Node>, revision: string, release: string, plan: Plan, i: nat)
    requires Materialized(docs, revision, release, plan) && i < |docs| && IsDeployment(docs[i])
    requires Leaves(PodLabels(docs[i])) && SelectsPods(docs[i], PodLabels(docs[i]))
    ensures SelectsPods(plan.documents[i], PodLabels(plan.documents[i]))
      <==> KeepsPods(docs[i], PodLabels(docs[i]), revision, release)
  {
    StillSelectsIff(docs, revision, release, plan, i, i);
  }
}
