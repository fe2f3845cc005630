/**
 Kubernetes documents as trees, and the rewriting of the references they hold: every text of the tree
 is where it was, and only references and revision labels read differently.
 */
module StackTree {
  import opened Common

  datatype Node =
    | Null
    | Text(text: string)
    | Scalar(source: string)
    | List(items: seq<Node>)
    | Dict(entries: map<string, Node>)

  const REVISION: string := "agenttrust.io/revision"
  const RELEASE: string := "agenttrust.io/release-id"

  datatype Renames = Renames(configMaps: map<string, string>, secretProviders: map<string, string>, deployments: map<string, string>)

  function Get(m: map<string, Node>, key: string): Node {
    if key in m then m[key] else Null
  }

  function RenameIn(m: map<string, string>, name: string): string {
    if name in m then m[name] else name
  }

  /** The field of a dictionary, if it is text, read through the renames. */
  function RenameField(node: Node, field: string, m: map<string, string>): Node {
    if node.Dict? && Get(node.entries, field).Text? && node.entries[field].text in m then
      Dict(node.entries[field := Text(m[node.entries[field].text])])
    else node
  }

  /** `_add_revision_to_selector` */
  function WithRevision(selector: Node, revision: string): Option<Node> {
    if !selector.Dict? then None
    else
      var labels := if "matchLabels" in selector.entries then selector.entries["matchLabels"] else Dict(map[]);
      if !labels.Dict? then None
      else Some(Dict(selector.entries["matchLabels" := Dict(labels.entries[REVISION := Text(revision)])]))
  }

  /** What happens to a child because of the key it is found under. */
  function Edit(key: string, child: Node, r: Renames, revision: string): Option<Node> {
    if key == "configMap" || key == "configMapRef" then Some(RenameField(child, "name", r.configMaps))
    else if key == "volumeAttributes" then Some(RenameField(child, "secretProviderClass", r.secretProviders))
    else if key == "scaleTargetRef" then Some(RenameField(child, "name", r.deployments))
    else if key == "labelSelector" && child.Dict? then WithRevision(child, revision)
    else Some(child)
  }

  /** `_rewrite_pod_references`, or None where it raises.  The edit of a child and the edits within it
      touch different fields, except for the value of a revision label that is itself a list or dictionary:
      the code overwrites it before it descends.  Label values are texts, so the edits are made in the order
      that follows the tree. */
  function Rewrite(node: Node, r: Renames, revision: string): Option<Node> {
    match node
    case List(items) =>
      if exists i :: 0 <= i < |items| && Rewrite(items[i], r, revision).None? then None
      else Some(List(seq(|items|, i requires 0 <= i < |items| && Rewrite(items[i], r, revision).Some? => Rewrite(items[i], r, revision).value)))
    case Dict(m) =>
      if exists k :: k in m && (Rewrite(m[k], r, revision).None? || Edit(k, Rewrite(m[k], r, revision).value, r, revision).None?) then None
      else Some(Dict(map k | k in m :: Edit(k, Rewrite(m[k], r, revision).value, r, revision).value))
    case _ => Some(node)
  }

  // ---------- places in a tree ----------

  datatype Step = Key(name: string) | Index(n: nat)

  function Child(node: Node, step: Step): Option<Node> {
    match step
    case Key(k) => if node.Dict? && k in node.entries then Some(node.entries[k]) else None
    case Index(n) => if node.List? && n < |node.items| then Some(node.items[n]) else None
  }

  function At(node: Node, p: seq<Step>): Option<Node>
    decreases p
  {
    if p == [] then Some(node)
    else
      var child := Child(node, p[0]);
      if child.None? then None else At(child.value, p[1..])
  }

  function TextAt(node: Node, p: seq<Step>): Option<string> {
    match At(node, p) case Some(Text(s)) => Some(s) case _ => None
  }

  /** What the text at a path names, by the last two keys of the path. */
  datatype Form = ConfigMapName | SecretProviderName | DeploymentName | Plain

  function FormOfKeys(key: string, field: string): Form {
    if (key == "configMap" || key == "configMapRef") && field == "name" then ConfigMapName
    else if key == "volumeAttributes" && field == "secretProviderClass" then SecretProviderName
    else if key == "scaleTargetRef" && field == "name" then DeploymentName
    else Plain
  }

  function FormOf(p: seq<Step>): Form {
    if |p| >= 2 && p[|p| - 2].Key? && p[|p| - 1].Key? then FormOfKeys(p[|p| - 2].name, p[|p| - 1].name) else Plain
  }

  function RenameText(form: Form, r: Renames, s: string): string {
    match form
    case ConfigMapName => RenameIn(r.configMaps, s)
    case SecretProviderName => RenameIn(r.secretProviders, s)
    case DeploymentName => RenameIn(r.deployments, s)
    case Plain => s
  }

  function RenameFound(form: Form, r: Renames, found: Option<string>): Option<string> {
    match found case None => None case Some(s) => Some(RenameText(form, r, s))
  }

  /** The steps from a selector to its revision label. */
  predicate ToRevision(p: seq<Step>, j: nat) {
    j + 1 < |p| && p[j] == Key("matchLabels") && p[j + 1] == Key(REVISION)
  }

  predicate LabelSteps(p: seq<Step>, j: nat) {
    j + 2 < |p| && p[j] == Key("labelSelector") && ToRevision(p, j + 1)
  }

  /** The place of the revision label of a label selector in the tree. */
  predicate IsRevisionLabel(node: Node, p: seq<Step>) {
    |p| >= 3 && LabelSteps(p, |p| - 3) && At(node, p[..|p| - 2]).Some? && At(node, p[..|p| - 2]).value.Dict?
  }

  /** The text a place holds after the rewriting. */
  function TextAfter(node: Node, p: seq<Step>, r: Renames, revision: string): Option<string> {
    if IsRevisionLabel(node, p) then Some(revision) else RenameFound(FormOf(p), r, TextAt(node, p))
  }

  // ---------- the rewriting, place by place ----------

  /** The text at a place under an edited child. */
  function EditedText(key: string, child: Node, rest: seq<Step>, r: Renames, revision: string): Option<string> {
    if key == "labelSelector" && child.Dict? && |rest| == 2 && ToRevision(rest, 0) then Some(revision)
    else if |rest| == 1 && rest[0].Key? then RenameFound(FormOfKeys(key, rest[0].name), r, TextAt(child, rest))
    else TextAt(child, rest)
  }

  lemma UpdatedEntry(m: map<string, Node>, key: string, node: Node, rest: seq<Step>)
    ensures TextAt(Dict(m[key := node]), rest)
      == if rest != [] && rest[0] == Key(key) then TextAt(node, rest[1..]) else TextAt(Dict(m), rest)
  {
  }

  lemma TextOfText(s: string, q: seq<Step>)
    ensures TextAt(Text(s), q) == if q == [] then Some(s) else None
  {
  }

  lemma FirstStep(q: seq<Step>, step: Step)
    ensures q == [step] <==> q != [] && q[0] == step && q[1..] == []
  {
    if q != [] {
      assert q == [q[0]] + q[1..];
    }
  }

  lemma FieldRenamed(node: Node, field: string, m: map<string, string>, rest: seq<Step>)
    ensures TextAt(RenameField(node, field, m), rest)
      == if rest == [Key(field)] && TextAt(node, rest).Some? then Some(RenameIn(m, TextAt(node, rest).value)) else TextAt(node, rest)
  {
    FirstStep(rest, Key(field));
    if node.Dict? && Get(node.entries, field).Text? {
      var was := node.entries[field].text;
      if rest != [] && rest[0] == Key(field) {
        TextOfText(was, rest[1..]);
        assert TextAt(node, rest) == TextAt(Text(was), rest[1..]);
      }
      if was in m {
        UpdatedEntry(node.entries, field, Text(m[was]), rest);
        if rest != [] { TextOfText(m[was], rest[1..]); }
      }
    } else if rest == [Key(field)] {
      assert At(node, rest) == Child(node, rest[0]) by { assert rest[1..] == []; }
    }
  }

  lemma EmptyHoldsNothing(q: seq<Step>)
    ensures TextAt(Dict(map[]), q) == None
  {
  }

  lemma RevisionAdded(selector: Node, revision: string, rest: seq<Step>)
    requires WithRevision(selector, revision).Some? && !(|rest| > 2 && ToRevision(rest, 0))
    ensures TextAt(WithRevision(selector, revision).value, rest)
      == if |rest| == 2 && ToRevision(rest, 0) then Some(revision) else TextAt(selector, rest)
  {
    var labels := if "matchLabels" in selector.entries then selector.entries["matchLabels"] else Dict(map[]);
    UpdatedEntry(selector.entries, "matchLabels", Dict(labels.entries[REVISION := Text(revision)]), rest);
    if rest != [] && rest[0] == Key("matchLabels") {
      var q := rest[1..];
      UpdatedEntry(labels.entries, REVISION, Text(revision), q);
      EmptyHoldsNothing(q);
      assert TextAt(labels, q) == TextAt(selector, rest);
      if q != [] {
        TextOfText(revision, q[1..]);
      }
    }
  }

  lemma EditedAt(key: string, child: Node, rest: seq<Step>, r: Renames, revision: string)
    requires Edit(key, child, r, revision).Some?
    requires !(key == "labelSelector" && |rest| > 2 && ToRevision(rest, 0))
    ensures TextAt(Edit(key, child, r, revision).value, rest) == EditedText(key, child, rest, r, revision)
  {
    if key == "configMap" || key == "configMapRef" {
      FieldRenamed(child, "name", r.configMaps, rest);
    } else if key == "volumeAttributes" {
      FieldRenamed(child, "secretProviderClass", r.secretProviders, rest);
    } else if key == "scaleTargetRef" {
      FieldRenamed(child, "name", r.deployments, rest);
    } else if key == "labelSelector" && child.Dict? {
      RevisionAdded(child, revision, rest);
    }
  }

  /** The place lies below the value of a revision label. */
  predicate BelowLabel(p: seq<Step>) {
    exists j :: 0 <= j < |p| - 3 && LabelSteps(p, j)
  }

  lemma BelowLabelRest(p: seq<Step>)
    requires p != [] && !BelowLabel(p)
    ensures !BelowLabel(p[1..])
    ensures !(p[0] == Key("labelSelector") && |p| > 3 && ToRevision(p[1..], 0))
  {
    forall j | 0 <= j < |p[1..]| - 3
      ensures !LabelSteps(p[1..], j)
    {
      assert !LabelSteps(p, j + 1);
    }
    assert |p| > 3 ==> !LabelSteps(p, 0);
  }

  lemma SamePlace(node: Node, step: Step, child: Node, rest: seq<Step>)
    requires Child(node, step) == Some(child)
    ensures At(node, [step] + rest) == At(child, rest)
  {
    assert ([step] + rest)[1..] == rest;
  }

  /** What is expected of a longer path is what is expected of its rest under the child. */
  lemma LongExpected(node: Node, child: Node, p: seq<Step>, r: Renames, revision: string)
    requires |p| > 3 && Child(node, p[0]) == Some(child)
    ensures TextAfter(node, p, r, revision) == TextAfter(child, p[1..], r, revision)
  {
    var rest := p[1..];
    SamePlace(node, p[0], child, rest);
    SamePlace(node, p[0], child, rest[..|rest| - 2]);
    assert p == [p[0]] + rest && p[..|p| - 2] == [p[0]] + rest[..|rest| - 2];
    assert FormOf(p) == FormOf(rest);
    assert LabelSteps(p, |p| - 3) <==> LabelSteps(rest, |rest| - 3);
  }

  lemma ShortExpected(m: map<string, Node>, key: string, child: Node, p: seq<Step>, r: Renames, revision: string)
    requires 0 < |p| <= 3 && p[0] == Key(key) && key in m && (child.Dict? <==> m[key].Dict?)
    requires TextAt(child, p[1..]) == TextAfter(m[key], p[1..], r, revision)
    ensures EditedText(key, child, p[1..], r, revision) == TextAfter(Dict(m), p, r, revision)
  {
    var rest := p[1..];
    SamePlace(Dict(m), p[0], m[key], rest);
    assert p == [p[0]] + rest;
    if |p| == 3 {
      SamePlace(Dict(m), p[0], m[key], []);
      assert p[..1] == [p[0]] + [];
      assert LabelSteps(p, 0) <==> key == "labelSelector" && ToRevision(rest, 0);
      assert FormOf(p) == FormOf(rest);
    } else if |p| == 2 {
      assert FormOf(rest) == Plain;
    }
  }

  /** The expected text at a place, by its first step. */
  lemma ExpectedStep(m: map<string, Node>, key: string, child: Node, p: seq<Step>, r: Renames, revision: string)
    requires p != [] && p[0] == Key(key) && key in m && (child.Dict? <==> m[key].Dict?)
    requires TextAt(child, p[1..]) == TextAfter(m[key], p[1..], r, revision)
    ensures EditedText(key, child, p[1..], r, revision) == TextAfter(Dict(m), p, r, revision)
  {
    if |p| <= 3 {
      ShortExpected(m, key, child, p, r, revision);
    } else {
      LongExpected(Dict(m), m[key], p, r, revision);
    }
  }

  lemma KeepsKind(node: Node, r: Renames, revision: string)
    requires Rewrite(node, r, revision).Some?
    ensures Rewrite(node, r, revision).value.Dict? <==> node.Dict?
  {
  }

  /** Every text of a tree stays in its place.  A reference reads through the renames, the revision label
      of every label selector reads the revision, and nothing else changes. */
  lemma {:induction false} RewriteKeepsPlaces(node: Node, p: seq<Step>, r: Renames, revision: string)
    requires Rewrite(node, r, revision).Some? && !BelowLabel(p)
    ensures TextAt(Rewrite(node, r, revision).value, p) == TextAfter(node, p, r, revision)
    decreases p
  {
    if p != [] && Child(node, p[0]).Some? {
      BelowLabelRest(p);
      match node
      case List(items) => RewriteListPlace(node, p, r, revision);
      case Dict(m) =>
        var key := p[0].name;
        var child := Rewrite(m[key], r, revision).value;
        RewriteKeepsPlaces(m[key], p[1..], r, revision);
        KeepsKind(m[key], r, revision);
        EditedAt(key, child, p[1..], r, revision);
        ExpectedStep(m, key, child, p, r, revision);
    } else {
      NothingThere(node, p, r, revision);
    }
  }

  lemma RewriteListPlace(node: Node, p: seq<Step>, r: Renames, revision: string)
    requires node.List? && Rewrite(node, r, revision).Some? && p != [] && Child(node, p[0]).Some? && !BelowLabel(p)
    ensures TextAt(Rewrite(node, r, revision).value, p) == TextAfter(node, p, r, revision)
    decreases p, 0
  {
    var item := node.items[p[0].n];
    BelowLabelRest(p);
    RewriteKeepsPlaces(item, p[1..], r, revision);
    ListStep(node.items, p, r, revision);
  }

  lemma ListStep(items: seq<Node>, p: seq<Step>, r: Renames, revision: string)
    requires p != [] && p[0].Index? && p[0].n < |items|
    ensures TextAfter(List(items), p, r, revision) == TextAfter(items[p[0].n], p[1..], r, revision)
  {
    if |p| > 3 {
      LongExpected(List(items), items[p[0].n], p, r, revision);
    }
  }

  lemma NothingThere(node: Node, p: seq<Step>, r: Renames, revision: string)
    requires Rewrite(node, r, revision).Some?
    requires p == [] || Child(node, p[0]).None?
    ensures TextAt(Rewrite(node, r, revision).value, p) == TextAfter(node, p, r, revision)
  {
    if p != [] {
      assert TextAt(node, p) == None;
      if |p| >= 3 {
        assert p[..|p| - 2][0] == p[0];
        assert At(node, p[..|p| - 2]) == None;
      }
    }
  }
}
