/**
 * The graph view of the module list: the pass that gives every select
 * attribute without a value its first option, the node each module becomes,
 * the edits of core and dynamic attributes (which find the module by id), and
 * the newline-joined prompt.
 */
module ModuleFlow {
  import opened Types
  import opened Text
  import Page

  // ---------------------------------------------------------------------------
  // Default values for dynamic attributes

  /** The attribute offers at least one option. */
  predicate HasOptions(a: DynamicAttribute) {
    a.options.Some? && |a.options.value| > 0
  }

  /** An attribute the default pass leaves alone: it has a value, or nothing to default to. */
  predicate Settled(a: DynamicAttribute) {
    a.value.Some? || !HasOptions(a)
  }

  /** A missing value becomes the first option's value; anything else stays as it is. */
  function FillAttribute(a: DynamicAttribute): (r: DynamicAttribute)
    ensures r.key == a.key && r.caption == a.caption && r.kind == a.kind && r.options == a.options
    ensures Settled(a) ==> r == a
    ensures !Settled(a) ==> r.value == Some(a.options.value[0].value)
    ensures Settled(r)
  {
    if a.value.None? && HasOptions(a) then a.(value := Some(a.options.value[0].value)) else a
  }

  /** The module with every dynamic attribute defaulted; a module without the list is returned as it is. */
  function FillModule(m: PromptModule): (r: PromptModule)
    ensures r == m.(attributes := m.attributes.(dynamicAttributes := r.attributes.dynamicAttributes))
    ensures m.attributes.dynamicAttributes.None? ==> r == m
    ensures m.attributes.dynamicAttributes.Some? ==>
      var before := m.attributes.dynamicAttributes.value;
      && r.attributes.dynamicAttributes.Some?
      && |r.attributes.dynamicAttributes.value| == |before|
      && forall j :: 0 <= j < |before| ==> r.attributes.dynamicAttributes.value[j] == FillAttribute(before[j])
  {
    match m.attributes.dynamicAttributes
    case None => m
    case Some(attrs) =>
      var filled := seq(|attrs|, j requires 0 <= j < |attrs| => FillAttribute(attrs[j]));
      m.(attributes := m.attributes.(dynamicAttributes := Some(filled)))
  }

  /** The pass at the start of the effect: `modules.map(...)` defaulting every module. */
  function FillDefaults(modules: seq<PromptModule>): (r: seq<PromptModule>)
    ensures |r| == |modules|
    ensures forall i :: 0 <= i < |modules| ==> r[i] == FillModule(modules[i])
  {
    seq(|modules|, i requires 0 <= i < |modules| => FillModule(modules[i]))
  }

  /** Every dynamic attribute of every module is settled. */
  ghost predicate AllSettled(modules: seq<PromptModule>) {
    forall i, j :: 0 <= i < |modules| && modules[i].attributes.dynamicAttributes.Some?
      && 0 <= j < |modules[i].attributes.dynamicAttributes.value|
      ==> Settled(modules[i].attributes.dynamicAttributes.value[j])
  }

  /** The pass changes the list exactly when some attribute still awaits its default. */
  lemma FillChangesIffUnsettled(modules: seq<PromptModule>)
    ensures FillDefaults(modules) == modules <==> AllSettled(modules)
  {
    var filled := FillDefaults(modules);
    if AllSettled(modules) {
      forall i | 0 <= i < |modules| ensures filled[i] == modules[i] {
        var m := modules[i];
        if m.attributes.dynamicAttributes.Some? {
          var attrs := m.attributes.dynamicAttributes.value;
          assert filled[i].attributes.dynamicAttributes.value == attrs;
        }
      }
    } else {
      var i, j :| 0 <= i < |modules| && modules[i].attributes.dynamicAttributes.Some?
        && 0 <= j < |modules[i].attributes.dynamicAttributes.value|
        && !Settled(modules[i].attributes.dynamicAttributes.value[j]);
      assert filled[i].attributes.dynamicAttributes.value[j].value.Some?;
      assert filled[i] != modules[i];
    }
  }

  /** After the pass nothing awaits a default, so a second pass changes nothing. */
  lemma FillIdempotent(modules: seq<PromptModule>)
    ensures AllSettled(FillDefaults(modules))
    ensures FillDefaults(FillDefaults(modules)) == FillDefaults(modules)
  {
    FillChangesIffUnsettled(FillDefaults(modules));
  }

  /** The pass keeps the list's length, order, ids and every field other than the dynamic attributes. */
  lemma FillKeepsEverythingElse(modules: seq<PromptModule>)
    ensures |FillDefaults(modules)| == |modules|
    ensures forall i :: 0 <= i < |modules| ==>
      var r := FillDefaults(modules)[i];
      && r.id == modules[i].id && r.title == modules[i].title && r.icon == modules[i].icon
      && r.kind == modules[i].kind && r.position == modules[i].position
      && r.attributes.coreAttributes == modules[i].attributes.coreAttributes
      && r.attributes.parameters == modules[i].attributes.parameters
      && r.attributes.dynamicAttributes.Some? == modules[i].attributes.dynamicAttributes.Some?
  {
  }

  // ---------------------------------------------------------------------------
  // Nodes

  /** A node of the graph view: the module's data placed at a position. */
  datatype Node = Node(
    id: string,
    kind: string,
    position: Position,
    title: string,
    icon: string,
    attributes: Attributes,
    draggable: bool,
    connectable: bool,
    selectable: bool)

  /** Where a module without a position is drawn. */
  const Origin: Position := Position(0.0, 0.0)

  /** The node a module becomes: its id, type name, data and position (the origin when it has none). */
  function ToNode(m: PromptModule): (n: Node)
    ensures n.id == m.id && n.kind == m.kind.Name() && n.title == m.title && n.icon == m.icon
    ensures n.attributes == m.attributes
    ensures m.position.Some? ==> n.position == m.position.value
    ensures m.position.None? ==> n.position == Position(0.0, 0.0)
    ensures n.draggable && n.connectable && n.selectable
  {
    var position := m.position.GetOr(Origin);
    Node(m.id, m.kind.Name(), position, m.title, m.icon, m.attributes, true, true, true)
  }

  /** The nodes built from the modules: one per module, same order, same id and type. */
  function ToNodes(modules: seq<PromptModule>): (r: seq<Node>)
    ensures |r| == |modules|
    ensures forall i :: 0 <= i < |modules| ==>
      && r[i].id == modules[i].id
      && r[i].kind == modules[i].kind.Name()
      && (modules[i].position.Some? ==> r[i].position == modules[i].position.value)
      && (modules[i].position.None? ==> r[i].position == Position(0.0, 0.0))
      && r[i].attributes == modules[i].attributes
      && r[i].draggable && r[i].connectable && r[i].selectable
  {
    seq(|modules|, i requires 0 <= i < |modules| => ToNode(modules[i]))
  }

  /** What one run of the effect does: hand back the defaulted list, or set the nodes. */
  datatype EffectOutcome = UpdateModules(modules: seq<PromptModule>) | SetNodes(nodes: seq<Node>)

  /** The effect that runs when the module list changes. */
  function ModulesChanged(modules: seq<PromptModule>): (r: EffectOutcome)
    ensures r.UpdateModules? <==> FillDefaults(modules) != modules
    ensures r.UpdateModules? ==> r.modules == FillDefaults(modules)
    ensures r.SetNodes? ==> r.nodes == ToNodes(modules)
  {
    var filled := FillDefaults(modules);
    if filled != modules then UpdateModules(filled) else SetNodes(ToNodes(modules))
  }

  /** The effect updates the modules at most once before it settles on building nodes. */
  lemma EffectSettles(modules: seq<PromptModule>)
    ensures ModulesChanged(modules).UpdateModules? <==> !AllSettled(modules)
    ensures ModulesChanged(modules).UpdateModules? ==>
      ModulesChanged(ModulesChanged(modules).modules) == SetNodes(ToNodes(FillDefaults(modules)))
  {
    FillChangesIffUnsettled(modules);
    FillIdempotent(modules);
  }

  /** Defaulting never renames, retypes or moves a node. */
  lemma DefaultsKeepNodes(modules: seq<PromptModule>)
    ensures var before, after := ToNodes(modules), ToNodes(FillDefaults(modules));
      |after| == |before|
      && forall i :: 0 <= i < |before| ==>
        after[i].id == before[i].id && after[i].kind == before[i].kind && after[i].position == before[i].position
  {
    FillKeepsEverythingElse(modules);
  }

  /**
   * `onDrop`: `ready` says that the canvas bounds and the flow instance are both
   * available, `now` is the clock reading and `position` the drop point already
   * converted to flow coordinates.
   */
  function OnDrop(nodes: seq<Node>, moduleType: string, ready: bool, now: int, position: Position): (r: seq<Node>)
    ensures !ready ==> r == nodes
    ensures ready ==>
      && |r| == |nodes| + 1 && r[..|nodes|] == nodes
      && r[|nodes|].id == moduleType + "-" + IntToString(now)
      && r[|nodes|].kind == moduleType
      && r[|nodes|].title == "New " + moduleType
      && r[|nodes|].position == position
      && r[|nodes|].attributes == Attributes(None, Some([]), [])
  {
    if ready then
      var id := moduleType + "-" + IntToString(now);
      nodes + [Node(id, moduleType, position, "New " + moduleType, "🎭", Attributes(None, Some([]), []), true, true, true)]
    else nodes
  }

  // ---------------------------------------------------------------------------
  // Edits that find the module by id

  /** `modules.findIndex(m => m.id === id)`, with None for -1. */
  function FindIndex(modules: seq<PromptModule>, id: string): (r: Option<nat>)
    ensures r.None? <==> forall j :: 0 <= j < |modules| ==> modules[j].id != id
    ensures r.Some? ==> r.value < |modules| && modules[r.value].id == id
    ensures r.Some? ==> forall j :: 0 <= j < r.value ==> modules[j].id != id
  {
    if modules == [] then None
    else if modules[0].id == id then Some(0)
    else
      match FindIndex(modules[1..], id)
      case None => None
      case Some(i) => Some(i + 1)
  }

  /** The two fields of the core record the graph view edits. */
  datatype CoreField = Gender | AgeStage

  /** A field of a possibly missing core record. */
  function CoreValue(core: Option<CoreAttributes>, field: CoreField): Option<string> {
    match core
    case None => None
    case Some(c) => if field == Gender then c.gender else c.ageStage
  }

  /** `{ ...coreAttributes, [field]: value }`; spreading a missing record spreads nothing. */
  function SetCoreField(core: Option<CoreAttributes>, field: CoreField, value: string): (r: CoreAttributes)
    ensures CoreValue(Some(r), field) == Some(value)
    ensures forall other :: other != field ==> CoreValue(Some(r), other) == CoreValue(core, other)
  {
    var c := core.GetOr(CoreAttributes(None, None));
    if field == Gender then c.(gender := Some(value)) else c.(ageStage := Some(value))
  }

  /** The gender and age-stage selects: set one core field of the first module with this id. */
  function UpdateCoreAttribute(modules: seq<PromptModule>, id: string, field: CoreField, value: string)
    : (r: seq<PromptModule>)
    ensures |r| == |modules|
    ensures FindIndex(modules, id).None? ==> r == modules
    ensures FindIndex(modules, id).Some? ==>
      var i := FindIndex(modules, id).value;
      && (forall j :: 0 <= j < |modules| && j != i ==> r[j] == modules[j])
      && r[i].attributes.coreAttributes.Some?
      && CoreValue(r[i].attributes.coreAttributes, field) == Some(value)
      && (forall other :: other != field ==>
            CoreValue(r[i].attributes.coreAttributes, other) == CoreValue(modules[i].attributes.coreAttributes, other))
      && r[i] == modules[i].(attributes := modules[i].attributes.(coreAttributes := r[i].attributes.coreAttributes))
  {
    match FindIndex(modules, id)
    case None => modules
    case Some(i) =>
      var m := modules[i];
      var core := SetCoreField(m.attributes.coreAttributes, field, value);
      modules[i := m.(attributes := m.attributes.(coreAttributes := Some(core)))]
  }

  /** The edit a dynamic attribute form reports can reach its attribute: the module found by id has it. */
  predicate CanReach(modules: seq<PromptModule>, id: string, attrIndex: nat) {
    match FindIndex(modules, id)
    case None => true
    case Some(i) =>
      modules[i].attributes.dynamicAttributes.Some?
      && attrIndex < |modules[i].attributes.dynamicAttributes.value|
  }

  /** A dynamic attribute form's change: replace entry `attrIndex` of the first module with this id. */
  function UpdateDynamicAttribute(modules: seq<PromptModule>, id: string, attrIndex: nat, updated: DynamicAttribute)
    : (r: seq<PromptModule>)
    requires CanReach(modules, id, attrIndex)
    ensures |r| == |modules|
    ensures FindIndex(modules, id).None? ==> r == modules
    ensures FindIndex(modules, id).Some? ==>
      var i := FindIndex(modules, id).value;
      var before := modules[i].attributes.dynamicAttributes.value;
      && (forall j :: 0 <= j < |modules| && j != i ==> r[j] == modules[j])
      && r[i].attributes.dynamicAttributes == Some(before[attrIndex := updated])
      && r[i] == modules[i].(attributes := modules[i].attributes.(dynamicAttributes := r[i].attributes.dynamicAttributes))
  {
    match FindIndex(modules, id)
    case None => modules
    case Some(i) =>
      var m := modules[i];
      var attrs := m.attributes.dynamicAttributes.value[attrIndex := updated];
      modules[i := m.(attributes := m.attributes.(dynamicAttributes := Some(attrs)))]
  }

  /**
   * A parameter slider's change: the owner's parameter update on the first
   * module with this id. The slider reports whole numbers from 0 to 100.
   */
  function SliderChange(modules: seq<PromptModule>, id: string, name: string, value: int): (r: seq<PromptModule>)
    ensures |r| == |modules|
    ensures FindIndex(modules, id).None? ==> r == modules
    ensures FindIndex(modules, id).Some? ==>
      var i := FindIndex(modules, id).value;
      && (forall j :: 0 <= j < |modules| && j != i ==> r[j] == modules[j])
      && Lookup(r[i].attributes.parameters, name) == Some(value)
      && (forall k :: k != name ==> Lookup(r[i].attributes.parameters, k) == Lookup(modules[i].attributes.parameters, k))
      && r[i] == modules[i].(attributes := modules[i].attributes.(parameters := r[i].attributes.parameters))
      && r[i].attributes.parameters == Page.SetParameter(modules[i].attributes.parameters, name, value)
  {
    match FindIndex(modules, id)
    case None => modules
    case Some(i) => Page.HandleUpdateParameter(modules, i, name, value)
  }

  // ---------------------------------------------------------------------------
  // The prompt

  /** `x || ''` for a possibly missing string. */
  function OrEmpty(s: Option<string>): string {
    s.GetOr("")
  }

  /** The core phrase: gender and age stage, each empty when missing. */
  function CorePart(c: CoreAttributes): (r: string)
    ensures var g, a := OrEmpty(c.gender), OrEmpty(c.ageStage);
      && |r| == 8 + |g| + |a|
      && r[..3] == "性别:" && r[3..3 + |g|] == g
      && r[3 + |g|..8 + |g|] == ", 年龄:" && r[8 + |g|..] == a
  {
    "性别:" + OrEmpty(c.gender) + ", 年龄:" + OrEmpty(c.ageStage)
  }

  /** An attribute the prompt mentions: its value is present and not only white space. */
  predicate IsShown(a: DynamicAttribute) {
    a.value.Some? && !IsBlank(a.value.value)
  }

  /** `${label}:${value}`. */
  function AttributePart(a: DynamicAttribute): string
    requires a.value.Some?
  {
    a.caption + ":" + a.value.value
  }

  /** The positions of the shown attributes, in increasing order. */
  function ShownPositions(attrs: seq<DynamicAttribute>): (pos: seq<nat>)
    ensures forall i :: i in pos ==> i < |attrs| && IsShown(attrs[i])
    ensures forall i :: 0 <= i < |attrs| && IsShown(attrs[i]) ==> i in pos
    ensures forall k :: 0 <= k < |pos| ==> pos[k] < |attrs| && IsShown(attrs[pos[k]])
    ensures forall k, l :: 0 <= k < l < |pos| ==> pos[k] < pos[l]
  {
    if attrs == [] then []
    else
      var last := |attrs| - 1;
      var init := ShownPositions(attrs[..last]);
      assert forall k :: 0 <= k < |init| ==> init[k] in init;
      assert forall k :: 0 <= k < |init| ==> attrs[init[k]] == attrs[..last][init[k]];
      init + (if IsShown(attrs[last]) then [last] else [])
  }

  /** The parts the dynamic-attribute loop pushes: one `label:value` per shown attribute, in order. */
  function AttributeParts(attrs: seq<DynamicAttribute>): seq<string> {
    if attrs == [] then []
    else
      var last := attrs[|attrs| - 1];
      AttributeParts(attrs[..|attrs| - 1]) + (if IsShown(last) then [AttributePart(last)] else [])
  }

  /** The shown attributes, in their order. */
  function ShownAttributes(attrs: seq<DynamicAttribute>): (r: seq<DynamicAttribute>)
    ensures forall a :: a in r <==> a in attrs && IsShown(a)
  {
    if attrs == [] then []
    else
      var last := attrs[|attrs| - 1];
      var init := attrs[..|attrs| - 1];
      assert attrs == init + [last];
      ShownAttributes(init) + (if IsShown(last) then [last] else [])
  }

  /** The shown attributes are the attributes at the shown positions, in increasing order. */
  lemma {:induction false} ShownAttributesInOrder(attrs: seq<DynamicAttribute>)
    ensures var r, pos := ShownAttributes(attrs), ShownPositions(attrs);
      |r| == |pos| && forall k :: 0 <= k < |r| ==> r[k] == attrs[pos[k]]
  {
    if attrs != [] {
      var last := attrs[|attrs| - 1];
      var init := attrs[..|attrs| - 1];
      ShownAttributesInOrder(init);
      var pos, shown := ShownPositions(init), ShownAttributes(init);
      var pos', shown' := ShownPositions(attrs), ShownAttributes(attrs);
      assert pos' == pos + (if IsShown(last) then [|attrs| - 1] else []);
      assert shown' == shown + (if IsShown(last) then [last] else []);
      forall k | 0 <= k < |shown'|
        ensures shown'[k] == attrs[pos'[k]]
      {
        if k < |shown| {
          assert shown'[k] == shown[k] == init[pos[k]];
          assert pos'[k] == pos[k];
        }
      }
    }
  }

  /** Each shown attribute occurs in the result as often as in the list; the others do not occur. */
  lemma {:induction false} ShownAttributesCount(attrs: seq<DynamicAttribute>)
    ensures forall a :: multiset(ShownAttributes(attrs))[a] == if IsShown(a) then multiset(attrs)[a] else 0
  {
    if attrs != [] {
      var last := attrs[|attrs| - 1];
      var init := attrs[..|attrs| - 1];
      ShownAttributesCount(init);
      assert attrs == init + [last];
      assert multiset(attrs) == multiset(init) + multiset{last};
    }
  }

  /** The attribute parts are exactly one `label:value` per shown attribute, in order. */
  lemma {:induction false} AttributePartsAreShownOnes(attrs: seq<DynamicAttribute>)
    ensures var shown := ShownAttributes(attrs);
      |AttributeParts(attrs)| == |shown|
      && forall k :: 0 <= k < |shown| ==> shown[k].value.Some? && AttributeParts(attrs)[k] == AttributePart(shown[k])
  {
    if attrs != [] {
      AttributePartsAreShownOnes(attrs[..|attrs| - 1]);
    }
  }

  /** The core phrase, when the module has a core record. */
  function CoreParts(m: PromptModule): seq<string> {
    match m.attributes.coreAttributes
    case Some(c) => [CorePart(c)]
    case None => []
  }

  /** The shown dynamic attributes, when the module has the list. */
  function DynamicParts(m: PromptModule): seq<string> {
    match m.attributes.dynamicAttributes
    case Some(attrs) => AttributeParts(attrs)
    case None => []
  }

  /** All parts of one module, in the order the loop pushes them. */
  function Parts(m: PromptModule): seq<string> {
    CoreParts(m) + DynamicParts(m) + EntryTexts(m.attributes.parameters)
  }

  /** `params.filter(Boolean)`: the non-empty strings, in order. */
  function KeepNonEmpty(xs: seq<string>): (r: seq<string>)
    ensures forall s :: s in r ==> s != ""
    ensures (forall i :: 0 <= i < |xs| ==> xs[i] != "") ==> r == xs
  {
    if xs == [] then []
    else
      assert forall i :: 1 <= i < |xs| ==> xs[1..][i - 1] == xs[i];
      (if xs[0] == "" then [] else [xs[0]]) + KeepNonEmpty(xs[1..])
  }

  /** No part is empty, so the filter before the join drops nothing. */
  lemma {:induction false} PartsAreNonEmpty(m: PromptModule)
    ensures forall s :: s in Parts(m) ==> s != ""
    ensures KeepNonEmpty(Parts(m)) == Parts(m)
  {
    if m.attributes.dynamicAttributes.Some? {
      AttributePartsNonEmpty(m.attributes.dynamicAttributes.value);
    }
    var parts := Parts(m);
    assert forall i :: 0 <= i < |parts| ==> parts[i] in parts;
  }

  lemma {:induction false} AttributePartsNonEmpty(attrs: seq<DynamicAttribute>)
    ensures forall s :: s in AttributeParts(attrs) ==> s != ""
  {
    if attrs != [] {
      AttributePartsNonEmpty(attrs[..|attrs| - 1]);
    }
  }

  /** Parts come in a fixed order: the core phrase, then the shown attributes, then the parameters. */
  lemma PartsLayout(m: PromptModule)
    ensures var core := if m.attributes.coreAttributes.Some? then 1 else 0;
      var shown := if m.attributes.dynamicAttributes.Some? then ShownAttributes(m.attributes.dynamicAttributes.value) else [];
      var ps := m.attributes.parameters;
      var parts := Parts(m);
      && |parts| == core + |shown| + |ps|
      && (m.attributes.coreAttributes.Some? ==> parts[0] == CorePart(m.attributes.coreAttributes.value))
      && (forall k :: 0 <= k < |shown| ==> shown[k].value.Some? && parts[core + k] == AttributePart(shown[k]))
      && parts[core + |shown|..] == EntryTexts(ps)
  {
    var core, dynamic, entries := CoreParts(m), DynamicParts(m), EntryTexts(m.attributes.parameters);
    var parts := Parts(m);
    assert parts == core + dynamic + entries;
    ThreePieces(core, dynamic, entries);
    assert |core| == if m.attributes.coreAttributes.Some? then 1 else 0;
    if m.attributes.dynamicAttributes.Some? {
      var attrs := m.attributes.dynamicAttributes.value;
      AttributePartsAreShownOnes(attrs);
      assert dynamic == AttributeParts(attrs);
      var shown := ShownAttributes(attrs);
      assert forall k :: 0 <= k < |shown| ==> parts[|core| + k] == AttributePart(shown[k]);
    }
  }

  /** Where the pieces of a three-way concatenation sit. */
  lemma ThreePieces(a: seq<string>, b: seq<string>, c: seq<string>)
    ensures |a + b + c| == |a| + |b| + |c|
    ensures |a| > 0 ==> (a + b + c)[0] == a[0]
    ensures forall k :: 0 <= k < |b| ==> (a + b + c)[|a| + k] == b[k]
    ensures (a + b + c)[|a| + |b|..] == c
  {
  }

  /** One module's line: `title: ` followed by its parts separated by ", ". */
  function Segment(m: PromptModule): string {
    m.title + ": " + Join(KeepNonEmpty(Parts(m)), ", ")
  }

  /** The filter before the join drops nothing: the line holds every part. */
  lemma SegmentJoinsAllParts(m: PromptModule)
    ensures Segment(m) == m.title + ": " + Join(Parts(m), ", ")
  {
    PartsAreNonEmpty(m);
  }

  function Segments(modules: seq<PromptModule>): (r: seq<string>)
    ensures |r| == |modules|
    ensures forall i :: 0 <= i < |modules| ==> r[i] == Segment(modules[i])
  {
    seq(|modules|, i requires 0 <= i < |modules| => Segment(modules[i]))
  }

  /** The prompt of the graph view: one line per module, in list order. */
  function FlowPrompt(modules: seq<PromptModule>): (r: string)
    ensures r == "" <==> modules == []
    ensures |modules| == 1 ==> r == Segment(modules[0])
    ensures modules != [] ==> |Segments(modules)[0]| <= |r| && r[..|Segments(modules)[0]|] == Segments(modules)[0]
  {
    Join(Segments(modules), "\n")
  }

  /** The dynamic-attribute loop: push `label:value` for every shown attribute. */
  method PushShown(parts: seq<string>, attrs: seq<DynamicAttribute>) returns (r: seq<string>)
    ensures r == parts + AttributeParts(attrs)
  {
    r := parts;
    for i := 0 to |attrs|
      invariant r == parts + AttributeParts(attrs[..i])
    {
      var a := attrs[i];
      assert attrs[..i + 1][..i] == attrs[..i];
      if a.value.Some? && !IsBlank(a.value.value) {
        r := r + [AttributePart(a)];
      }
    }
    assert attrs[..|attrs|] == attrs;
  }

  /** The parameter loop: push `key:value` for every entry, in insertion order. */
  method PushEntries(parts: seq<string>, ps: Parameters) returns (r: seq<string>)
    ensures r == parts + EntryTexts(ps)
  {
    r := parts;
    for j := 0 to |ps|
      invariant r == parts + EntryTexts(ps[..j])
    {
      assert EntryTexts(ps[..j + 1]) == EntryTexts(ps[..j]) + [EntryText(ps[j])];
      r := r + [EntryText(ps[j])];
    }
    assert ps[..|ps|] == ps;
  }

  /** The parts of one module, built as `generatePrompt` builds them: by pushing inside loops. */
  method CollectParts(m: PromptModule) returns (parts: seq<string>)
    ensures parts == Parts(m)
  {
    parts := [];
    if m.attributes.coreAttributes.Some? {
      parts := parts + [CorePart(m.attributes.coreAttributes.value)];
    }
    assert parts == CoreParts(m);
    if m.attributes.dynamicAttributes.Some? {
      parts := PushShown(parts, m.attributes.dynamicAttributes.value);
    }
    assert parts == CoreParts(m) + DynamicParts(m);
    parts := PushEntries(parts, m.attributes.parameters);
  }

  /** One pass of the outer loop: the module's title, then its non-empty parts joined by ", ". */
  method ModuleLine(m: PromptModule) returns (line: string)
    ensures line == Segment(m)
  {
    var parts := CollectParts(m);
    line := m.title + ": " + Join(KeepNonEmpty(parts), ", ");
  }

  /** `generatePrompt`: the modules' lines joined by newlines. */
  method GeneratePrompt(modules: seq<PromptModule>) returns (prompt: string)
    ensures prompt == FlowPrompt(modules)
  {
    var lines: seq<string> := [];
    for k := 0 to |modules|
      invariant lines == Segments(modules[..k])
    {
      var line := ModuleLine(modules[k]);
      assert modules[..k + 1] == modules[..k] + [modules[k]];
      SegmentsAppend(modules[..k], modules[k]);
      lines := lines + [line];
    }
    assert modules[..|modules|] == modules;
    prompt := Join(lines, "\n");
  }

  /** Appending a module appends its line. */
  lemma SegmentsAppend(modules: seq<PromptModule>, m: PromptModule)
    ensures Segments(modules + [m]) == Segments(modules) + [Segment(m)]
  {
    assert forall i :: 0 <= i < |modules| ==> (modules + [m])[i] == modules[i];
  }

  /** A module appended to the list adds one line at the end. */
  lemma PromptAppend(modules: seq<PromptModule>, m: PromptModule)
    ensures FlowPrompt(modules + [m]) == if modules == [] then Segment(m) else FlowPrompt(modules) + "\n" + Segment(m)
  {
    SegmentsAppend(modules, m);
    JoinAppend(Segments(modules), Segment(m), "\n");
  }

  /** A defaulted attribute appears in the prompt exactly when its value, or the first option's, is not blank. */
  lemma DefaultIsShown(a: DynamicAttribute)
    ensures IsShown(FillAttribute(a)) <==>
      IsShown(a) || (a.value.None? && HasOptions(a) && !IsBlank(a.options.value[0].value))
  {
  }

  /** After a gender edit, the module's line starts with the new gender and the old age stage. */
  lemma GenderEditReachesPrompt(modules: seq<PromptModule>, id: string, value: string)
    requires FindIndex(modules, id).Some?
    ensures var i := FindIndex(modules, id).value;
      var r := UpdateCoreAttribute(modules, id, Gender, value);
      Parts(r[i])[0] == "性别:" + value + ", 年龄:" + OrEmpty(CoreValue(modules[i].attributes.coreAttributes, AgeStage))
  {
    var i := FindIndex(modules, id).value;
    var r := UpdateCoreAttribute(modules, id, Gender, value);
    assert r[i].attributes.coreAttributes.value.gender == Some(value);
    assert r[i].attributes.coreAttributes.value.ageStage == CoreValue(modules[i].attributes.coreAttributes, AgeStage);
  }
}
