/**
 * The card view of the active modules: the numeric input that clamps before
 * forwarding, the set of expanded cards, the parameter tooltips and the
 * " + "-joined prompt shown under the cards.
 */
module Canvas {
  import opened Types
  import opened Text
  import Page
  import Catalog

  /** The bounds the parameter inputs pass to `handleInputChange`. */
  const InputMin: int := 0
  const InputMax: int := 100

  /** `Math.min(Math.max(v, lo), hi)`. */
  function Clamp(v: int, lo: int, hi: int): (r: int)
    ensures r == v || r == lo || r == hi
    ensures lo <= hi ==> lo <= r <= hi
    ensures lo <= v <= hi ==> r == v
    ensures hi < lo ==> r == hi
    ensures v > hi ==> r == hi
    ensures v < lo && lo <= hi ==> r == lo
  {
    if v < lo then (if lo < hi then lo else hi) else (if v < hi then v else hi)
  }

  /** Clamping twice is clamping once. */
  lemma ClampIdempotent(v: int, lo: int, hi: int)
    ensures Clamp(Clamp(v, lo, hi), lo, hi) == Clamp(v, lo, hi)
  {
  }

  /**
   * `handleInputChange`: `parsed` is what `parseFloat` made of the typed text
   * (None for NaN). A number is clamped and forwarded to the page's
   * `handleUpdateParameter`; anything else changes nothing.
   */
  function HandleInputChange(modules: seq<PromptModule>, index: int, name: string, parsed: Option<int>, lo: int, hi: int)
    : (r: seq<PromptModule>)
    ensures parsed.None? ==> r == modules
    ensures |r| == |modules|
    ensures forall j :: 0 <= j < |modules| && j != index ==> r[j] == modules[j]
    ensures parsed.Some? && 0 <= index < |modules| ==>
      && Lookup(r[index].attributes.parameters, name) == Some(Clamp(parsed.value, lo, hi))
      && (lo <= hi ==> lo <= Lookup(r[index].attributes.parameters, name).value <= hi)
      && (lo <= parsed.value <= hi ==> Lookup(r[index].attributes.parameters, name) == parsed)
      && (forall k :: k != name ==>
            Lookup(r[index].attributes.parameters, k) == Lookup(modules[index].attributes.parameters, k))
      && r[index] == modules[index].(attributes := modules[index].attributes.(parameters := r[index].attributes.parameters))
      && r[index].attributes.parameters == Page.SetParameter(modules[index].attributes.parameters, name, Clamp(parsed.value, lo, hi))
  {
    match parsed
    case None => modules
    case Some(v) => Page.HandleUpdateParameter(modules, index, name, Clamp(v, lo, hi))
  }

  /** With the call site's bounds every stored value lies in [0, 100]. */
  lemma InputStaysInRange(modules: seq<PromptModule>, index: int, name: string, v: int)
    requires 0 <= index < |modules|
    ensures var r := HandleInputChange(modules, index, name, Some(v), InputMin, InputMax);
      Lookup(r[index].attributes.parameters, name).Some?
      && 0 <= Lookup(r[index].attributes.parameters, name).value <= 100
  {
  }

  /** `xs.filter(x => x !== id)`. */
  function RemoveAll(xs: seq<string>, id: string): (r: seq<string>)
    ensures id !in r
    ensures multiset(r) == multiset(xs)[id := 0]
    ensures id !in xs ==> r == xs
  {
    if xs == [] then []
    else
      var rest := RemoveAll(xs[1..], id);
      assert xs == [xs[0]] + xs[1..];
      if xs[0] == id then rest else [xs[0]] + rest
  }

  /** `toggleModuleExpansion`: an absent id is appended, a present one is removed everywhere. */
  function ToggleExpansion(expanded: seq<string>, id: string): (r: seq<string>)
    ensures id in r <==> id !in expanded
    ensures forall x :: x != id ==> multiset(r)[x] == multiset(expanded)[x]
    ensures id !in expanded ==> r == expanded + [id]
  {
    if id in expanded then RemoveAll(expanded, id) else expanded + [id]
  }

  /** Removing an id that was only appended at the end gives back the original list. */
  lemma {:induction false} RemoveAllOfAppended(xs: seq<string>, id: string)
    requires id !in xs
    ensures RemoveAll(xs + [id], id) == xs
  {
    if xs != [] {
      assert (xs + [id])[1..] == xs[1..] + [id];
      RemoveAllOfAppended(xs[1..], id);
    }
  }

  /** Toggling twice restores which cards are expanded, and restores the list itself when the id was absent. */
  lemma ToggleTwice(expanded: seq<string>, id: string)
    ensures forall x :: x in ToggleExpansion(ToggleExpansion(expanded, id), id) <==> x in expanded
    ensures id !in expanded ==> ToggleExpansion(ToggleExpansion(expanded, id), id) == expanded
  {
    var once := ToggleExpansion(expanded, id);
    var twice := ToggleExpansion(once, id);
    forall x ensures x in twice <==> x in expanded {
      if x == id {
      } else {
        assert multiset(twice)[x] == multiset(once)[x] == multiset(expanded)[x];
      }
    }
    if id !in expanded {
      RemoveAllOfAppended(expanded, id);
    }
  }

  /** The tooltip table: one description per catalog parameter name. */
  const Descriptions: map<string, string> := map[
    "detail" := "细节程度 - 控制图像中的细节丰富程度",
    "realism" := "真实感 - 调整图像的真实感程度",
    "lighting" := "光照 - 调整场景的整体光照效果",
    "scale" := "比例 - 控制主体在画面中的大小",
    "atmosphere" := "氛围 - 调整整体环境氛围",
    "depth" := "深度 - 控制画面的空间深度感",
    "action" := "动作 - 调整动物的动作幅度",
    "expression" := "表情 - 控制动物的表情生动程度",
    "intensity" := "强度 - 调整风格效果的强度",
    "blending" := "混合 - 控制颜色的混合程度",
    "texture" := "纹理 - 调整画面的纹理细节",
    "neon" := "霓虹 - 控制赛博朋克风格的霓虹效果",
    "tech" := "科技感 - 调整未来科技的表现程度",
    "grit" := "质感 - 控制画面的粗糙质感",
    "stylization" := "风格化 - 调整动漫风格的程度",
    "shading" := "明暗 - 控制动漫风格的明暗对比",
    "lineArt" := "线条 - 调整线条的粗细和风格",
    "density" := "密度 - 控制城市建筑的密集程度",
    "timeOfDay" := "时间 - 调整场景的时间氛围",
    "weather" := "天气 - 控制天气效果的强度",
    "vegetation" := "植被 - 调整自然场景中的植被密度",
    "terrain" := "地形 - 控制地形的起伏变化",
    "furnishing" := "装饰 - 调整室内场景的装饰程度",
    "mood" := "情绪 - 控制场景的整体情绪氛围"
  ]

  /**
   * The members every plain object literal inherits from `Object.prototype`;
   * indexing the table with one of these names yields the inherited member.
   */
  const InheritedNames: set<string> := {
    "constructor", "hasOwnProperty", "isPrototypeOf", "propertyIsEnumerable",
    "toLocaleString", "toString", "valueOf", "__proto__",
    "__defineGetter__", "__defineSetter__", "__lookupGetter__", "__lookupSetter__"
  }

  /** What `descriptions[name] || name` evaluates to: a string, or an inherited (truthy, non-string) member. */
  datatype Described = Described(text: string) | InheritedMember(name: string)

  /** `getParamDescription` as written: the table lookup also finds inherited members. */
  function ParamDescriptionAsWritten(name: string): (r: Described)
    ensures name in Descriptions ==> r == Described(Descriptions[name])
    ensures name !in Descriptions && name in InheritedNames ==> r == InheritedMember(name)
    ensures name !in Descriptions && name !in InheritedNames ==> r == Described(name)
  {
    if name in Descriptions && Descriptions[name] != "" then Described(Descriptions[name])
    else if name !in Descriptions && name in InheritedNames then InheritedMember(name)
    else Described(name)
  }

  /** The lookup as written hands back a non-string for the name "toString". */
  lemma AsWrittenDescribesToStringWrongly()
    ensures ParamDescriptionAsWritten("toString") == InheritedMember("toString")
    ensures ParamDescriptionAsWritten("toString") != Described("toString")
  {
  }

  /** `getParamDescription`, reading only the table's own entries: the description, or the name itself. */
  function ParamDescription(name: string): (r: string)
    ensures name in Descriptions ==> r == Descriptions[name]
    ensures name !in Descriptions ==> r == name
  {
    if name in Descriptions && Descriptions[name] != "" then Descriptions[name] else name
  }

  /** Both lookups agree on every name that is not an inherited member, in particular on every catalog name. */
  lemma DescriptionsAgree(name: string)
    requires name !in InheritedNames
    ensures ParamDescriptionAsWritten(name) == Described(ParamDescription(name))
  {
  }

  /** Every parameter of every catalog entry has its own description. */
  lemma CatalogParametersDescribed()
    ensures forall i, k :: 0 <= i < |Catalog.AllEntries()| && 0 <= k < |Catalog.AllEntries()[i].attributes.parameters| ==>
      Catalog.AllEntries()[i].attributes.parameters[k].0 in Descriptions
  {
    Catalog.EntriesWellFormed();
    forall i, k | 0 <= i < 9 && 0 <= k < 3
      ensures Catalog.AllEntries()[i].attributes.parameters[k].0 in Descriptions
    {
    }
  }

  /** One module's part of the prompt: `title (k:v, k:v, ...)`. */
  function Segment(m: PromptModule): (r: string)
    ensures |r| >= |m.title| + 3
    ensures r[..|m.title|] == m.title && r[|m.title|..|m.title| + 2] == " (" && r[|r| - 1] == ')'
    ensures m.attributes.parameters == [] ==> r == m.title + " ()"
  {
    m.title + " (" + Join(EntryTexts(m.attributes.parameters), ", ") + ")"
  }

  /** The segments of all modules, in list order. */
  function Segments(modules: seq<PromptModule>): (r: seq<string>)
    ensures |r| == |modules|
    ensures forall i :: 0 <= i < |modules| ==> r[i] == Segment(modules[i])
  {
    seq(|modules|, i requires 0 <= i < |modules| => Segment(modules[i]))
  }

  /** `generatePrompt`: the segments joined by " + ". */
  function GeneratePrompt(modules: seq<PromptModule>): (r: string)
    ensures r == "" <==> modules == []
    ensures |modules| == 1 ==> r == Segment(modules[0])
    ensures modules != [] ==> |Segments(modules)[0]| <= |r| && r[..|Segments(modules)[0]|] == Segments(modules)[0]
  {
    Join(Segments(modules), " + ")
  }

  /** No modules, no prompt; one module, its segment alone. */
  lemma PromptOfFewModules(m: PromptModule)
    ensures GeneratePrompt([]) == ""
    ensures GeneratePrompt([m]) == m.title + " (" + Join(EntryTexts(m.attributes.parameters), ", ") + ")"
  {
    assert Segments([m]) == [Segment(m)];
  }

  /** The watercolour entry's parameters rendered in insertion order. */
  lemma WatercolourParameters()
    ensures EntryTexts(Catalog.Styles[0].attributes.parameters) == ["intensity:65", "blending:70", "texture:80"]
  {
    var ps := Catalog.Styles[0].attributes.parameters;
    assert ps == [("intensity", 65), ("blending", 70), ("texture", 80)];
    assert EntryText(("intensity", 65)) == "intensity:65";
    assert EntryText(("blending", 70)) == "blending:70";
    assert EntryText(("texture", 80)) == "texture:80";
  }

  lemma WatercolourText()
    ensures "水彩" + " (" + ("intensity:65" + ", " + "blending:70" + ", " + "texture:80") + ")"
      == "水彩 (intensity:65, blending:70, texture:80)"
  {
  }

  /** The watercolour style entry on its own. */
  lemma WatercolourPrompt()
    ensures GeneratePrompt([Catalog.Styles[0]]) == "水彩 (intensity:65, blending:70, texture:80)"
  {
    var m := Catalog.Styles[0];
    assert m.title == "水彩";
    WatercolourParameters();
    JoinThree("intensity:65", "blending:70", "texture:80", ", ");
    assert Segments([m]) == [Segment(m)];
    assert GeneratePrompt([m]) == Segment(m);
    WatercolourText();
  }

  /** A drop onto the canvas adds the new module's segment at the end of the prompt. */
  lemma DropExtendsPrompt(modules: seq<PromptModule>, result: Page.DropResult)
    requires result.destination.Some? && result.destination.value.droppableId == "canvas"
    requires Page.DraggedEntry(result.source).Some?
    ensures var entry := Page.DraggedEntry(result.source).value;
      GeneratePrompt(Page.HandleDragEnd(modules, result))
        == if modules == [] then Segment(entry) else GeneratePrompt(modules) + " + " + Segment(entry)
  {
    var entry := Page.DraggedEntry(result.source).value;
    var after := Page.HandleDragEnd(modules, result);
    assert after == modules + [entry];
    assert Segments(after) == Segments(modules) + [Segment(entry)];
    JoinAppend(Segments(modules), Segment(entry), " + ");
  }

  /** Removing module `index` removes exactly its segment from the prompt. */
  lemma RemoveDropsSegment(modules: seq<PromptModule>, index: int)
    requires 0 <= index < |modules|
    ensures GeneratePrompt(Page.HandleRemoveModule(modules, index))
      == Join(Segments(modules)[..index] + Segments(modules)[index + 1..], " + ")
  {
    var after := Page.HandleRemoveModule(modules, index);
    assert Segments(after) == Segments(modules)[..index] + Segments(modules)[index + 1..];
  }

  /** Updating a parameter of module `index` leaves every other module's segment as it was. */
  lemma UpdateTouchesOneSegment(modules: seq<PromptModule>, index: int, name: string, value: int)
    ensures var after := Segments(Page.HandleUpdateParameter(modules, index, name, value));
      |after| == |modules|
      && forall j :: 0 <= j < |modules| && j != index ==> after[j] == Segments(modules)[j]
  {
  }

  /**
   * The updated module's segment: a name it already has keeps its place in the
   * list, so only that entry's text changes; a new name adds `name:value` at
   * the end of the list.
   */
  lemma {:induction false} UpdateRewritesItsSegment(modules: seq<PromptModule>, index: int, name: string, value: int)
    requires 0 <= index < |modules|
    ensures var m, after := modules[index], Page.HandleUpdateParameter(modules, index, name, value)[index];
      var ps := m.attributes.parameters;
      && after.title == m.title
      && (name in Keys(ps) ==> Keys(after.attributes.parameters) == Keys(ps))
      && (name !in Keys(ps) ==>
            var added := EntryText((name, value));
            Segment(after) == m.title + " (" + (if ps == [] then added else Join(EntryTexts(ps), ", ") + ", " + added) + ")")
  {
    var m := modules[index];
    var ps := m.attributes.parameters;
    if name !in Keys(ps) {
      var texts := EntryTexts(ps + [(name, value)]);
      assert texts == EntryTexts(ps) + [EntryText((name, value))];
      JoinAppend(EntryTexts(ps), EntryText((name, value)), ", ");
    }
  }
}
