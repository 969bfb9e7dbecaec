/**
 * The top-level state of the card view: the ordered list of active modules and
 * the three handlers that replace it (drop from the catalog, remove by index,
 * set one parameter of one module).
 */
module Page {
  import opened Types
  import Catalog

  /** Where a drag started or ended: a droppable area and an index inside it. */
  datatype DraggableLocation = DraggableLocation(droppableId: string, index: int)

  /** What the drag-and-drop library reports when a drag ends; no destination means it was dropped outside. */
  datatype DropResult = DropResult(source: DraggableLocation, destination: Option<DraggableLocation>)

  /** The catalog list a source droppable id names; any other id names none. */
  function Category(droppableId: string): (r: Option<seq<PromptModule>>)
    ensures r.Some? <==> droppableId in {"subjects", "styles", "environments"}
    ensures droppableId == "subjects" ==> r == Some(Catalog.Subjects)
    ensures droppableId == "styles" ==> r == Some(Catalog.Styles)
    ensures droppableId == "environments" ==> r == Some(Catalog.Environments)
  {
    match droppableId
    case "subjects" => Some(Catalog.Subjects)
    case "styles" => Some(Catalog.Styles)
    case "environments" => Some(Catalog.Environments)
    case _ => None
  }

  /** The catalog entry a drag started on; `list[index]` is undefined outside the list. */
  function DraggedEntry(source: DraggableLocation): (r: Option<PromptModule>)
    ensures r.Some? <==> Category(source.droppableId).Some? && 0 <= source.index < 3
    ensures r.Some? ==> r.value == Category(source.droppableId).value[source.index]
  {
    match Category(source.droppableId)
    case None => None
    case Some(list) => if 0 <= source.index < |list| then Some(list[source.index]) else None
  }

  /** `handleDragEnd`: a drop on the canvas appends a copy of the dragged catalog entry. */
  function HandleDragEnd(modules: seq<PromptModule>, result: DropResult): (r: seq<PromptModule>)
    ensures result.destination.None? ==> r == modules
    ensures result.destination.Some? && result.destination.value.droppableId != "canvas" ==> r == modules
    ensures DraggedEntry(result.source).None? ==> r == modules
    ensures result.destination.Some? && result.destination.value.droppableId == "canvas"
            && DraggedEntry(result.source).Some?
            ==> |r| == |modules| + 1 && r[..|modules|] == modules
                && r[|modules|] == DraggedEntry(result.source).value
  {
    match result.destination
    case None => modules
    case Some(destination) =>
      if destination.droppableId == "canvas" then
        match DraggedEntry(result.source)
        case Some(entry) => modules + [entry]
        case None => modules
      else modules
  }

  /** `modules.filter((_, i) => i !== index)`, walking the list with the position of its head. */
  function KeepOthers(modules: seq<PromptModule>, index: int, position: int): (r: seq<PromptModule>)
    decreases |modules|
    ensures position <= index < position + |modules| ==>
      r == modules[..index - position] + modules[index - position + 1..]
    ensures !(position <= index < position + |modules|) ==> r == modules
  {
    if modules == [] then []
    else
      var rest := KeepOthers(modules[1..], index, position + 1);
      if position == index then rest else [modules[0]] + rest
  }

  /** `handleRemoveModule`: drop the module at `index`; any other index changes nothing. */
  function HandleRemoveModule(modules: seq<PromptModule>, index: int): (r: seq<PromptModule>)
    ensures 0 <= index < |modules| ==> |r| == |modules| - 1
    ensures 0 <= index < |modules| ==> forall j :: 0 <= j < |r| ==> r[j] == modules[if j < index then j else j + 1]
    ensures 0 <= index < |modules| ==> multiset(r) + multiset{modules[index]} == multiset(modules)
    ensures !(0 <= index < |modules|) ==> r == modules
  {
    var r := KeepOthers(modules, index, 0);
    if 0 <= index < |modules| then
      assert modules == modules[..index] + [modules[index]] + modules[index + 1..];
      r
    else r
  }

  /** `{ ...parameters, [name]: value }`: an existing key keeps its place, a new one goes last. */
  function SetParameter(ps: Parameters, name: string, value: int): (r: Parameters)
    ensures name in Keys(ps) ==> Keys(r) == Keys(ps)
    ensures name !in Keys(ps) ==> r == ps + [(name, value)]
    ensures DistinctKeys(ps) ==> DistinctKeys(r)
  {
    if ps == [] then [(name, value)]
    else if ps[0].0 == name then [(name, value)] + ps[1..]
    else
      var r := [ps[0]] + SetParameter(ps[1..], name, value);
      assert r[1..] == SetParameter(ps[1..], name, value);
      r
  }

  /** After the update `name` reads `value` and every other name reads what it read before. */
  lemma {:induction false} SetParameterReads(ps: Parameters, name: string, value: int)
    ensures Lookup(SetParameter(ps, name, value), name) == Some(value)
    ensures forall k :: k != name ==> Lookup(SetParameter(ps, name, value), k) == Lookup(ps, k)
  {
    var r := SetParameter(ps, name, value);
    if ps != [] {
      assert r[1..] == if ps[0].0 == name then ps[1..] else SetParameter(ps[1..], name, value);
      if ps[0].0 != name {
        SetParameterReads(ps[1..], name, value);
      }
    }
  }

  /** The module with one parameter set and every other field as it was. */
  function WithParameter(m: PromptModule, name: string, value: int): (r: PromptModule)
    ensures Lookup(r.attributes.parameters, name) == Some(value)
    ensures forall k :: k != name ==> Lookup(r.attributes.parameters, k) == Lookup(m.attributes.parameters, k)
    ensures r == m.(attributes := m.attributes.(parameters := r.attributes.parameters))
    ensures r.attributes.parameters == SetParameter(m.attributes.parameters, name, value)
  {
    SetParameterReads(m.attributes.parameters, name, value);
    m.(attributes := m.attributes.(parameters := SetParameter(m.attributes.parameters, name, value)))
  }

  /** `handleUpdateParameter`: give module `index` the entry `name: value` by the spread update, storing `value` as given. */
  function HandleUpdateParameter(modules: seq<PromptModule>, index: int, name: string, value: int): (r: seq<PromptModule>)
    ensures |r| == |modules|
    ensures forall j :: 0 <= j < |modules| && j != index ==> r[j] == modules[j]
    ensures 0 <= index < |modules| ==>
      && Lookup(r[index].attributes.parameters, name) == Some(value)
      && (forall k :: k != name ==>
            Lookup(r[index].attributes.parameters, k) == Lookup(modules[index].attributes.parameters, k))
      && r[index] == modules[index].(attributes := r[index].attributes)
      && r[index].attributes == modules[index].attributes.(parameters := r[index].attributes.parameters)
      && r[index].attributes.parameters == SetParameter(modules[index].attributes.parameters, name, value)
  {
    seq(|modules|, j requires 0 <= j < |modules| =>
      if j == index then WithParameter(modules[j], name, value) else modules[j])
  }

  /** Dropping the same catalog entry twice puts two modules with one id on the canvas. */
  lemma RepeatedDropDuplicatesId(modules: seq<PromptModule>, result: DropResult)
    requires result.destination.Some? && result.destination.value.droppableId == "canvas"
    requires DraggedEntry(result.source).Some?
    ensures var twice := HandleDragEnd(HandleDragEnd(modules, result), result);
      |twice| == |modules| + 2 && twice[|modules|].id == twice[|modules| + 1].id
  {
  }

  /** Removing what was just dropped restores the list. */
  lemma {:induction false} RemoveUndoesDrop(modules: seq<PromptModule>, result: DropResult)
    ensures HandleRemoveModule(HandleDragEnd(modules, result), |modules|) == modules
  {
    var dropped := HandleDragEnd(modules, result);
    if |dropped| == |modules| + 1 {
      assert dropped[..|modules|] == modules;
    }
  }

  /** Setting a parameter twice keeps only the second value: the update is last-write-wins. */
  lemma {:induction false} SetParameterLastWins(ps: Parameters, name: string, v1: int, v2: int)
    ensures SetParameter(SetParameter(ps, name, v1), name, v2) == SetParameter(ps, name, v2)
  {
    if ps != [] && ps[0].0 != name {
      SetParameterLastWins(ps[1..], name, v1, v2);
    }
  }
}
