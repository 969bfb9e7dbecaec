/**
 * The data model of the prompt editor: prompt modules, their attributes and
 * the dynamic attribute schema (select or text controls whose options may
 * carry one level of nested sub-parameters).
 */
module Types {

  /** A possibly missing value (`undefined` or `null` on the JavaScript side). */
  datatype Option<+T> = None | Some(value: T) {
    function GetOr(default: T): T {
      match this
      case Some(v) => v
      case None => default
    }
  }

  /** The kinds of module; SUBJECT is the kind the catalog actually uses. */
  datatype ModuleType = Subject | Character | Attachment | Style | Environment {
    /** The string the program stores in a module's `type` field. */
    function Name(): string {
      match this
      case Subject => "SUBJECT"
      case Character => "CHARACTER"
      case Attachment => "ATTACHMENT"
      case Style => "STYLE"
      case Environment => "ENVIRONMENT"
    }
  }

  /** The `type` of a dynamic attribute: a free text field or a closed choice. */
  datatype AttrKind = TextField | SelectField

  /** One choice of a select attribute, with the sub-controls it reveals
      (`caption` is the source's `label`, a reserved word in Dafny). */
  datatype AttributeOption = AttributeOption(
    value: string,
    caption: string,
    preview: Option<string>,
    subParams: Option<seq<DynamicAttribute>>)

  /** A schema-driven editable field of a module (`caption` is the source's `label`). */
  datatype DynamicAttribute = DynamicAttribute(
    key: string,
    caption: string,
    kind: AttrKind,
    value: Option<string>,
    options: Option<seq<AttributeOption>>)

  /** The fixed core record; either field may be absent after an edit of a module that had none. */
  datatype CoreAttributes = CoreAttributes(gender: Option<string>, ageStage: Option<string>)

  /** A parameter record, in the insertion order JavaScript objects keep. */
  type Parameters = seq<(string, int)>

  datatype Attributes = Attributes(
    coreAttributes: Option<CoreAttributes>,
    dynamicAttributes: Option<seq<DynamicAttribute>>,
    parameters: Parameters)

  /** A position on the graph canvas. */
  datatype Position = Position(x: real, y: real)

  datatype PromptModule = PromptModule(
    id: string,
    title: string,
    icon: string,
    kind: ModuleType,
    position: Option<Position>,
    attributes: Attributes)

  /** The names of a parameter record, in order. */
  function Keys(ps: Parameters): (ks: seq<string>)
    ensures |ks| == |ps|
    ensures forall i :: 0 <= i < |ps| ==> ks[i] == ps[i].0
  {
    if ps == [] then [] else [ps[0].0] + Keys(ps[1..])
  }

  /** An object never holds one property name twice. */
  ghost predicate DistinctKeys(ps: Parameters) {
    ps == [] || (ps[0].0 !in Keys(ps[1..]) && DistinctKeys(ps[1..]))
  }

  /**
   * The value of the record's own entry `name`, as `Object.entries` lists it
   * and the spread update writes it; None when there is no own entry of that
   * name. Inherited members of a plain object are not own entries.
   */
  function Lookup(ps: Parameters, name: string): (r: Option<int>)
    ensures r.None? <==> name !in Keys(ps)
    ensures r.Some? ==> (name, r.value) in ps
    ensures forall i :: 0 <= i < |ps| && ps[i].0 == name ==> r.Some? && (DistinctKeys(ps) ==> r.value == ps[i].1)
    ensures forall i :: 0 <= i < |ps| && ps[i].0 == name && (forall j :: 0 <= j < i ==> ps[j].0 != name) ==>
      r == Some(ps[i].1)
  {
    if ps == [] then None
    else if ps[0].0 == name then Some(ps[0].1)
    else
      assert forall i :: 1 <= i < |ps| ==> ps[i] == ps[1..][i - 1];
      Lookup(ps[1..], name)
  }
}
