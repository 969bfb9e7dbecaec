/**
 * The editor of one dynamic attribute: a select over its options (or a text
 * input), the locally remembered selection, the sub-parameter controls of the
 * selected option, and the updated attribute it reports to its owner.
 */
module AttributeForm {
  import opened Types

  /** `{ ...attribute, value }`: only the value changes. */
  function WithValue(a: DynamicAttribute, v: string): (r: DynamicAttribute)
    ensures r.value == Some(v)
    ensures r.key == a.key && r.caption == a.caption && r.kind == a.kind && r.options == a.options
  {
    a.(value := Some(v))
  }

  /** Reporting the value an attribute already has gives the attribute back; a second report overrides the first. */
  lemma WithValueLaws(a: DynamicAttribute, v: string, w: string)
    ensures a.value == Some(v) ==> WithValue(a, v) == a
    ensures WithValue(WithValue(a, v), w) == WithValue(a, w)
  {
  }

  /** The control an attribute is edited with. */
  datatype Control = Choice(values: seq<string>, captions: seq<string>) | TextInput

  /** A select listing the option values in order when the attribute is a select with an options list; a text input otherwise. */
  function ControlFor(a: DynamicAttribute): (c: Control)
    ensures c.Choice? <==> a.kind == SelectField && a.options.Some?
    ensures c.Choice? ==>
      && |c.values| == |a.options.value| && |c.captions| == |a.options.value|
      && forall i :: 0 <= i < |a.options.value| ==>
           c.values[i] == a.options.value[i].value && c.captions[i] == a.options.value[i].caption
  {
    if a.kind == SelectField && a.options.Some? then
      var opts := a.options.value;
      Choice(seq(|opts|, i requires 0 <= i < |opts| => opts[i].value),
             seq(|opts|, i requires 0 <= i < |opts| => opts[i].caption))
    else TextInput
  }

  /** An option whose sub-parameters are drawn: it is the selected one and has at least one sub-parameter. */
  predicate ShowsGroup(o: AttributeOption, selected: Option<string>) {
    selected == Some(o.value) && o.subParams.Some? && |o.subParams.value| > 0
  }

  /** The positions of the options whose sub-parameter groups are drawn, in option order. */
  function ShownGroups(options: seq<AttributeOption>, selected: Option<string>): (r: seq<nat>)
    ensures forall k :: k in r ==> k < |options| && ShowsGroup(options[k], selected)
    ensures forall k :: 0 <= k < |options| && ShowsGroup(options[k], selected) ==> k in r
    ensures forall i, j :: 0 <= i < j < |r| ==> r[i] < r[j]
  {
    if options == [] then []
    else
      var last := |options| - 1;
      var init := ShownGroups(options[..last], selected);
      assert forall i :: 0 <= i < |init| ==> init[i] in init;
      init + (if ShowsGroup(options[last], selected) then [last] else [])
  }

  /** With nothing selected no group is drawn; selecting an option that has sub-parameters draws its group. */
  lemma SelectionDrawsGroup(options: seq<AttributeOption>, k: nat)
    requires k < |options|
    ensures options[k].subParams.Some? && |options[k].subParams.value| > 0 ==>
      k in ShownGroups(options, Some(options[k].value))
  {
  }

  /** With nothing selected no group is drawn. */
  lemma {:induction false} NothingSelectedNoGroups(options: seq<AttributeOption>)
    ensures ShownGroups(options, None) == []
  {
    if options != [] {
      NothingSelectedNoGroups(options[..|options| - 1]);
    }
  }

  /** The attribute has a sub-parameter at these positions. */
  predicate HasSubParam(a: DynamicAttribute, optionIndex: nat, subIndex: nat) {
    && a.options.Some?
    && optionIndex < |a.options.value|
    && a.options.value[optionIndex].subParams.Some?
    && subIndex < |a.options.value[optionIndex].subParams.value|
  }

  /** The sub-parameter at these positions. */
  function SubParam(a: DynamicAttribute, optionIndex: nat, subIndex: nat): DynamicAttribute
    requires HasSubParam(a, optionIndex, subIndex)
  {
    a.options.value[optionIndex].subParams.value[subIndex]
  }

  /** What a sub-parameter control reports as written: the new text becomes the value of the attribute itself. */
  function SubParamEditAsWritten(a: DynamicAttribute, v: string): (r: DynamicAttribute)
    ensures r.value == Some(v)
    ensures r.options == a.options
  {
    WithValue(a, v)
  }

  /** A select whose selected option has a text sub-parameter. */
  const Medium: DynamicAttribute :=
    DynamicAttribute("medium", "媒介", SelectField, Some("oil"), Some([
      AttributeOption("oil", "油画", None, Some([DynamicAttribute("tone", "色调", TextField, Some("warm"), None)]))]))

  /**
   * Typing "cool" into the tone field as written replaces the medium itself,
   * leaves the tone at "warm", and the new medium names no option, so the
   * tone field disappears.
   */
  lemma SubParamEditAsWrittenLosesSelection()
    ensures HasSubParam(Medium, 0, 0) && SubParam(Medium, 0, 0).value == Some("warm")
    ensures ShownGroups(Medium.options.value, Medium.value) == [0]
    ensures var r := SubParamEditAsWritten(Medium, "cool");
      && r.value == Some("cool")
      && HasSubParam(r, 0, 0) && SubParam(r, 0, 0).value == Some("warm")
      && ShownGroups(r.options.value, r.value) == []
  {
    var r := SubParamEditAsWritten(Medium, "cool");
    assert Medium.options.value[..0] == [];
    assert r.options.value[..0] == [];
  }

  /** The evident intent: the new text becomes the value of the edited sub-parameter and nothing else changes. */
  function SetSubParamValue(a: DynamicAttribute, optionIndex: nat, subIndex: nat, v: string): (r: DynamicAttribute)
    requires HasSubParam(a, optionIndex, subIndex)
    ensures r.key == a.key && r.caption == a.caption && r.kind == a.kind && r.value == a.value
    ensures HasSubParam(r, optionIndex, subIndex)
    ensures SubParam(r, optionIndex, subIndex) == WithValue(SubParam(a, optionIndex, subIndex), v)
    ensures |r.options.value| == |a.options.value|
    ensures forall j :: 0 <= j < |a.options.value| && j != optionIndex ==> r.options.value[j] == a.options.value[j]
    ensures var before, after := a.options.value[optionIndex], r.options.value[optionIndex];
      && after.value == before.value && after.caption == before.caption && after.preview == before.preview
      && |after.subParams.value| == |before.subParams.value|
      && forall t :: 0 <= t < |before.subParams.value| && t != subIndex ==>
           after.subParams.value[t] == before.subParams.value[t]
  {
    var options := a.options.value;
    var o := options[optionIndex];
    var subs := o.subParams.value;
    var o' := o.(subParams := Some(subs[subIndex := WithValue(subs[subIndex], v)]));
    a.(options := Some(options[optionIndex := o']))
  }

  /** The corrected edit keeps the selection valid: the same control and the same groups are drawn afterwards. */
  lemma {:induction false} SubParamEditKeepsGroups(a: DynamicAttribute, optionIndex: nat, subIndex: nat, v: string, selected: Option<string>)
    requires HasSubParam(a, optionIndex, subIndex)
    ensures var r := SetSubParamValue(a, optionIndex, subIndex, v);
      ControlFor(r) == ControlFor(a)
      && ShownGroups(r.options.value, selected) == ShownGroups(a.options.value, selected)
  {
    var r := SetSubParamValue(a, optionIndex, subIndex, v);
    SameGroups(a.options.value, r.options.value, selected);
  }

  /** Groups depend only on the option values and on which options have sub-parameters. */
  lemma {:induction false} SameGroups(xs: seq<AttributeOption>, ys: seq<AttributeOption>, selected: Option<string>)
    requires |xs| == |ys|
    requires forall i :: 0 <= i < |xs| ==> ShowsGroup(xs[i], selected) == ShowsGroup(ys[i], selected)
    ensures ShownGroups(xs, selected) == ShownGroups(ys, selected)
  {
    if xs != [] {
      SameGroups(xs[..|xs| - 1], ys[..|ys| - 1], selected);
    }
  }

  /** Editing the medium's tone with the corrected edit keeps the tone field and stores "cool" in it. */
  lemma SubParamEditCorrected()
    ensures var r := SetSubParamValue(Medium, 0, 0, "cool");
      && r.value == Some("oil")
      && SubParam(r, 0, 0).value == Some("cool")
      && ShownGroups(r.options.value, r.value) == [0]
  {
    SubParamEditKeepsGroups(Medium, 0, 0, "cool", Medium.value);
    assert Medium.options.value[..0] == [];
  }

  /**
   * One mounted form. `selectedValue` is the component's own state: it starts
   * from the attribute's value and afterwards follows only the form's own edits.
   */
  class DynamicAttributeForm {
    var attribute: DynamicAttribute
    var selectedValue: Option<string>

    constructor (attribute: DynamicAttribute)
      ensures this.attribute == attribute && selectedValue == attribute.value
    {
      this.attribute := attribute;
      selectedValue := attribute.value;
    }

    /** The control drawn for the attribute; its shown value is `selectedValue`. */
    function Control(): (c: Control)
      reads this
      ensures c.Choice? <==> attribute.kind == SelectField && attribute.options.Some?
    {
      ControlFor(attribute)
    }

    /** The options whose sub-parameter groups are drawn under the select; none under a text input. */
    function Groups(): (r: seq<nat>)
      reads this
      ensures Control().TextInput? ==> r == []
      ensures Control().Choice? ==>
        forall k :: k in r <==> (0 <= k < |attribute.options.value| && ShowsGroup(attribute.options.value[k], selectedValue))
    {
      if Control().Choice? then ShownGroups(attribute.options.value, selectedValue) else []
    }

    /** `handleChange`: remember the new value and report the attribute carrying it. */
    method HandleChange(v: string) returns (emitted: DynamicAttribute)
      modifies this
      ensures attribute == old(attribute) && selectedValue == Some(v)
      ensures emitted == WithValue(attribute, v)
    {
      selectedValue := Some(v);
      emitted := WithValue(attribute, v);
    }

    /** The owner re-renders the form with a new attribute; the remembered selection is not reset. */
    method ReceiveAttribute(a: DynamicAttribute)
      modifies this
      ensures attribute == a && selectedValue == old(selectedValue)
    {
      attribute := a;
    }

    /** A sub-parameter control's change, reported with the corrected edit; the selection stays. */
    method HandleSubParamChange(optionIndex: nat, subIndex: nat, v: string) returns (emitted: DynamicAttribute)
      requires optionIndex in Groups()
      requires HasSubParam(attribute, optionIndex, subIndex)
      ensures emitted == SetSubParamValue(attribute, optionIndex, subIndex, v)
      ensures emitted.value == attribute.value
      ensures HasSubParam(emitted, optionIndex, subIndex)
      ensures SubParam(emitted, optionIndex, subIndex).value == Some(v)
      ensures ControlFor(emitted) == ControlFor(attribute)
      ensures ShownGroups(emitted.options.value, selectedValue) == ShownGroups(attribute.options.value, selectedValue)
    {
      emitted := SetSubParamValue(attribute, optionIndex, subIndex, v);
      SubParamEditKeepsGroups(attribute, optionIndex, subIndex, v, selectedValue);
    }
  }
}
