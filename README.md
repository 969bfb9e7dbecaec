# Prompt-module editor, modelled in Dafny

This project models the core of a prompt editor for an image generator. The
user drags entries from a fixed catalog (subjects, styles, environments) onto a
canvas. Each placed module carries numeric parameters, optional core attributes
(gender, age stage) and optional dynamic attributes (selects with options, each
option possibly carrying sub-parameters). Edits replace the module list. The
card view renders that list as a text prompt, joining modules with " + "
(src/components/Canvas.tsx:233). The graph view also defines a prompt builder,
which writes one line per module, but nothing displays or calls it.

| Dafny module | file | source |
|---|---|---|
| `Types` | `types.dfy` | the data records of `src/types/types.ts` and `src/types/index.ts`; parameters as an insertion-ordered list of entries |
| `Text` | `text.dfy` | the JavaScript built-ins the prompts rely on: `Array.prototype.join`, integer rendering in template literals, `trim() === ''` |
| `Catalog` | `catalog.dfy` | `src/data/modules.ts` |
| `Page` | `page.dfy` | `src/app/page.tsx`: drop, remove by index, parameter update |
| `Canvas` | `canvas.dfy` | `src/components/Canvas.tsx`: clamped input, expanded cards, tooltips, " + " prompt |
| `ModuleFlow` | `module_flow.dfy` | `src/components/ModuleFlow.tsx`: default fill, node building, drops on the graph, edits by id, the uncalled line-per-module prompt builder |
| `AttributeForm` | `attribute_form.dfy` | `src/components/DynamicAttributeForm.tsx`: the form as a class with its remembered selection |

State updates in the source are pure (they build a new list and hand it to a
setter), so they are functions from the old list to the new one here. Two
pieces keep their imperative form:

- The graph view's `generatePrompt`, which nothing calls, pushes parts inside
  loops. It is a method with loops, proved equal to the function `FlowPrompt`.
- The attribute form owns mutable state. It is a class whose methods update
  `selectedValue`.

Facts about the code that shape the model:

- A drop appends `{ ...newModule }`, a shallow copy that keeps the catalog id
  (src/app/page.tsx:49). No fresh id is made, nothing is deep-copied and no
  defaults are filled, so dropping one entry twice gives two modules with one
  id (`Page.RepeatedDropDuplicatesId`).
- No module stores a link to another. `onAttach` and `onDetach` are props whose
  implementation is not in these files, so removing a module clears nothing.
- The form (src/components/DynamicAttributeForm.tsx:2) and the card view import
  their records from `src/types/index.ts`. There a dynamic attribute has a
  numeric value and no type or options, and an option's sub-parameters are one
  object. The form nevertheless reads `type`, `options`, a string `value` and a
  `subParams` array. Only `src/types/types.ts` declares those fields, and the
  graph view imports its dynamic attribute from there. The model uses the
  `types.ts` shape for every dynamic attribute.

## Model

| member | source | states |
|---|---|---|
| Types.Lookup | src/app/page.tsx:66-69 | the value of the record's own entry `name`, as `Object.entries` lists it and the spread writes it: None exactly when there is no own entry of that name; otherwise the value stored with the first entry of that name |
| Text.Join | src/components/Canvas.tsx:72-74 | an empty list joins to "", one element joins to itself, and a longer list starts with its first element |
| Text.JoinAppend | src/components/Canvas.tsx:69-74 | joining a list with one more element appends the separator and the element (the element alone for an empty list) |
| Text.NatToString | src/components/Canvas.tsx:71 | the decimal rendering of a number is non-empty, all digits, without a leading zero |
| Text.NatToStringRoundTrip | src/components/Canvas.tsx:71 | the rendered digits read back as the number |
| Text.IntToString | src/components/Canvas.tsx:71 | a negative number renders as a minus sign followed by the digits of its magnitude; others as their digits |
| Text.TrimStart | src/components/ModuleFlow.tsx:378 | the result is a suffix of the text, everything cut off is white space, and it does not start with white space |
| Text.TrimEnd | src/components/ModuleFlow.tsx:378 | the result is a prefix of the text, everything cut off is white space, and it does not end with white space |
| Text.BlankIffTrimEmpty | src/components/ModuleFlow.tsx:378 | a text trims to "" exactly when every character of it is white space |
| Text.EntryText | src/components/Canvas.tsx:71 | `key:value` is longer than the key |
| Text.EntryTexts | src/components/ModuleFlow.tsx:386-388 | one `key:value` text per parameter, in insertion order |
| Catalog.Entry | src/data/modules.ts:4-16 | a catalog entry has no position, no core and no dynamic attributes, only its parameters |
| Catalog.AllEntries | src/data/modules.ts:3-127 | the catalog holds nine entries, subjects then styles then environments |
| Catalog.IdsDistinct | src/data/modules.ts:3-127 | the nine catalog ids are pairwise distinct |
| Catalog.ThreePerCategory | src/data/modules.ts:3-127 | each category holds exactly three entries |
| Catalog.SubjectsWellFormed | src/data/modules.ts:3-43 | each subject has three distinct parameters valued 0 to 100 and no core or dynamic attributes |
| Catalog.StylesWellFormed | src/data/modules.ts:45-85 | the same for each style |
| Catalog.EnvironmentsWellFormed | src/data/modules.ts:87-127 | the same for each environment |
| Catalog.EntriesWellFormed | src/data/modules.ts:3-127 | the same for every catalog entry |
| Catalog.KindsUniform | src/data/modules.ts:3-127 | every entry has the kind of its category |
| Page.Category | src/app/page.tsx:36-46 | exactly the ids "subjects", "styles" and "environments" name a catalog list, each its own |
| Page.DraggedEntry | src/app/page.tsx:36-48 | an entry is found exactly when the source id names a list and the index lies in 0..2, and it is that list's element |
| Page.HandleDragEnd | src/app/page.tsx:25-52 | with no destination, another destination or no entry the list is unchanged; a canvas drop keeps the list as a prefix and appends the dragged entry |
| Page.KeepOthers | src/app/page.tsx:55 | the index filter removes exactly the element at the index, if there is one |
| Page.HandleRemoveModule | src/app/page.tsx:54-56 | an index in range removes that one module, shifting later ones down and keeping every other module; any other index changes nothing |
| Page.SetParameter | src/app/page.tsx:66-69 | an existing name keeps its place, a new one is appended; distinct names stay distinct |
| Page.SetParameterReads | src/app/page.tsx:66-69 | after the update the name reads the new value and every other name reads what it did before |
| Page.WithParameter | src/app/page.tsx:62-71 | only the module's parameters change: the name reads the value, every other name reads as before, and the new parameters are the spread update, which keeps the key order and appends a new name |
| Page.HandleUpdateParameter | src/app/page.tsx:58-75 | the module at the index gets the parameter set (other names read as before, the key order is kept and a new name goes last), only its parameters change, every other module is unchanged |
| Page.RepeatedDropDuplicatesId | src/app/page.tsx:49 | dropping the same entry twice onto the canvas, at any index, yields two modules with one id |
| Page.RemoveUndoesDrop | src/app/page.tsx:49-55 | removing the last position after a drop gives back the list before it |
| Page.SetParameterLastWins | src/app/page.tsx:66-69 | two updates of one name equal the second one alone |
| Canvas.Clamp | src/components/Canvas.tsx:25 | the result is the value, the lower or the upper bound; a value above the upper bound gives the upper bound, one below the lower bound gives the lower bound when the bounds are ordered; reversed bounds give the upper bound; within ordered bounds it lies between them and a value inside is kept |
| Canvas.ClampIdempotent | src/components/Canvas.tsx:25 | clamping twice is clamping once |
| Canvas.HandleInputChange | src/components/Canvas.tsx:16-28 | unparsable text changes nothing; a number is stored clamped into the bounds on that module only, by the page's spread update: other names read as before, the key order is kept and nothing else in the module changes |
| Canvas.InputStaysInRange | src/components/Canvas.tsx:193 | with the bounds 0 and 100 every typed number is stored within [0, 100] |
| Canvas.RemoveAll | src/components/Canvas.tsx:33 | the id no longer occurs and every other id keeps its count |
| Canvas.ToggleExpansion | src/components/Canvas.tsx:30-36 | the id becomes present exactly when it was absent (then appended), every other id is unaffected |
| Canvas.RemoveAllOfAppended | src/components/Canvas.tsx:33-34 | removing an id that was just appended restores the list |
| Canvas.ToggleTwice | src/components/Canvas.tsx:30-36 | two toggles restore which cards are expanded, and the list itself when the id was absent |
| Canvas.ParamDescriptionAsWritten | src/components/Canvas.tsx:38-66 | a table name gives its description, an inherited member name gives that member, any other name gives itself |
| Canvas.AsWrittenDescribesToStringWrongly | src/components/Canvas.tsx:65 | the name "toString" yields the inherited function, not a description |
| Canvas.ParamDescription | src/components/Canvas.tsx:38-66 | a table name gives its description, every other name gives itself |
| Canvas.DescriptionsAgree | src/components/Canvas.tsx:38-66 | both lookups agree on every name that is not an inherited member |
| Canvas.CatalogParametersDescribed | src/components/Canvas.tsx:39-64 | every parameter name of every catalog entry has a description |
| Canvas.Segment | src/components/Canvas.tsx:69-73 | a segment is the title, then " (", and ends with ")"; without parameters it is `title ()` |
| Canvas.Segments | src/components/Canvas.tsx:69-73 | one `title (k:v, ...)` segment per module, in list order |
| Canvas.GeneratePrompt | src/components/Canvas.tsx:68-75 | the prompt is empty exactly when there are no modules; one module gives its segment; otherwise it starts with the first module's segment |
| Canvas.PromptOfFewModules | src/components/Canvas.tsx:68-75 | no modules give the empty prompt; one module gives its segment alone |
| Canvas.WatercolourParameters | src/components/Canvas.tsx:70-72 | the watercolour entry renders as intensity:65, blending:70, texture:80 |
| Canvas.WatercolourPrompt | src/components/Canvas.tsx:68-75 | the watercolour entry alone prompts "水彩 (intensity:65, blending:70, texture:80)" |
| Canvas.DropExtendsPrompt | src/components/Canvas.tsx:68-75 | a canvas drop appends " + " and the new segment to the prompt |
| Canvas.RemoveDropsSegment | src/components/Canvas.tsx:68-75 | removing a module removes exactly its segment |
| Canvas.UpdateTouchesOneSegment | src/components/Canvas.tsx:68-75 | a parameter update leaves every other module's segment as it was |
| Canvas.UpdateRewritesItsSegment | src/components/Canvas.tsx:68-75 | the updated module keeps its title; an existing name keeps its key order, and a new name adds `name:value` at the end of its segment |
| ModuleFlow.FillAttribute | src/components/ModuleFlow.tsx:170-175 | a missing value with options becomes the first option's value; anything else is unchanged; the result is settled |
| ModuleFlow.FillModule | src/components/ModuleFlow.tsx:168-186 | only the dynamic attributes change, each one defaulted; a module without them is unchanged |
| ModuleFlow.FillDefaults | src/components/ModuleFlow.tsx:168-186 | the pass defaults every module and keeps the list's length and order |
| ModuleFlow.FillChangesIffUnsettled | src/components/ModuleFlow.tsx:188-193 | the pass changes the list exactly when some attribute has no value but has options |
| ModuleFlow.FillIdempotent | src/components/ModuleFlow.tsx:168-193 | after one pass everything is settled and a second pass changes nothing |
| ModuleFlow.FillKeepsEverythingElse | src/components/ModuleFlow.tsx:168-186 | the pass keeps ids, titles, icons, kinds, positions, core attributes and parameters |
| ModuleFlow.ToNode | src/components/ModuleFlow.tsx:196-357 | a node keeps the module's id, title, icon and attributes, takes its type name, sits at its position (the origin when missing), and is draggable, connectable and selectable |
| ModuleFlow.ToNodes | src/components/ModuleFlow.tsx:196-358 | one node per module in order, with its id, type name, attributes and position (the origin when missing), draggable, connectable and selectable |
| ModuleFlow.ModulesChanged | src/components/ModuleFlow.tsx:164-361 | the effect hands back the defaulted list exactly when defaulting changes it; otherwise it sets the nodes built from the list |
| ModuleFlow.EffectSettles | src/components/ModuleFlow.tsx:164-193 | the effect hands back defaulted modules exactly when something was unsettled, and its next run builds the nodes |
| ModuleFlow.DefaultsKeepNodes | src/components/ModuleFlow.tsx:196-206 | defaulting never changes a node's id, type or position |
| ModuleFlow.OnDrop | src/components/ModuleFlow.tsx:111-162 | without bounds or flow instance nothing changes; otherwise a node `type-time` titled "New type" with empty attributes is appended at the drop point |
| ModuleFlow.FindIndex | src/components/ModuleFlow.tsx:222 | None exactly when no module has the id; otherwise the first module with it |
| ModuleFlow.SetCoreField | src/components/ModuleFlow.tsx:229-232 | the edited field holds the new value, the other keeps its old value (missing when there was no core record) |
| ModuleFlow.UpdateCoreAttribute | src/components/ModuleFlow.tsx:221-263 | an unknown id changes nothing; otherwise only the first module with the id changes, and in it only the one core field |
| ModuleFlow.UpdateDynamicAttribute | src/components/ModuleFlow.tsx:284-301 | an unknown id changes nothing; otherwise only entry `attrIndex` of the first module with the id is replaced |
| ModuleFlow.SliderChange | src/components/ModuleFlow.tsx:320-325 | an unknown id changes nothing; otherwise that module's parameter is set by the spread update (key order kept, a new name last) and nothing else changes |
| ModuleFlow.CorePart | src/components/ModuleFlow.tsx:371 | the core phrase is "性别:", the gender, ", 年龄:" and the age stage, each missing value as "" |
| ModuleFlow.ShownPositions | src/components/ModuleFlow.tsx:377-381 | exactly the positions of the attributes whose value is present and not blank, in increasing order |
| ModuleFlow.ShownAttributes | src/components/ModuleFlow.tsx:377-381 | an attribute occurs in the result exactly when it occurs in the list and its value is present and not blank |
| ModuleFlow.ShownAttributesInOrder | src/components/ModuleFlow.tsx:377-381 | the shown attributes are the attributes at the shown positions, in list order |
| ModuleFlow.ShownAttributesCount | src/components/ModuleFlow.tsx:377-381 | each shown attribute occurs as often as in the list; the others do not occur |
| ModuleFlow.AttributePartsAreShownOnes | src/components/ModuleFlow.tsx:377-381 | the attribute parts are one `label:value` per shown attribute, in order |
| ModuleFlow.KeepNonEmpty | src/components/ModuleFlow.tsx:391 | the filter keeps no empty string and is the identity on a list without one |
| ModuleFlow.AttributePartsNonEmpty | src/components/ModuleFlow.tsx:377-381 | no attribute part is empty |
| ModuleFlow.PartsAreNonEmpty | src/components/ModuleFlow.tsx:367-391 | no part of a module is empty, so the filter drops nothing |
| ModuleFlow.PartsLayout | src/components/ModuleFlow.tsx:367-389 | a module's parts are its core phrase, then its shown attributes, then its parameters |
| ModuleFlow.SegmentJoinsAllParts | src/components/ModuleFlow.tsx:391 | a line is the title, ": " and all the module's parts joined by ", ": the filter drops nothing |
| ModuleFlow.Segments | src/components/ModuleFlow.tsx:366-391 | one `title: parts` line per module, in list order |
| ModuleFlow.FlowPrompt | src/components/ModuleFlow.tsx:364-393 | the prompt is empty exactly when there are no modules; one module gives its line; otherwise it starts with the first module's line |
| ModuleFlow.PushShown | src/components/ModuleFlow.tsx:375-382 | the loop appends exactly the parts of the shown attributes |
| ModuleFlow.PushEntries | src/components/ModuleFlow.tsx:385-389 | the loop appends exactly the parameter texts |
| ModuleFlow.CollectParts | src/components/ModuleFlow.tsx:367-389 | the pushed parts equal the module's parts |
| ModuleFlow.ModuleLine | src/components/ModuleFlow.tsx:366-391 | one pass of the outer loop builds the module's line |
| ModuleFlow.GeneratePrompt | src/components/ModuleFlow.tsx:364-393 | the built prompt equals the lines of the modules joined by newlines |
| ModuleFlow.PromptAppend | src/components/ModuleFlow.tsx:366-392 | one more module adds one line at the end |
| ModuleFlow.DefaultIsShown | src/components/ModuleFlow.tsx:170-175 | a defaulted attribute is shown exactly when it was shown, or it had no value and its first option's value is not blank |
| ModuleFlow.GenderEditReachesPrompt | src/components/ModuleFlow.tsx:221-236 | after a gender edit the module's first part names the new gender and the old age stage |
| AttributeForm.WithValue | src/components/DynamicAttributeForm.tsx:17-20 | the reported attribute carries the new value and every other field unchanged |
| AttributeForm.WithValueLaws | src/components/DynamicAttributeForm.tsx:15-21 | reporting the current value gives the attribute back; of two reports the second wins |
| AttributeForm.ControlFor | src/components/DynamicAttributeForm.tsx:60-72 | a select exactly when the type is select and an options list exists, listing the option values and labels in order |
| AttributeForm.ShownGroups | src/components/DynamicAttributeForm.tsx:73-75 | exactly the options whose value is the selection and which have sub-parameters, in increasing order |
| AttributeForm.NothingSelectedNoGroups | src/components/DynamicAttributeForm.tsx:73-75 | with no selection no group is drawn |
| AttributeForm.SelectionDrawsGroup | src/components/DynamicAttributeForm.tsx:23-24 | selecting an option that has sub-parameters draws its group |
| AttributeForm.SubParamEditAsWritten | src/components/DynamicAttributeForm.tsx:35-48 | a sub-parameter edit as written reports the new text as the attribute's own value and leaves the options alone |
| AttributeForm.SubParamEditAsWrittenLosesSelection | src/components/DynamicAttributeForm.tsx:35-48 | on the example the edit replaces the medium, keeps the old tone and hides the tone field |
| AttributeForm.SetSubParamValue | src/components/DynamicAttributeForm.tsx:31-49 | the edited sub-parameter gets the value; the attribute's value, the other options and sub-parameters stay |
| AttributeForm.SameGroups | src/components/DynamicAttributeForm.tsx:73-75 | option lists that agree on which options show a group draw the same groups |
| AttributeForm.SubParamEditKeepsGroups | src/components/DynamicAttributeForm.tsx:73-75 | the corrected edit keeps the control and the drawn groups |
| AttributeForm.SubParamEditCorrected | src/components/DynamicAttributeForm.tsx:44-48 | on the example the corrected edit keeps the medium and the field and stores the new tone |
| AttributeForm.DynamicAttributeForm.constructor | src/components/DynamicAttributeForm.tsx:13 | the remembered selection starts as the attribute's value |
| AttributeForm.DynamicAttributeForm.Control | src/components/DynamicAttributeForm.tsx:60 | the form draws a select exactly when the attribute is a select with options |
| AttributeForm.DynamicAttributeForm.Groups | src/components/DynamicAttributeForm.tsx:73-75 | no group under a text input; under a select exactly the groups of the options matching the remembered selection |
| AttributeForm.DynamicAttributeForm.HandleChange | src/components/DynamicAttributeForm.tsx:15-21 | the selection becomes the new value and the reported attribute carries it |
| AttributeForm.DynamicAttributeForm.ReceiveAttribute | src/components/DynamicAttributeForm.tsx:9-13 | a new attribute from the owner replaces the old one; the remembered selection is not reset |
| AttributeForm.DynamicAttributeForm.HandleSubParamChange | src/components/DynamicAttributeForm.tsx:44-49 | the reported attribute is the corrected edit of the current attribute: it keeps its value, stores the text in the sub-parameter, and draws the same control and groups |

## Left out

- Rendering, styling, animation, hover and focus state are not modelled. Neither are the node components, `ModuleCategory` and `Sidebar`.
- The drag-and-drop libraries are not modelled: the drag source, `addEdge` and edge drawing, and the screen-to-flow position conversion. A drop arrives as a `DropResult` value or as an already converted position.
- `Date.now()` in the graph view's drop is a parameter `now`. The presence of the canvas bounds and the flow instance is a parameter `ready`.
- Attach and detach are not modelled: they are callback props with no implementation in the modelled files.
- `console.log` calls are left out.
- Canvas.HandleInputChange: `parseFloat` is a parameter holding an integer or None, so fractional input and fractional clamped values are not modelled.
- Parameter values are integers. JavaScript's exponent notation for numbers of 10^21 and above is not modelled. Neither is the way JavaScript objects move integer-like keys to the front.
- Strings are sequences of Unicode scalar values, not UTF-16 code units.
- The graph view compares its lists with `JSON.stringify`. The model uses structural equality, which differs only for values that JSON cannot encode.
- ModuleFlow.UpdateDynamicAttribute: requires that the first module with the id has the attribute list and the index. If the list handed to the graph view held two modules with one id, the code could reach another module and throw or write past the end of its list; the model does not cover that case. Catalog entries carry no dynamic attributes, and the caller of the graph view is not among these files.
- ModuleFlow.SliderChange: assumes that the graph view's `onUpdateParameter` prop is `handleUpdateParameter` of src/app/page.tsx. No file here renders the graph view, so that binding is an assumption; page.tsx passes the handler only to the card view.
- Shallow copies and the aliasing they create are not modelled: every value is immutable.
- The nodes a graph-view drop adds are not fed back into the module list. The code replaces them at the next rebuild, and the model does not track that.
- AttributeForm.DynamicAttributeForm.HandleSubParamChange: models the corrected sub-parameter edit, not the as-written one. The as-written edit is `SubParamEditAsWritten` (see Findings).

## Findings

| source | as written | input that shows it | evidently intended | confidence | as-written member | corrected member |
|---|---|---|---|---|---|---|
| src/components/Canvas.tsx:38-66 | the table lookup also finds members inherited from `Object.prototype`, and returns a function rather than text | a parameter named "toString" | the description for a table name, the name itself for any other name | not executed | Canvas.AsWrittenDescribesToStringWrongly | Canvas.ParamDescription |
| src/components/DynamicAttributeForm.tsx:35-48 | a sub-parameter control calls the attribute's own change handler, so the typed text becomes the attribute's value | the medium select with option "oil", whose tone sub-parameter is "warm"; typing "cool" into the tone | the text is stored in the sub-parameter, and the attribute's value and the drawn group stay | not executed | AttributeForm.SubParamEditAsWrittenLosesSelection | AttributeForm.SubParamEditKeepsGroups |
