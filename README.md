# Conditional visibility for inspector members, modelled in Dafny

This project models the rule engine of a Unity inspector extension that shows,
hides or greys out fields and methods depending on the current value of another
field of the inspected object.

- **Attributes** (`ShowIfAttribute`, `ShowIfNotAttribute`, `IfAttribute`,
  `IfNotAttribute`) are immutable records. They become datatypes. Their C#
  constructors become functions, and the two-argument `ShowIf`/`ShowIfNot`
  constructors leave `Visibility` at its default, `Hide`.
- **The host** (`InspectorHook`) is a class holding four sets: handled
  properties, disabled properties, handled methods and disabled methods. Its
  `Mark*` methods only add to one set each.
- **The drawers** (`ShowIfDrawer`, `IfDrawer`) are classes. The field
  `monitoredProperties` stands for the static `s_monitoredProperties`.
  `OnInitialization` fills that list in place. `OnProcessProperty` and
  `OnProcessMethod` run the source's nested `foreach` loops and call the host's
  `Mark*` methods.

Each loop is specified by a function that follows it step by step
(`ValueLoop`, `ShowIfLoop`, `ShowIfNotLoop`, `IfLoop`, `IfNotLoop`). Each
method's postcondition states the host's new sets in terms of those functions.
Lemmas then give the functions' meaning in closed form: which rule fires, what
null does, how Hide and Disable stay independent, and that `If` is the
single-value case of `ShowIf`.

Values are a type parameter `V` with equality. A C# `null`, whether a resolved
source or a listed value, is `Option.None`. `GetSourceValue` is a resolver
`string -> Option<V>` passed in by the caller. The test
`!source?.Equals(v) ?? false` is written out in `Conditions`: a null-conditional
call, a lifted `!`, then `?? false`. So "null never fires" is proved, not
assumed.

Four points where the code differs from the natural reading of these attributes:

- The `ShowIf` test runs once per listed value, and the effect fires on any
  listed value the source differs from. It is not a "source is in the set"
  test. So `ShowIf("m", 0, 1)` hides the member when `m == 0`. More generally,
  a `ShowIf` listing two distinct values fires on every non-null source
  (`ShowIfIsNotSetMembership`). `ShowIfNot` does behave as set membership. The
  model follows the code.
- The `switch` on `Visibility` has no `default`. A cast such as `(Visibility)2` is a legal argument, and such a rule fires but marks nothing. The model has a third value, `Undeclared`, for every such enum value.
- Attributes are not validated. An empty field name, an empty value list and
  null values are all accepted. An empty value list has no effect.
- The drawers return no decision value. They add marks to the host's sets, and
  marks are never removed.

## Model

| member | source | states |
|---|---|---|
| ShowIfAttributes.NewShowIf | Runtime/ShowIfAttribute.cs:17-21 | stores the field name and values exactly as given (possibly empty, with nulls); visibility is the enum default `Hide`; equals the three-argument constructor with `Hide` |
| ShowIfAttributes.NewShowIfWithVisibility | Runtime/ShowIfAttribute.cs:23-28 | stores exactly the given visibility, field name and values, element by element and in order |
| ShowIfAttributes.NewShowIfNot | Runtime/ShowIfAttribute.cs:37-41 | stores name and values as given; visibility defaults to `Hide`; equals the three-argument form with `Hide` |
| ShowIfAttributes.NewShowIfNotWithVisibility | Runtime/ShowIfAttribute.cs:43-48 | stores exactly the given visibility, field name and values, in order |
| ShowIfAttributes.ShowIfNotMirrorsShowIf | Runtime/ShowIfAttribute.cs:31-49 | `ShowIfNot` records get the same fields as `ShowIf` records from the same arguments, under both constructors, including the `Hide` default |
| IfAttributes.NewIf | Runtime/IfAttribute.cs:10-14 | stores the field name and the one value unchanged, null value included, with no validation |
| IfAttributes.IfRoundTrip | Runtime/IfAttribute.cs:7-14 | every `If` record is exactly what the constructor builds from its two fields |
| IfNotAttributes.NewIfNot | Runtime/IfNotAttribute.cs:10-14 | stores the field name and the one value unchanged, null value included, with no validation |
| IfNotAttributes.IfNotRoundTrip | Runtime/IfNotAttribute.cs:7-14 | every `IfNot` record is exactly what the constructor builds from its two fields |
| Conditions.Differs | Editor/ShowIfDrawer.cs:65 | `!source?.Equals(v) ?? false` is true iff the source is non-null and `v` differs from it (a null `v` always differs) |
| Conditions.Matches | Editor/ShowIfDrawer.cs:79 | `source?.Equals(v) ?? false` is true iff the source is non-null and `v` equals it |
| Seqs.Filter | Editor/ShowIfDrawer.cs:42-45 | follows the conditional `Add` loop in order; the result is never longer than the input and every element passes the test; exact form in `FilterMembership` and `FilterConcat` |
| Seqs.FilterMembership | Editor/ShowIfDrawer.cs:42-45 | the list the conditional `Add` loop builds holds exactly the input elements that pass the test |
| Seqs.FilterConcat | Editor/ShowIfDrawer.cs:42-45 | the loop's result on a concatenation is the concatenation of the results: the filter keeps the input order |
| Seqs.FilterSingleton | Editor/IfDrawer.cs:41-44 | one input element is kept iff it passes the test |
| ShowIfDrawing.Apply | Editor/ShowIfDrawer.cs:66-74 | the `switch` on `Visibility`: `Hide` sets only the hidden mark, `Disable` only the disabled mark; with no `default`, an undeclared enum value changes nothing |
| ShowIfDrawing.ValueLoop | Editor/ShowIfDrawer.cs:64-65 | follows the inner `foreach` over the listed values in order; its result is the starting marks or those marks with the visibility applied, and a null source leaves them unchanged; closed form in `ValueLoopEffect` |
| ShowIfDrawing.ShowIfLoop | Editor/ShowIfDrawer.cs:62-74 | follows the `foreach` over the `ShowIf` attributes in order, running `ValueLoop` on each with its own resolved source; marks are never removed; closed form in `ShowIfLoopEffect` |
| ShowIfDrawing.ShowIfNotLoop | Editor/ShowIfDrawer.cs:76-88 | follows the `foreach` over the `ShowIfNot` attributes in order; marks are never removed; closed form in `ShowIfNotLoopEffect` |
| ShowIfDrawing.Pass | Editor/ShowIfDrawer.cs:60-89 | the `ShowIf` loop, then the `ShowIfNot` loop, from no marks; a member without attributes gets no marks; closed form in `PassEffect` |
| ShowIfDrawing.MonitoredProperties | Editor/ShowIfDrawer.cs:42-45 | the ordered filter of properties whose `ShowIf` attribute names the property itself; never longer than the input and only self-naming properties; exact form in `MonitoredPropertiesExactly` |
| ShowIfDrawing.UndeclaredVisibilityMarksNothing | Editor/ShowIfDrawer.cs:66-88 | rules whose visibility is an undeclared enum value neither hide nor disable, even when they fire |
| ShowIfDrawing.Fires | Editor/ShowIfDrawer.cs:63-79 | the per-value test is false on a null source; a `ShowIf` fires iff the value differs from the source, a `ShowIfNot` iff it equals it |
| ShowIfDrawing.ValueLoopEffect | Editor/ShowIfDrawer.cs:64-74 | the loop over one attribute's values applies the attribute's visibility once if some value fires and otherwise changes nothing |
| ShowIfDrawing.ShowIfRuleFires | Editor/ShowIfDrawer.cs:62-65 | a `ShowIf` rule fires iff its source is non-null and differs from at least one listed value |
| ShowIfDrawing.ShowIfNotRuleFires | Editor/ShowIfDrawer.cs:76-79 | a `ShowIfNot` rule fires iff its source is non-null and equals at least one listed value |
| ShowIfDrawing.ShowIfLoopEffect | Editor/ShowIfDrawer.cs:62-74 | after the `ShowIf` loop the member is hidden iff it was hidden already or some `Hide` rule fires, and disabled iff it was disabled already or some `Disable` rule fires |
| ShowIfDrawing.ShowIfNotLoopEffect | Editor/ShowIfDrawer.cs:76-88 | the same for the `ShowIfNot` loop |
| ShowIfDrawing.PassEffect | Editor/ShowIfDrawer.cs:60-89 | a full pass hides iff some `Hide` rule of either kind fires, and disables iff some `Disable` rule of either kind fires |
| ShowIfDrawing.NullSourceMarksNothing | Editor/ShowIfDrawer.cs:62-88 | when every rule's source is null or unresolved, the pass neither hides nor disables, for both attribute kinds |
| ShowIfDrawing.EmptyValuesMarkNothing | Editor/ShowIfDrawer.cs:62-88 | rules whose value lists are empty have no effect |
| ShowIfDrawing.HideRulesNeverDisable | Editor/ShowIfDrawer.cs:66-87 | a member carrying only `Hide` rules is never disabled |
| ShowIfDrawing.DisableRulesNeverHide | Editor/ShowIfDrawer.cs:66-87 | a member carrying only `Disable` rules is never hidden |
| ShowIfDrawing.ShowIfIsNotSetMembership | Editor/ShowIfDrawer.cs:63-74 | a `ShowIf` listing two distinct values applies its effect on every non-null source, including a source equal to a listed value |
| ShowIfDrawing.MonitoredPropertiesExactly | Editor/ShowIfDrawer.cs:36-46 | the monitored list holds exactly the properties whose `ShowIf` attribute names the property itself, in the original order |
| ShowIfDrawing.ShowIfDrawer.constructor | Editor/ShowIfDrawer.cs:19 | the monitored list starts empty |
| ShowIfDrawing.ShowIfDrawer.OnInitialization | Editor/ShowIfDrawer.cs:36-46 | replaces the monitored list with the ordered filter of all properties whose `ShowIf` field name equals their own name |
| ShowIfDrawing.ShowIfDrawer.OnProcessProperty | Editor/ShowIfDrawer.cs:60-89 | adds the property to the handled set iff the pass hides and to the disabled set iff it disables; no mark is removed and no other member's marks change |
| ShowIfDrawing.ShowIfDrawer.OnProcessMethod | Editor/ShowIfDrawer.cs:91-123 | changes nothing when the method is already handled; otherwise applies the same pass to the method's handled and disabled marks only |
| IfDrawing.IfLoop | Editor/IfDrawer.cs:61-64 | follows the `foreach` over the `If` attributes in order, marking on each one whose test fires; an existing mark is kept; closed form in `IfLoopHides` |
| IfDrawing.IfNotLoop | Editor/IfDrawer.cs:66-69 | follows the `foreach` over the `IfNot` attributes in order; an existing mark is kept; closed form in `IfNotLoopHides` |
| IfDrawing.Pass | Editor/IfDrawer.cs:59-70 | the `If` loop, then the `IfNot` loop, from no mark; a member without attributes is not hidden; closed form in `PassHides` |
| IfDrawing.MonitoredProperties | Editor/IfDrawer.cs:41-44 | the ordered filter of properties whose `If` attribute names the property itself; never longer than the input and only self-naming properties; exact form in `MonitoredPropertiesExactly` |
| IfDrawing.IfLoopHides | Editor/IfDrawer.cs:61-64 | the `If` loop marks the member iff it was marked already or some `If` attribute's source is non-null and differs from its value |
| IfDrawing.IfNotLoopHides | Editor/IfDrawer.cs:66-69 | the `IfNot` loop marks the member iff it was marked already or some `IfNot` attribute's source is non-null and equals its value |
| IfDrawing.PassHides | Editor/IfDrawer.cs:59-70 | a full pass hides iff any single attribute of either kind fires (an OR over attributes) |
| IfDrawing.IfRuleHides | Editor/IfDrawer.cs:61-64 | one `If` rule hides iff its source is non-null and not equal to its value |
| IfDrawing.IfNotRuleHides | Editor/IfDrawer.cs:66-69 | one `IfNot` rule hides iff its source is non-null and equal to its value |
| IfDrawing.NullSourceNeverHides | Editor/IfDrawer.cs:59-70 | when every source is null or unresolved, the member is not hidden |
| IfDrawing.IfIsSingleValueShowIf | Editor/IfDrawer.cs:61-64 | an `If` list hides exactly when the same rules, written as one-value `ShowIf` rules with the default `Hide`, hide; those never disable |
| IfDrawing.MonitoredPropertiesExactly | Editor/IfDrawer.cs:35-45 | the monitored list holds exactly the properties whose `If` attribute names the property itself, in the original order |
| IfDrawing.IfDrawer.constructor | Editor/IfDrawer.cs:18 | the monitored list starts empty |
| IfDrawing.IfDrawer.OnInitialization | Editor/IfDrawer.cs:35-45 | replaces the monitored list with the ordered filter of all properties whose `If` field name equals their own name |
| IfDrawing.IfDrawer.OnProcessProperty | Editor/IfDrawer.cs:59-70 | adds the property to the handled set iff the pass hides; never disables; nothing else changes |
| IfDrawing.IfDrawer.OnProcessMethod | Editor/IfDrawer.cs:72-86 | changes nothing when the method is already handled; otherwise adds it to the handled methods iff the pass hides; never disables |
| Host.InspectorHook.IsMethodHandled | Editor/ShowIfDrawer.cs:93 | the host's test, also at Editor/IfDrawer.cs:74: the method is in the handled-methods set |
| Host.InspectorHook.MarkPropertyAndChildrenAsHandled | Editor/ShowIfDrawer.cs:69 | adds the property to the handled properties; the other three sets are unchanged |
| Host.InspectorHook.MarkPropertyAndChildrenDisabled | Editor/ShowIfDrawer.cs:72 | adds the property to the disabled properties; the other three sets are unchanged |
| Host.InspectorHook.MarkMethodAsHandled | Editor/ShowIfDrawer.cs:103 | adds the method to the handled methods; the other three sets are unchanged |
| Host.InspectorHook.MarkMethodDisabled | Editor/ShowIfDrawer.cs:106 | adds the method to the disabled methods; the other three sets are unchanged |

## Left out

- Hook registration: `Initialize` and its `[InitializeOnLoadMethod]` attribute. It only registers the drawers with the host, at priority 1001.
- Attribute discovery: `TryGetAttributes` and `TryGetAttribute` use reflection. The attributes of each member are input sequences. For `OnInitialization`, `attributeOf` gives the `ShowIf`/`If` attribute found on a property, if any. None of the attribute classes declares `[AttributeUsage]`, so a second attribute of the same kind on one member does not compile. A real member therefore carries at most one attribute of each kind; the model's sequences are more general than that.
- Value lookup: `FindProperty` and `GetPropertyValue` are Unity calls. They are replaced by the resolver parameter, with `None` for a missing property or a null value.
- The source calls the resolver again for every listed value. The model assumes the object does not change during one pass, so every call returns the same value.
- C# equality details: `object.Equals` on boxed values (int against float, enum against int) is plain Dafny equality here.
- Child traversal: the "and children" part of `MarkPropertyAndChildren*` is the host's work. Only the property's own mark is modelled.
- The host (`InspectorHook`) is not part of this model. It is reduced to four sets, and each `Mark*` call adds to one of them.
- `IfDrawer.OnProcessMethod` calls the host's `MarkPropertyAsHandled` overload with a `MethodInfo`. That overload is modelled as adding the method to the handled methods, the set that `IsMethodHandled` reads.
- Rendering, and any later use of the monitored list: nothing in these files reads it after it is built.
- Before the first `OnInitialization` the static list is `null`. The model starts it empty.
- A null attribute field name would make `OnInitialization` throw. Dafny strings cannot be null.
- A lone `null` passed to a `params object[]` constructor makes the array itself null, and the drawer's `foreach` would then throw. The model's value list is never null; it may hold null elements.
