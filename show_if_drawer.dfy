/**
 * The `ShowIf` / `ShowIfNot` drawer (Editor/ShowIfDrawer.cs).
 *
 * One processing pass walks the member's `ShowIf` attributes and, inside
 * each, the attribute's listed values, in declaration order; every value that
 * passes the attribute's test applies the attribute's `Visibility` to the
 * member: `Hide` marks it handled, `Disable` marks it disabled. Then the same
 * is done for the `ShowIfNot` attributes. The test is made per listed value,
 * so a `ShowIf` with two distinct values fires on every non-null source.
 *
 * The loops are specified by functions that follow them step by step
 * (`ValueLoop`, `ShowIfLoop`, `ShowIfNotLoop`); lemmas then give their
 * meaning in closed form.
 */
module ShowIfDrawing {
  import opened Wrappers
  import opened ShowIfAttributes
  import opened Conditions
  import opened Host
  import Seqs

  /** Which of the two attribute loops a value is tested in. */
  datatype AttributeKind = ShowIf | ShowIfNot

  /** The per-value test: a `ShowIf` fires on a value the source differs from, a `ShowIfNot` on one it equals. */
  function Fires<V(==)>(kind: AttributeKind, source: Option<V>, fieldValue: Option<V>): (b: bool)
    ensures b ==> source.Some?
    ensures kind == ShowIf ==> (b <==> source.Some? && fieldValue != source)
    ensures kind == ShowIfNot ==> (b <==> source.Some? && fieldValue == source)
  {
    match kind
    case ShowIf => Differs(source, fieldValue)
    case ShowIfNot => Matches(source, fieldValue)
  }

  /** What one pass has done to a member so far: marked it handled (hidden), marked it disabled. */
  datatype Marks = Marks(hidden: bool, disabled: bool)

  const NoMarks := Marks(false, false)

  /** The switch on the attribute's `Visibility`; it has no default, so an undeclared value does nothing. */
  function Apply(m: Marks, visibility: Visibility): (r: Marks)
    ensures r.hidden <==> m.hidden || visibility == Hide
    ensures r.disabled <==> m.disabled || visibility == Disable
  {
    match visibility
    case Hide => m.(hidden := true)
    case Disable => m.(disabled := true)
    case Undeclared => m
  }

  /** The inner loop over one attribute's listed values, in order, starting from the marks `m`. */
  function ValueLoop<V(==)>(m: Marks, kind: AttributeKind, visibility: Visibility, source: Option<V>,
                            fieldValues: seq<Option<V>>): (r: Marks)
    ensures r == m || r == Apply(m, visibility)
    ensures source == None ==> r == m
    decreases |fieldValues|
  {
    if fieldValues == [] then m
    else
      var before := ValueLoop(m, kind, visibility, source, fieldValues[..|fieldValues| - 1]);
      if Fires(kind, source, fieldValues[|fieldValues| - 1]) then Apply(before, visibility) else before
  }

  /** The outer loop over the `ShowIf` attributes, each resolving its own source field. */
  function ShowIfLoop<V(==)>(m: Marks, attributes: seq<ShowIfAttribute<V>>, resolve: string -> Option<V>): (r: Marks)
    ensures m.hidden ==> r.hidden
    ensures m.disabled ==> r.disabled
    decreases |attributes|
  {
    if attributes == [] then m
    else
      var a := attributes[|attributes| - 1];
      ValueLoop(ShowIfLoop(m, attributes[..|attributes| - 1], resolve),
                ShowIf, a.visibility, resolve(a.fieldName), a.fieldValues)
  }

  /** The outer loop over the `ShowIfNot` attributes. */
  function ShowIfNotLoop<V(==)>(m: Marks, attributes: seq<ShowIfNotAttribute<V>>, resolve: string -> Option<V>): (r: Marks)
    ensures m.hidden ==> r.hidden
    ensures m.disabled ==> r.disabled
    decreases |attributes|
  {
    if attributes == [] then m
    else
      var a := attributes[|attributes| - 1];
      ValueLoop(ShowIfNotLoop(m, attributes[..|attributes| - 1], resolve),
                ShowIfNot, a.visibility, resolve(a.fieldName), a.fieldValues)
  }

  /** A whole pass over one member: the `ShowIf` loop, then the `ShowIfNot` loop. */
  function Pass<V(==)>(showIfs: seq<ShowIfAttribute<V>>, showIfNots: seq<ShowIfNotAttribute<V>>,
                       resolve: string -> Option<V>): (r: Marks)
    ensures showIfs == [] && showIfNots == [] ==> r == NoMarks
  {
    ShowIfNotLoop(ShowIfLoop(NoMarks, showIfs, resolve), showIfNots, resolve)
  }

  // ----- Meaning of the loops in closed form -----

  /** Some listed value passes the attribute's test. */
  ghost predicate AnyFires<V>(kind: AttributeKind, source: Option<V>, fieldValues: seq<Option<V>>)
  {
    exists j :: 0 <= j < |fieldValues| && Fires(kind, source, fieldValues[j])
  }

  /** Some `ShowIf` attribute with this visibility has a value that passes its test. */
  ghost predicate ShowIfApplies<V>(attributes: seq<ShowIfAttribute<V>>, resolve: string -> Option<V>,
                                       visibility: Visibility)
  {
    exists i :: 0 <= i < |attributes| && attributes[i].visibility == visibility &&
      AnyFires(ShowIf, resolve(attributes[i].fieldName), attributes[i].fieldValues)
  }

  /** Some `ShowIfNot` attribute with this visibility has a value that passes its test. */
  ghost predicate ShowIfNotApplies<V>(attributes: seq<ShowIfNotAttribute<V>>, resolve: string -> Option<V>,
                                          visibility: Visibility)
  {
    exists i :: 0 <= i < |attributes| && attributes[i].visibility == visibility &&
      AnyFires(ShowIfNot, resolve(attributes[i].fieldName), attributes[i].fieldValues)
  }

  /** The inner loop applies the attribute's effect once if any value fires, and otherwise changes nothing. */
  lemma {:induction false} ValueLoopEffect<V>(m: Marks, kind: AttributeKind, visibility: Visibility,
                                                  source: Option<V>, fieldValues: seq<Option<V>>)
    ensures ValueLoop(m, kind, visibility, source, fieldValues)
         == if AnyFires(kind, source, fieldValues) then Apply(m, visibility) else m
    decreases |fieldValues|
  {
    if fieldValues != [] {
      var init := fieldValues[..|fieldValues| - 1];
      ValueLoopEffect(m, kind, visibility, source, init);
      assert forall j :: 0 <= j < |init| ==> init[j] == fieldValues[j];
      if AnyFires(kind, source, fieldValues) && !Fires(kind, source, fieldValues[|fieldValues| - 1]) {
        var j :| 0 <= j < |fieldValues| && Fires(kind, source, fieldValues[j]);
        assert init[j] == fieldValues[j];
      }
    }
  }

  /** A `ShowIf` rule fires iff its source is non-null and differs from at least one listed value. */
  lemma ShowIfRuleFires<V>(source: Option<V>, fieldValues: seq<Option<V>>)
    ensures AnyFires(ShowIf, source, fieldValues) <==> source.Some? && exists v :: v in fieldValues && v != source
  {
    if source.Some? && exists v :: v in fieldValues && v != source {
      var v :| v in fieldValues && v != source;
      var j :| 0 <= j < |fieldValues| && fieldValues[j] == v;
      assert Fires(ShowIf, source, fieldValues[j]);
    } else if AnyFires(ShowIf, source, fieldValues) {
      var j :| 0 <= j < |fieldValues| && Fires(ShowIf, source, fieldValues[j]);
      assert fieldValues[j] in fieldValues && fieldValues[j] != source;
    }
  }

  /** A `ShowIfNot` rule fires iff its source is non-null and equals at least one listed value. */
  lemma ShowIfNotRuleFires<V>(source: Option<V>, fieldValues: seq<Option<V>>)
    ensures AnyFires(ShowIfNot, source, fieldValues) <==> source.Some? && source in fieldValues
  {
    if source.Some? && source in fieldValues {
      var j :| 0 <= j < |fieldValues| && fieldValues[j] == source;
      assert Fires(ShowIfNot, source, fieldValues[j]);
    }
  }

  /** The `ShowIf` loop hides iff some `Hide` attribute fires, and disables iff some `Disable` one does. */
  lemma {:induction false} ShowIfLoopEffect<V>(m: Marks, attributes: seq<ShowIfAttribute<V>>,
                                                   resolve: string -> Option<V>)
    ensures ShowIfLoop(m, attributes, resolve)
         == Marks(m.hidden || ShowIfApplies(attributes, resolve, Hide),
                  m.disabled || ShowIfApplies(attributes, resolve, Disable))
    decreases |attributes|
  {
    if attributes != [] {
      var init := attributes[..|attributes| - 1];
      var a := attributes[|attributes| - 1];
      ShowIfLoopEffect(m, init, resolve);
      ValueLoopEffect(ShowIfLoop(m, init, resolve), ShowIf, a.visibility, resolve(a.fieldName), a.fieldValues);
      assert forall i :: 0 <= i < |init| ==> init[i] == attributes[i];
      forall vis: Visibility
        ensures ShowIfApplies(attributes, resolve, vis)
            <==> ShowIfApplies(init, resolve, vis) || (a.visibility == vis && AnyFires(ShowIf, resolve(a.fieldName), a.fieldValues))
      {
        if ShowIfApplies(attributes, resolve, vis) {
          var i :| 0 <= i < |attributes| && attributes[i].visibility == vis &&
            AnyFires(ShowIf, resolve(attributes[i].fieldName), attributes[i].fieldValues);
          if i < |init| { assert init[i] == attributes[i]; }
        }
      }
    }
  }

  /** The `ShowIfNot` loop hides iff some `Hide` attribute fires, and disables iff some `Disable` one does. */
  lemma {:induction false} ShowIfNotLoopEffect<V>(m: Marks, attributes: seq<ShowIfNotAttribute<V>>,
                                                      resolve: string -> Option<V>)
    ensures ShowIfNotLoop(m, attributes, resolve)
         == Marks(m.hidden || ShowIfNotApplies(attributes, resolve, Hide),
                  m.disabled || ShowIfNotApplies(attributes, resolve, Disable))
    decreases |attributes|
  {
    if attributes != [] {
      var init := attributes[..|attributes| - 1];
      var a := attributes[|attributes| - 1];
      ShowIfNotLoopEffect(m, init, resolve);
      ValueLoopEffect(ShowIfNotLoop(m, init, resolve), ShowIfNot, a.visibility, resolve(a.fieldName), a.fieldValues);
      assert forall i :: 0 <= i < |init| ==> init[i] == attributes[i];
      forall vis: Visibility
        ensures ShowIfNotApplies(attributes, resolve, vis)
            <==> ShowIfNotApplies(init, resolve, vis) || (a.visibility == vis && AnyFires(ShowIfNot, resolve(a.fieldName), a.fieldValues))
      {
        if ShowIfNotApplies(attributes, resolve, vis) {
          var i :| 0 <= i < |attributes| && attributes[i].visibility == vis &&
            AnyFires(ShowIfNot, resolve(attributes[i].fieldName), attributes[i].fieldValues);
          if i < |init| { assert init[i] == attributes[i]; }
        }
      }
    }
  }

  /** A pass hides iff some `Hide` rule of either kind fires, and disables iff some `Disable` rule fires. */
  lemma PassEffect<V>(showIfs: seq<ShowIfAttribute<V>>, showIfNots: seq<ShowIfNotAttribute<V>>,
                          resolve: string -> Option<V>)
    ensures Pass(showIfs, showIfNots, resolve).hidden
        <==> ShowIfApplies(showIfs, resolve, Hide) || ShowIfNotApplies(showIfNots, resolve, Hide)
    ensures Pass(showIfs, showIfNots, resolve).disabled
        <==> ShowIfApplies(showIfs, resolve, Disable) || ShowIfNotApplies(showIfNots, resolve, Disable)
  {
    ShowIfLoopEffect(NoMarks, showIfs, resolve);
    ShowIfNotLoopEffect(ShowIfLoop(NoMarks, showIfs, resolve), showIfNots, resolve);
  }

  /** A rule whose source is null or unresolved never hides or disables, whatever its kind. */
  lemma NullSourceMarksNothing<V>(showIfs: seq<ShowIfAttribute<V>>, showIfNots: seq<ShowIfNotAttribute<V>>,
                                      resolve: string -> Option<V>)
    requires forall a :: a in showIfs ==> resolve(a.fieldName) == None
    requires forall a :: a in showIfNots ==> resolve(a.fieldName) == None
    ensures Pass(showIfs, showIfNots, resolve) == NoMarks
  {
    PassEffect(showIfs, showIfNots, resolve);
    forall vis: Visibility
      ensures !ShowIfApplies(showIfs, resolve, vis) && !ShowIfNotApplies(showIfNots, resolve, vis)
    {
      forall i | 0 <= i < |showIfs| ensures !AnyFires(ShowIf, resolve(showIfs[i].fieldName), showIfs[i].fieldValues) {
        assert showIfs[i] in showIfs;
      }
      forall i | 0 <= i < |showIfNots| ensures !AnyFires(ShowIfNot, resolve(showIfNots[i].fieldName), showIfNots[i].fieldValues) {
        assert showIfNots[i] in showIfNots;
      }
    }
  }

  /** Rules with empty value lists have no effect: their inner loop never runs. */
  lemma EmptyValuesMarkNothing<V>(showIfs: seq<ShowIfAttribute<V>>, showIfNots: seq<ShowIfNotAttribute<V>>,
                                      resolve: string -> Option<V>)
    requires forall a :: a in showIfs ==> a.fieldValues == []
    requires forall a :: a in showIfNots ==> a.fieldValues == []
    ensures Pass(showIfs, showIfNots, resolve) == NoMarks
  {
    PassEffect(showIfs, showIfNots, resolve);
    forall vis: Visibility
      ensures !ShowIfApplies(showIfs, resolve, vis) && !ShowIfNotApplies(showIfNots, resolve, vis)
    {
      forall i | 0 <= i < |showIfs| ensures showIfs[i].fieldValues == [] {
        assert showIfs[i] in showIfs;
      }
      forall i | 0 <= i < |showIfNots| ensures showIfNots[i].fieldValues == [] {
        assert showIfNots[i] in showIfNots;
      }
    }
  }

  /** `Hide` rules only ever hide: a member carrying no `Disable` rule is never disabled. */
  lemma HideRulesNeverDisable<V>(showIfs: seq<ShowIfAttribute<V>>, showIfNots: seq<ShowIfNotAttribute<V>>,
                                     resolve: string -> Option<V>)
    requires forall a :: a in showIfs ==> a.visibility == Hide
    requires forall a :: a in showIfNots ==> a.visibility == Hide
    ensures !Pass(showIfs, showIfNots, resolve).disabled
  {
    PassEffect(showIfs, showIfNots, resolve);
    forall i | 0 <= i < |showIfs| ensures showIfs[i].visibility == Hide {
      assert showIfs[i] in showIfs;
    }
    forall i | 0 <= i < |showIfNots| ensures showIfNots[i].visibility == Hide {
      assert showIfNots[i] in showIfNots;
    }
  }

  /** `Disable` rules only ever disable: a member carrying no `Hide` rule is never hidden. */
  lemma DisableRulesNeverHide<V>(showIfs: seq<ShowIfAttribute<V>>, showIfNots: seq<ShowIfNotAttribute<V>>,
                                     resolve: string -> Option<V>)
    requires forall a :: a in showIfs ==> a.visibility == Disable
    requires forall a :: a in showIfNots ==> a.visibility == Disable
    ensures !Pass(showIfs, showIfNots, resolve).hidden
  {
    PassEffect(showIfs, showIfNots, resolve);
    forall i | 0 <= i < |showIfs| ensures showIfs[i].visibility == Disable {
      assert showIfs[i] in showIfs;
    }
    forall i | 0 <= i < |showIfNots| ensures showIfNots[i].visibility == Disable {
      assert showIfNots[i] in showIfNots;
    }
  }

  /** A rule whose visibility is neither `Hide` nor `Disable` may fire but marks nothing. */
  lemma UndeclaredVisibilityMarksNothing<V>(showIfs: seq<ShowIfAttribute<V>>, showIfNots: seq<ShowIfNotAttribute<V>>,
                                            resolve: string -> Option<V>)
    requires forall a :: a in showIfs ==> a.visibility == Undeclared
    requires forall a :: a in showIfNots ==> a.visibility == Undeclared
    ensures Pass(showIfs, showIfNots, resolve) == NoMarks
  {
    PassEffect(showIfs, showIfNots, resolve);
    forall i | 0 <= i < |showIfs| ensures showIfs[i].visibility == Undeclared {
      assert showIfs[i] in showIfs;
    }
    forall i | 0 <= i < |showIfNots| ensures showIfNots[i].visibility == Undeclared {
      assert showIfNots[i] in showIfNots;
    }
  }

  /**
   * The test is per value, not set membership: a `ShowIf` that lists two
   * distinct values applies its effect whenever its source is non-null, also
   * when the source equals one of the listed values.
   */
  lemma ShowIfIsNotSetMembership<V>(a: ShowIfAttribute<V>, resolve: string -> Option<V>, x: V, y: V)
    requires x != y && Some(x) in a.fieldValues && Some(y) in a.fieldValues
    requires resolve(a.fieldName).Some?
    ensures Pass([a], [], resolve) == Apply(NoMarks, a.visibility)
  {
    var source := resolve(a.fieldName);
    var v := if source == Some(x) then Some(y) else Some(x);
    assert v in a.fieldValues && v != source;
    ShowIfRuleFires(source, a.fieldValues);
    ValueLoopEffect(NoMarks, ShowIf, a.visibility, source, a.fieldValues);
    assert [a][..0] == [];
    assert ShowIfLoop(NoMarks, [a], resolve) == ValueLoop(NoMarks, ShowIf, a.visibility, source, a.fieldValues);
  }

  // ----- The monitored list -----

  /** A property is monitored when its `ShowIf` attribute names the property itself. */
  predicate MonitorsItself<V>(property: SerializedProperty, attribute: Option<ShowIfAttribute<V>>)
  {
    attribute.Some? && attribute.value.fieldName == property.name
  }

  function MonitoredProperties<V>(allProperties: seq<SerializedProperty>,
                                  attributeOf: SerializedProperty -> Option<ShowIfAttribute<V>>): (r: seq<SerializedProperty>)
    ensures |r| <= |allProperties|
    ensures forall i :: 0 <= i < |r| ==> MonitorsItself(r[i], attributeOf(r[i]))
  {
    Seqs.Filter(allProperties, p => MonitorsItself(p, attributeOf(p)))
  }

  /** The monitored list holds exactly the self-naming properties, in their original order. */
  lemma MonitoredPropertiesExactly<V>(s: seq<SerializedProperty>, t: seq<SerializedProperty>,
                                      attributeOf: SerializedProperty -> Option<ShowIfAttribute<V>>)
    ensures forall p :: p in MonitoredProperties(s, attributeOf) <==> p in s && MonitorsItself(p, attributeOf(p))
    ensures MonitoredProperties(s + t, attributeOf) == MonitoredProperties(s, attributeOf) + MonitoredProperties(t, attributeOf)
  {
    Seqs.FilterMembership(s, p => MonitorsItself(p, attributeOf(p)));
    Seqs.FilterConcat(s, t, p => MonitorsItself(p, attributeOf(p)));
  }

  // ----- The drawer -----

  class ShowIfDrawer {
    /** The list built by `OnInitialization`; nothing in the drawer reads it afterwards. */
    var monitoredProperties: seq<SerializedProperty>

    constructor ()
      ensures monitoredProperties == []
    {
      monitoredProperties := [];
    }

    /**
     * Rebuilds the monitored list from all properties the host shows;
     * `attributeOf` gives the `ShowIf` attribute found on each, if any.
     */
    method OnInitialization<V>(allProperties: seq<SerializedProperty>,
                               attributeOf: SerializedProperty -> Option<ShowIfAttribute<V>>)
      modifies this
      ensures monitoredProperties == MonitoredProperties(allProperties, attributeOf)
    {
      monitoredProperties := [];
      for i := 0 to |allProperties|
        invariant monitoredProperties == MonitoredProperties(allProperties[..i], attributeOf)
      {
        var property := allProperties[i];
        assert allProperties[..i + 1][..i] == allProperties[..i];
        match attributeOf(property)
        case Some(attribute) =>
          if attribute.fieldName == property.name {
            monitoredProperties := monitoredProperties + [property];
          }
        case None =>
      }
      assert allProperties[..|allProperties|] == allProperties;
    }

    /**
     * Processes one property: every firing `Hide` rule marks it and its
     * children handled, every firing `Disable` rule marks them disabled. Marks
     * are only added, and only for this property.
     */
    static method OnProcessProperty<V(==)>(hook: InspectorHook, property: SerializedProperty,
                                           showIfs: seq<ShowIfAttribute<V>>, showIfNots: seq<ShowIfNotAttribute<V>>,
                                           resolve: string -> Option<V>)
      modifies hook
      ensures hook.handledProperties
           == old(hook.handledProperties) + Marked(Pass(showIfs, showIfNots, resolve).hidden, property)
      ensures hook.disabledProperties
           == old(hook.disabledProperties) + Marked(Pass(showIfs, showIfNots, resolve).disabled, property)
      ensures hook.handledMethods == old(hook.handledMethods) && hook.disabledMethods == old(hook.disabledMethods)
    {
      ghost var handled0, disabled0 := hook.handledProperties, hook.disabledProperties;
      for i := 0 to |showIfs|
        invariant hook.handledProperties == handled0 + Marked(ShowIfLoop(NoMarks, showIfs[..i], resolve).hidden, property)
        invariant hook.disabledProperties == disabled0 + Marked(ShowIfLoop(NoMarks, showIfs[..i], resolve).disabled, property)
        invariant hook.handledMethods == old(hook.handledMethods) && hook.disabledMethods == old(hook.disabledMethods)
      {
        var attribute := showIfs[i];
        ghost var before := ShowIfLoop(NoMarks, showIfs[..i], resolve);
        for j := 0 to |attribute.fieldValues|
          invariant hook.handledProperties == handled0 +
            Marked(ValueLoop(before, ShowIf, attribute.visibility, resolve(attribute.fieldName), attribute.fieldValues[..j]).hidden, property)
          invariant hook.disabledProperties == disabled0 +
            Marked(ValueLoop(before, ShowIf, attribute.visibility, resolve(attribute.fieldName), attribute.fieldValues[..j]).disabled, property)
          invariant hook.handledMethods == old(hook.handledMethods) && hook.disabledMethods == old(hook.disabledMethods)
        {
          assert attribute.fieldValues[..j + 1][..j] == attribute.fieldValues[..j];
          if Differs(resolve(attribute.fieldName), attribute.fieldValues[j]) {
            match attribute.visibility
            case Hide => hook.MarkPropertyAndChildrenAsHandled(property);
            case Disable => hook.MarkPropertyAndChildrenDisabled(property);
            case Undeclared =>
          }
        }
        assert attribute.fieldValues[..|attribute.fieldValues|] == attribute.fieldValues;
        assert showIfs[..i + 1][..i] == showIfs[..i];
      }
      assert showIfs[..|showIfs|] == showIfs;

      ghost var afterShowIf := ShowIfLoop(NoMarks, showIfs, resolve);
      for i := 0 to |showIfNots|
        invariant hook.handledProperties == handled0 + Marked(ShowIfNotLoop(afterShowIf, showIfNots[..i], resolve).hidden, property)
        invariant hook.disabledProperties == disabled0 + Marked(ShowIfNotLoop(afterShowIf, showIfNots[..i], resolve).disabled, property)
        invariant hook.handledMethods == old(hook.handledMethods) && hook.disabledMethods == old(hook.disabledMethods)
      {
        var attribute := showIfNots[i];
        ghost var before := ShowIfNotLoop(afterShowIf, showIfNots[..i], resolve);
        for j := 0 to |attribute.fieldValues|
          invariant hook.handledProperties == handled0 +
            Marked(ValueLoop(before, ShowIfNot, attribute.visibility, resolve(attribute.fieldName), attribute.fieldValues[..j]).hidden, property)
          invariant hook.disabledProperties == disabled0 +
            Marked(ValueLoop(before, ShowIfNot, attribute.visibility, resolve(attribute.fieldName), attribute.fieldValues[..j]).disabled, property)
          invariant hook.handledMethods == old(hook.handledMethods) && hook.disabledMethods == old(hook.disabledMethods)
        {
          assert attribute.fieldValues[..j + 1][..j] == attribute.fieldValues[..j];
          if Matches(resolve(attribute.fieldName), attribute.fieldValues[j]) {
            match attribute.visibility
            case Hide => hook.MarkPropertyAndChildrenAsHandled(property);
            case Disable => hook.MarkPropertyAndChildrenDisabled(property);
            case Undeclared =>
          }
        }
        assert attribute.fieldValues[..|attribute.fieldValues|] == attribute.fieldValues;
        assert showIfNots[..i + 1][..i] == showIfNots[..i];
      }
      assert showIfNots[..|showIfNots|] == showIfNots;
    }

    /**
     * Processes one method: nothing at all when the host already handles it;
     * otherwise the same rules as for a property, marking the method.
     */
    static method OnProcessMethod<V(==)>(hook: InspectorHook, methodInfo: MethodInfo,
                                         showIfs: seq<ShowIfAttribute<V>>, showIfNots: seq<ShowIfNotAttribute<V>>,
                                         resolve: string -> Option<V>)
      modifies hook
      ensures old(hook.IsMethodHandled(methodInfo)) ==>
        hook.handledMethods == old(hook.handledMethods) && hook.disabledMethods == old(hook.disabledMethods)
      ensures !old(hook.IsMethodHandled(methodInfo)) ==>
        hook.handledMethods == old(hook.handledMethods) + Marked(Pass(showIfs, showIfNots, resolve).hidden, methodInfo) &&
        hook.disabledMethods == old(hook.disabledMethods) + Marked(Pass(showIfs, showIfNots, resolve).disabled, methodInfo)
      ensures hook.handledProperties == old(hook.handledProperties) && hook.disabledProperties == old(hook.disabledProperties)
    {
      if hook.IsMethodHandled(methodInfo) {
        return;
      }
      ghost var handled0, disabled0 := hook.handledMethods, hook.disabledMethods;
      for i := 0 to |showIfs|
        invariant hook.handledMethods == handled0 + Marked(ShowIfLoop(NoMarks, showIfs[..i], resolve).hidden, methodInfo)
        invariant hook.disabledMethods == disabled0 + Marked(ShowIfLoop(NoMarks, showIfs[..i], resolve).disabled, methodInfo)
        invariant hook.handledProperties == old(hook.handledProperties) && hook.disabledProperties == old(hook.disabledProperties)
      {
        var attribute := showIfs[i];
        ghost var before := ShowIfLoop(NoMarks, showIfs[..i], resolve);
        for j := 0 to |attribute.fieldValues|
          invariant hook.handledMethods == handled0 +
            Marked(ValueLoop(before, ShowIf, attribute.visibility, resolve(attribute.fieldName), attribute.fieldValues[..j]).hidden, methodInfo)
          invariant hook.disabledMethods == disabled0 +
            Marked(ValueLoop(before, ShowIf, attribute.visibility, resolve(attribute.fieldName), attribute.fieldValues[..j]).disabled, methodInfo)
          invariant hook.handledProperties == old(hook.handledProperties) && hook.disabledProperties == old(hook.disabledProperties)
        {
          assert attribute.fieldValues[..j + 1][..j] == attribute.fieldValues[..j];
          if Differs(resolve(attribute.fieldName), attribute.fieldValues[j]) {
            match attribute.visibility
            case Hide => hook.MarkMethodAsHandled(methodInfo);
            case Disable => hook.MarkMethodDisabled(methodInfo);
            case Undeclared =>
          }
        }
        assert attribute.fieldValues[..|attribute.fieldValues|] == attribute.fieldValues;
        assert showIfs[..i + 1][..i] == showIfs[..i];
      }
      assert showIfs[..|showIfs|] == showIfs;

      ghost var afterShowIf := ShowIfLoop(NoMarks, showIfs, resolve);
      for i := 0 to |showIfNots|
        invariant hook.handledMethods == handled0 + Marked(ShowIfNotLoop(afterShowIf, showIfNots[..i], resolve).hidden, methodInfo)
        invariant hook.disabledMethods == disabled0 + Marked(ShowIfNotLoop(afterShowIf, showIfNots[..i], resolve).disabled, methodInfo)
        invariant hook.handledProperties == old(hook.handledProperties) && hook.disabledProperties == old(hook.disabledProperties)
      {
        var attribute := showIfNots[i];
        ghost var before := ShowIfNotLoop(afterShowIf, showIfNots[..i], resolve);
        for j := 0 to |attribute.fieldValues|
          invariant hook.handledMethods == handled0 +
            Marked(ValueLoop(before, ShowIfNot, attribute.visibility, resolve(attribute.fieldName), attribute.fieldValues[..j]).hidden, methodInfo)
          invariant hook.disabledMethods == disabled0 +
            Marked(ValueLoop(before, ShowIfNot, attribute.visibility, resolve(attribute.fieldName), attribute.fieldValues[..j]).disabled, methodInfo)
          invariant hook.handledProperties == old(hook.handledProperties) && hook.disabledProperties == old(hook.disabledProperties)
        {
          assert attribute.fieldValues[..j + 1][..j] == attribute.fieldValues[..j];
          if Matches(resolve(attribute.fieldName), attribute.fieldValues[j]) {
            match attribute.visibility
            case Hide => hook.MarkMethodAsHandled(methodInfo);
            case Disable => hook.MarkMethodDisabled(methodInfo);
            case Undeclared =>
          }
        }
        assert attribute.fieldValues[..|attribute.fieldValues|] == attribute.fieldValues;
        assert showIfNots[..i + 1][..i] == showIfNots[..i];
      }
      assert showIfNots[..|showIfNots|] == showIfNots;
    }
  }
}
