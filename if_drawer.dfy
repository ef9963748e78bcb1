/**
 * The older single-value drawer for `If` / `IfNot` (Editor/IfDrawer.cs).
 *
 * Each `If` attribute whose source differs from its one value, and each
 * `IfNot` attribute whose source equals it, marks the member handled; a
 * member is hidden as soon as any one attribute fires. Nothing here ever
 * disables.
 */
module IfDrawing {
  import opened Wrappers
  import opened IfAttributes
  import opened IfNotAttributes
  import opened Conditions
  import opened Host
  import Seqs
  import ShowIfAttributes
  import ShowIfDrawing

  /** The loop over the `If` attributes, in order: whether the member has been marked handled. */
  function IfLoop<V(==)>(hidden: bool, attributes: seq<IfAttribute<V>>, resolve: string -> Option<V>): (r: bool)
    ensures hidden ==> r
    decreases |attributes|
  {
    if attributes == [] then hidden
    else
      var a := attributes[|attributes| - 1];
      IfLoop(hidden, attributes[..|attributes| - 1], resolve) || Differs(resolve(a.fieldName), a.fieldValue)
  }

  /** The loop over the `IfNot` attributes. */
  function IfNotLoop<V(==)>(hidden: bool, attributes: seq<IfNotAttribute<V>>, resolve: string -> Option<V>): (r: bool)
    ensures hidden ==> r
    decreases |attributes|
  {
    if attributes == [] then hidden
    else
      var a := attributes[|attributes| - 1];
      IfNotLoop(hidden, attributes[..|attributes| - 1], resolve) || Matches(resolve(a.fieldName), a.fieldValue)
  }

  /** A whole pass over one member: the `If` loop, then the `IfNot` loop. */
  function Pass<V(==)>(ifs: seq<IfAttribute<V>>, ifNots: seq<IfNotAttribute<V>>, resolve: string -> Option<V>): (r: bool)
    ensures ifs == [] && ifNots == [] ==> !r
  {
    IfNotLoop(IfLoop(false, ifs, resolve), ifNots, resolve)
  }

  // ----- Meaning of the loops in closed form -----

  ghost predicate SomeIfFires<V>(attributes: seq<IfAttribute<V>>, resolve: string -> Option<V>)
  {
    exists i :: 0 <= i < |attributes| && Differs(resolve(attributes[i].fieldName), attributes[i].fieldValue)
  }

  ghost predicate SomeIfNotFires<V>(attributes: seq<IfNotAttribute<V>>, resolve: string -> Option<V>)
  {
    exists i :: 0 <= i < |attributes| && Matches(resolve(attributes[i].fieldName), attributes[i].fieldValue)
  }

  /** The `If` loop marks the member iff it was marked already or some `If` attribute fires. */
  lemma {:induction false} IfLoopHides<V>(hidden: bool, attributes: seq<IfAttribute<V>>, resolve: string -> Option<V>)
    ensures IfLoop(hidden, attributes, resolve) <==> hidden || SomeIfFires(attributes, resolve)
    decreases |attributes|
  {
    if attributes != [] {
      var init := attributes[..|attributes| - 1];
      IfLoopHides(hidden, init, resolve);
      assert forall i :: 0 <= i < |init| ==> init[i] == attributes[i];
      if SomeIfFires(attributes, resolve) {
        var i :| 0 <= i < |attributes| && Differs(resolve(attributes[i].fieldName), attributes[i].fieldValue);
        if i < |init| { assert init[i] == attributes[i]; }
      }
    }
  }

  /** The `IfNot` loop marks the member iff it was marked already or some `IfNot` attribute fires. */
  lemma {:induction false} IfNotLoopHides<V>(hidden: bool, attributes: seq<IfNotAttribute<V>>, resolve: string -> Option<V>)
    ensures IfNotLoop(hidden, attributes, resolve) <==> hidden || SomeIfNotFires(attributes, resolve)
    decreases |attributes|
  {
    if attributes != [] {
      var init := attributes[..|attributes| - 1];
      IfNotLoopHides(hidden, init, resolve);
      assert forall i :: 0 <= i < |init| ==> init[i] == attributes[i];
      if SomeIfNotFires(attributes, resolve) {
        var i :| 0 <= i < |attributes| && Matches(resolve(attributes[i].fieldName), attributes[i].fieldValue);
        if i < |init| { assert init[i] == attributes[i]; }
      }
    }
  }

  /** A pass hides the member iff any single attribute of either kind fires: an OR over attributes. */
  lemma PassHides<V>(ifs: seq<IfAttribute<V>>, ifNots: seq<IfNotAttribute<V>>, resolve: string -> Option<V>)
    ensures Pass(ifs, ifNots, resolve) <==> SomeIfFires(ifs, resolve) || SomeIfNotFires(ifNots, resolve)
  {
    IfLoopHides(false, ifs, resolve);
    IfNotLoopHides(IfLoop(false, ifs, resolve), ifNots, resolve);
  }

  /** One `If` rule hides iff its source is non-null and not equal to its value. */
  lemma IfRuleHides<V>(a: IfAttribute<V>, resolve: string -> Option<V>)
    ensures Pass([a], [], resolve) <==> resolve(a.fieldName).Some? && a.fieldValue != resolve(a.fieldName)
  {
    assert [a][..0] == [];
    assert IfLoop(false, [a], resolve) == Differs(resolve(a.fieldName), a.fieldValue);
  }

  /** One `IfNot` rule hides iff its source is non-null and equal to its value. */
  lemma IfNotRuleHides<V>(a: IfNotAttribute<V>, resolve: string -> Option<V>)
    ensures Pass([], [a], resolve) <==> resolve(a.fieldName).Some? && a.fieldValue == resolve(a.fieldName)
  {
    assert [a][..0] == [];
    assert IfNotLoop(false, [a], resolve) == Matches(resolve(a.fieldName), a.fieldValue);
  }

  /** Attributes whose source is null or unresolved never hide the member. */
  lemma NullSourceNeverHides<V>(ifs: seq<IfAttribute<V>>, ifNots: seq<IfNotAttribute<V>>, resolve: string -> Option<V>)
    requires forall a :: a in ifs ==> resolve(a.fieldName) == None
    requires forall a :: a in ifNots ==> resolve(a.fieldName) == None
    ensures !Pass(ifs, ifNots, resolve)
  {
    PassHides(ifs, ifNots, resolve);
    forall i | 0 <= i < |ifs| ensures resolve(ifs[i].fieldName) == None {
      assert ifs[i] in ifs;
    }
    forall i | 0 <= i < |ifNots| ensures resolve(ifNots[i].fieldName) == None {
      assert ifNots[i] in ifNots;
    }
  }

  /** The `If` rules as `ShowIf` rules with the one value and the default visibility `Hide`. */
  function AsShowIfs<V>(ifs: seq<IfAttribute<V>>): seq<ShowIfAttributes.ShowIfAttribute<V>>
  {
    seq(|ifs|, i requires 0 <= i < |ifs| => ShowIfAttributes.NewShowIf(ifs[i].fieldName, [ifs[i].fieldValue]))
  }

  /**
   * The older form is the newer one restricted: an `If` list hides exactly
   * when the same rules written as single-value `ShowIf` rules hide, and those
   * never disable.
   */
  lemma IfIsSingleValueShowIf<V>(ifs: seq<IfAttribute<V>>, resolve: string -> Option<V>)
    ensures Pass(ifs, [], resolve) == ShowIfDrawing.Pass(AsShowIfs(ifs), [], resolve).hidden
    ensures !ShowIfDrawing.Pass(AsShowIfs(ifs), [], resolve).disabled
  {
    var showIfs := AsShowIfs(ifs);
    PassHides(ifs, [], resolve);
    ShowIfDrawing.PassEffect(showIfs, [], resolve);
    forall i | 0 <= i < |ifs|
      ensures ShowIfDrawing.AnyFires(ShowIfDrawing.ShowIf, resolve(showIfs[i].fieldName), showIfs[i].fieldValues)
          <==> Differs(resolve(ifs[i].fieldName), ifs[i].fieldValue)
    {
      assert showIfs[i].fieldName == ifs[i].fieldName && showIfs[i].fieldValues == [ifs[i].fieldValue];
      ShowIfDrawing.ShowIfRuleFires(resolve(ifs[i].fieldName), [ifs[i].fieldValue]);
      assert ifs[i].fieldValue in [ifs[i].fieldValue];
    }
    if SomeIfFires(ifs, resolve) {
      var i :| 0 <= i < |ifs| && Differs(resolve(ifs[i].fieldName), ifs[i].fieldValue);
      assert showIfs[i].visibility == ShowIfAttributes.Hide;
    }
  }

  // ----- The monitored list -----

  /** A property is monitored when its `If` attribute names the property itself. */
  predicate MonitorsItself<V>(property: SerializedProperty, attribute: Option<IfAttribute<V>>)
  {
    attribute.Some? && attribute.value.fieldName == property.name
  }

  function MonitoredProperties<V>(allProperties: seq<SerializedProperty>,
                                  attributeOf: SerializedProperty -> Option<IfAttribute<V>>): (r: seq<SerializedProperty>)
    ensures |r| <= |allProperties|
    ensures forall i :: 0 <= i < |r| ==> MonitorsItself(r[i], attributeOf(r[i]))
  {
    Seqs.Filter(allProperties, p => MonitorsItself(p, attributeOf(p)))
  }

  /** The monitored list holds exactly the self-naming properties, in their original order. */
  lemma MonitoredPropertiesExactly<V>(s: seq<SerializedProperty>, t: seq<SerializedProperty>,
                                      attributeOf: SerializedProperty -> Option<IfAttribute<V>>)
    ensures forall p :: p in MonitoredProperties(s, attributeOf) <==> p in s && MonitorsItself(p, attributeOf(p))
    ensures MonitoredProperties(s + t, attributeOf) == MonitoredProperties(s, attributeOf) + MonitoredProperties(t, attributeOf)
  {
    Seqs.FilterMembership(s, p => MonitorsItself(p, attributeOf(p)));
    Seqs.FilterConcat(s, t, p => MonitorsItself(p, attributeOf(p)));
  }

  // ----- The drawer -----

  class IfDrawer {
    /** The list built by `OnInitialization`; nothing in the drawer reads it afterwards. */
    var monitoredProperties: seq<SerializedProperty>

    constructor ()
      ensures monitoredProperties == []
    {
      monitoredProperties := [];
    }

    /**
     * Rebuilds the monitored list from all properties the host shows;
     * `attributeOf` gives the `If` attribute found on each, if any.
     */
    method OnInitialization<V>(allProperties: seq<SerializedProperty>,
                               attributeOf: SerializedProperty -> Option<IfAttribute<V>>)
      modifies this
      ensures monitoredProperties == MonitoredProperties(allProperties, attributeOf)
    {
      monitoredProperties := [];
      for i := 0 to |allProperties|
        invariant monitoredProperties == MonitoredProperties(allProperties[..i], attributeOf)
      {
        var property := allProperties[i];
        assert allProperties[..i + 1][..i] == allProperties[..i];
        match attributeOf(property)
        case Some(attribute) =>
          if attribute.fieldName == property.name {
            monitoredProperties := monitoredProperties + [property];
          }
        case None =>
      }
      assert allProperties[..|allProperties|] == allProperties;
    }

    /** Processes one property: marks it and its children handled when any attribute fires; never disables. */
    static method OnProcessProperty<V(==)>(hook: InspectorHook, property: SerializedProperty,
                                           ifs: seq<IfAttribute<V>>, ifNots: seq<IfNotAttribute<V>>,
                                           resolve: string -> Option<V>)
      modifies hook
      ensures hook.handledProperties == old(hook.handledProperties) + Marked(Pass(ifs, ifNots, resolve), property)
      ensures hook.disabledProperties == old(hook.disabledProperties)
      ensures hook.handledMethods == old(hook.handledMethods) && hook.disabledMethods == old(hook.disabledMethods)
    {
      ghost var handled0 := hook.handledProperties;
      for i := 0 to |ifs|
        invariant hook.handledProperties == handled0 + Marked(IfLoop(false, ifs[..i], resolve), property)
        invariant hook.disabledProperties == old(hook.disabledProperties)
        invariant hook.handledMethods == old(hook.handledMethods) && hook.disabledMethods == old(hook.disabledMethods)
      {
        var attribute := ifs[i];
        assert ifs[..i + 1][..i] == ifs[..i];
        if Differs(resolve(attribute.fieldName), attribute.fieldValue) {
          hook.MarkPropertyAndChildrenAsHandled(property);
        }
      }
      assert ifs[..|ifs|] == ifs;

      ghost var afterIf := IfLoop(false, ifs, resolve);
      for i := 0 to |ifNots|
        invariant hook.handledProperties == handled0 + Marked(IfNotLoop(afterIf, ifNots[..i], resolve), property)
        invariant hook.disabledProperties == old(hook.disabledProperties)
        invariant hook.handledMethods == old(hook.handledMethods) && hook.disabledMethods == old(hook.disabledMethods)
      {
        var attribute := ifNots[i];
        assert ifNots[..i + 1][..i] == ifNots[..i];
        if Matches(resolve(attribute.fieldName), attribute.fieldValue) {
          hook.MarkPropertyAndChildrenAsHandled(property);
        }
      }
      assert ifNots[..|ifNots|] == ifNots;
    }

    /**
     * Processes one method: nothing at all when the host already handles it;
     * otherwise marks it handled when any attribute fires; never disables.
     */
    static method OnProcessMethod<V(==)>(hook: InspectorHook, methodInfo: MethodInfo,
                                         ifs: seq<IfAttribute<V>>, ifNots: seq<IfNotAttribute<V>>,
                                         resolve: string -> Option<V>)
      modifies hook
      ensures old(hook.IsMethodHandled(methodInfo)) ==> hook.handledMethods == old(hook.handledMethods)
      ensures !old(hook.IsMethodHandled(methodInfo)) ==>
        hook.handledMethods == old(hook.handledMethods) + Marked(Pass(ifs, ifNots, resolve), methodInfo)
      ensures hook.disabledMethods == old(hook.disabledMethods)
      ensures hook.handledProperties == old(hook.handledProperties) && hook.disabledProperties == old(hook.disabledProperties)
    {
      if hook.IsMethodHandled(methodInfo) {
        return;
      }
      ghost var handled0 := hook.handledMethods;
      for i := 0 to |ifs|
        invariant hook.handledMethods == handled0 + Marked(IfLoop(false, ifs[..i], resolve), methodInfo)
        invariant hook.disabledMethods == old(hook.disabledMethods)
        invariant hook.handledProperties == old(hook.handledProperties) && hook.disabledProperties == old(hook.disabledProperties)
      {
        var attribute := ifs[i];
        assert ifs[..i + 1][..i] == ifs[..i];
        if Differs(resolve(attribute.fieldName), attribute.fieldValue) {
          hook.MarkMethodAsHandled(methodInfo);
        }
      }
      assert ifs[..|ifs|] == ifs;

      ghost var afterIf := IfLoop(false, ifs, resolve);
      for i := 0 to |ifNots|
        invariant hook.handledMethods == handled0 + Marked(IfNotLoop(afterIf, ifNots[..i], resolve), methodInfo)
        invariant hook.disabledMethods == old(hook.disabledMethods)
        invariant hook.handledProperties == old(hook.handledProperties) && hook.disabledProperties == old(hook.disabledProperties)
      {
        var attribute := ifNots[i];
        assert ifNots[..i + 1][..i] == ifNots[..i];
        if Matches(resolve(attribute.fieldName), attribute.fieldValue) {
          hook.MarkMethodAsHandled(methodInfo);
        }
      }
      assert ifNots[..|ifNots|] == ifNots;
    }
  }
}
