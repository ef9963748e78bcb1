/**
 * The inspector host as the drawers see it: the identities of the members it
 * shows and the four sets of marks the drawers add to. The host itself is not
 * part of this model; only the behaviour the drawers depend on is stated.
 */
module Host {

  /** A serialized field of the inspected object: its path identifies it, `name` is its own field name. */
  datatype SerializedProperty = SerializedProperty(propertyPath: string, name: string)

  /** A method shown in the inspector. */
  datatype MethodInfo = MethodInfo(declaringType: string, name: string)

  /** The marks one pass adds for a member: the member itself when it was marked, else nothing. */
  function Marked<T>(marked: bool, x: T): set<T>
  {
    if marked then {x} else {}
  }

  class InspectorHook {
    var handledProperties: set<SerializedProperty>
    var disabledProperties: set<SerializedProperty>
    var handledMethods: set<MethodInfo>
    var disabledMethods: set<MethodInfo>

    constructor ()
      ensures handledProperties == {} && disabledProperties == {}
      ensures handledMethods == {} && disabledMethods == {}
    {
      handledProperties, disabledProperties := {}, {};
      handledMethods, disabledMethods := {}, {};
    }

    predicate IsMethodHandled(m: MethodInfo)
      reads this
    {
      m in handledMethods
    }

    /** Hides the property; its children are hidden with it by the host's own traversal. */
    method MarkPropertyAndChildrenAsHandled(property: SerializedProperty)
      modifies this
      ensures handledProperties == old(handledProperties) + {property}
      ensures disabledProperties == old(disabledProperties)
      ensures handledMethods == old(handledMethods) && disabledMethods == old(disabledMethods)
    {
      handledProperties := handledProperties + {property};
    }

    method MarkPropertyAndChildrenDisabled(property: SerializedProperty)
      modifies this
      ensures disabledProperties == old(disabledProperties) + {property}
      ensures handledProperties == old(handledProperties)
      ensures handledMethods == old(handledMethods) && disabledMethods == old(disabledMethods)
    {
      disabledProperties := disabledProperties + {property};
    }

    method MarkMethodAsHandled(m: MethodInfo)
      modifies this
      ensures handledMethods == old(handledMethods) + {m}
      ensures disabledMethods == old(disabledMethods)
      ensures handledProperties == old(handledProperties) && disabledProperties == old(disabledProperties)
    {
      handledMethods := handledMethods + {m};
    }

    method MarkMethodDisabled(m: MethodInfo)
      modifies this
      ensures disabledMethods == old(disabledMethods) + {m}
      ensures handledMethods == old(handledMethods)
      ensures handledProperties == old(handledProperties) && disabledProperties == old(disabledProperties)
    {
      disabledMethods := disabledMethods + {m};
    }
  }
}
