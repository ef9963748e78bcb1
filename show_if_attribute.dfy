/**
 * The `ShowIf` and `ShowIfNot` attribute records and the `Visibility` enum
 * (Runtime/ShowIfAttribute.cs). Both records are immutable once built: their
 * properties have private setters that only the constructors assign, which a
 * datatype value captures directly.
 */
module ShowIfAttributes {
  import opened Wrappers

  /**
   * The effect a satisfied rule has on its member. The C# enum is backed by an
   * int, so a cast such as `(Visibility)2` is also a legal attribute argument;
   * `Undeclared` stands for every such value outside the two declared members.
   */
  datatype Visibility = Hide | Disable | Undeclared

  /** The value of an enum-typed property no one assigned: the first member. */
  const DefaultVisibility: Visibility := Hide

  /** A rule that applies its effect when the source field differs from a listed value. */
  datatype ShowIfAttribute<V> =
    ShowIfAttribute(visibility: Visibility, fieldName: string, fieldValues: seq<Option<V>>)

  /** A rule that applies its effect when the source field equals a listed value. */
  datatype ShowIfNotAttribute<V> =
    ShowIfNotAttribute(visibility: Visibility, fieldName: string, fieldValues: seq<Option<V>>)

  /**
   * `new ShowIfAttribute(fieldName, params fieldValues)`: the visibility is left
   * unassigned and so stays `Hide`. No argument is checked; the list may be
   * empty and may hold null values.
   */
  function NewShowIf<V>(fieldName: string, fieldValues: seq<Option<V>>): (a: ShowIfAttribute<V>)
    ensures a.visibility == DefaultVisibility == Hide
    ensures a.fieldName == fieldName && a.fieldValues == fieldValues
    ensures a == NewShowIfWithVisibility(DefaultVisibility, fieldName, fieldValues)
  {
    ShowIfAttribute(DefaultVisibility, fieldName, fieldValues)
  }

  /** `new ShowIfAttribute(visibility, fieldName, params fieldValues)`. */
  function NewShowIfWithVisibility<V>(visibility: Visibility, fieldName: string, fieldValues: seq<Option<V>>)
    : (a: ShowIfAttribute<V>)
    ensures a.visibility == visibility
    ensures a.fieldName == fieldName && a.fieldValues == fieldValues
  {
    ShowIfAttribute(visibility, fieldName, fieldValues)
  }

  /** `new ShowIfNotAttribute(fieldName, params fieldValues)`: visibility stays `Hide`. */
  function NewShowIfNot<V>(fieldName: string, fieldValues: seq<Option<V>>): (a: ShowIfNotAttribute<V>)
    ensures a.visibility == DefaultVisibility == Hide
    ensures a.fieldName == fieldName && a.fieldValues == fieldValues
    ensures a == NewShowIfNotWithVisibility(DefaultVisibility, fieldName, fieldValues)
  {
    ShowIfNotAttribute(DefaultVisibility, fieldName, fieldValues)
  }

  /** `new ShowIfNotAttribute(visibility, fieldName, params fieldValues)`. */
  function NewShowIfNotWithVisibility<V>(visibility: Visibility, fieldName: string, fieldValues: seq<Option<V>>)
    : (a: ShowIfNotAttribute<V>)
    ensures a.visibility == visibility
    ensures a.fieldName == fieldName && a.fieldValues == fieldValues
  {
    ShowIfNotAttribute(visibility, fieldName, fieldValues)
  }

  /** Both record kinds are built the same way from the same arguments. */
  lemma ShowIfNotMirrorsShowIf<V>(visibility: Visibility, fieldName: string, fieldValues: seq<Option<V>>)
    ensures var a, b := NewShowIfWithVisibility(visibility, fieldName, fieldValues),
                        NewShowIfNotWithVisibility(visibility, fieldName, fieldValues);
            a.visibility == b.visibility && a.fieldName == b.fieldName && a.fieldValues == b.fieldValues
    ensures var a, b := NewShowIf(fieldName, fieldValues), NewShowIfNot(fieldName, fieldValues);
            a.visibility == b.visibility && a.fieldName == b.fieldName && a.fieldValues == b.fieldValues
  {
  }
}
