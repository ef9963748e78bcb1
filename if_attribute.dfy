/** The single-value `If` attribute (Runtime/IfAttribute.cs): two readonly fields set once. */
module IfAttributes {
  import opened Wrappers

  datatype IfAttribute<V> = IfAttribute(fieldName: string, fieldValue: Option<V>)

  /** `new IfAttribute(fieldName, fieldValue)`: any name and any value, null included, is stored as given. */
  function NewIf<V>(fieldName: string, fieldValue: Option<V>): (a: IfAttribute<V>)
    ensures a.fieldName == fieldName
    ensures a.fieldValue == fieldValue
  {
    IfAttribute(fieldName, fieldValue)
  }

  /** Every `If` record is the one its constructor builds from its own fields. */
  lemma IfRoundTrip<V>(a: IfAttribute<V>)
    ensures NewIf(a.fieldName, a.fieldValue) == a
  {
  }
}
