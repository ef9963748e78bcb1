/** The single-value `IfNot` attribute (Runtime/IfNotAttribute.cs): two readonly fields set once. */
module IfNotAttributes {
  import opened Wrappers

  datatype IfNotAttribute<V> = IfNotAttribute(fieldName: string, fieldValue: Option<V>)

  /** `new IfNotAttribute(fieldName, fieldValue)`: any name and any value, null included, is stored as given. */
  function NewIfNot<V>(fieldName: string, fieldValue: Option<V>): (a: IfNotAttribute<V>)
    ensures a.fieldName == fieldName
    ensures a.fieldValue == fieldValue
  {
    IfNotAttribute(fieldName, fieldValue)
  }

  /** Every `IfNot` record is the one its constructor builds from its own fields. */
  lemma IfNotRoundTrip<V>(a: IfNotAttribute<V>)
    ensures NewIfNot(a.fieldName, a.fieldValue) == a
  {
  }
}
