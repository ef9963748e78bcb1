/**
 * The two null-safe comparisons both drawers test a source value with:
 * `!source?.Equals(expected) ?? false` and `source?.Equals(expected) ?? false`.
 * They are written out step by step (null-conditional call, lifted `!`,
 * `?? false`) so that their meaning is a proved contract, not an assumption.
 */
module Conditions {
  import opened Wrappers

  /**
   * `source?.Equals(expected)`: null when the source is null; otherwise
   * `object.Equals`, which is false against null and otherwise compares values.
   */
  function NullConditionalEquals<V(==)>(source: Option<V>, expected: Option<V>): Option<bool>
  {
    match source
    case None => None
    case Some(s) => Some(expected == Some(s))
  }

  /** The lifted `!` on a `bool?`: null stays null. */
  function LiftedNot(b: Option<bool>): Option<bool>
  {
    match b
    case None => None
    case Some(x) => Some(!x)
  }

  /** `b ?? false`. */
  function OrFalse(b: Option<bool>): bool
  {
    match b
    case None => false
    case Some(x) => x
  }

  /** `!source?.Equals(expected) ?? false`: the test of `ShowIf` and `If` rules. */
  function Differs<V(==)>(source: Option<V>, expected: Option<V>): (b: bool)
    ensures b <==> source.Some? && expected != source
  {
    OrFalse(LiftedNot(NullConditionalEquals(source, expected)))
  }

  /** `source?.Equals(expected) ?? false`: the test of `ShowIfNot` and `IfNot` rules. */
  function Matches<V(==)>(source: Option<V>, expected: Option<V>): (b: bool)
    ensures b <==> source.Some? && expected == source
  {
    OrFalse(NullConditionalEquals(source, expected))
  }
}
