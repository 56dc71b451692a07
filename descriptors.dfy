/**
 * The runtime descriptor of a field, as the schema library serialises it:
 * the `type` tag, the `required` flag, an optional `defaultValue`, the
 * `minLength`/`maxLength` bounds, the ordered `properties` of an object, the
 * `items` of an array (only the first is ever read), the `anyOf` variants
 * of a union and the `data-depends-on` rules.
 */
module Descriptors {
  import opened Wrappers
  import opened Values
  import opened Conditions

  datatype Descriptor = Descriptor(
    tag: string,
    required: bool,
    /** `Undef` when the descriptor has no `defaultValue`. */
    defaultValue: Value,
    minLength: Option<int>,
    maxLength: Option<int>,
    properties: seq<(string, Descriptor)>,
    items: seq<Descriptor>,
    anyOf: Variants,
    /** `data-depends-on`; an absent list is the empty list. */
    dependsOn: seq<Rule>)

  /** `anyOf`, when the descriptor carries one. */
  datatype Variants = NoAnyOf | AnyOf(variants: seq<Descriptor>)

  /** A property name is declared at most once, as in any JavaScript object. */
  predicate UniqueNames(props: seq<(string, Descriptor)>)
  {
    forall i, j :: 0 <= i < j < |props| ==> props[i].0 != props[j].0
  }
}
