/**
 * The typed schema language of the `form` package: six kinds of input, the
 * value type each schema stands for (`InferedInput`) and the shape of a
 * validation result.
 */
module FormTypes {
  import opened Wrappers
  import opened Values
  import opened Foreign

  /**
   * `Input`, a closed sum of six kinds. `textOptions` and `numberOptions`
   * are the `options` lists that the evaluator reads on strings and numbers;
   * dates and their bounds are milliseconds since the epoch.
   */
  datatype Input =
    | StringInput(defaultText: Option<string>, minLength: Option<int>, maxLength: Option<int>,
                  pattern: Option<Matcher>, textOptions: Option<seq<string>>, required: bool)
    | NumberInput(defaultNumber: Option<int>, min: Option<int>, max: Option<int>,
                  numberOptions: Option<seq<int>>, required: bool)
    | BooleanInput(defaultFlag: Option<bool>, required: bool)
    | DateInput(defaultDate: Option<int>, min: Option<int>, max: Option<int>, required: bool)
    | ArrayInput(items: Input, minLength: Option<int>, maxLength: Option<int>, required: bool)
    | ObjectInput(properties: seq<(string, Input)>, required: bool)

  /** `RequiredKeys<P>`: the names of the properties marked `required: true`, in order. */
  function RequiredKeys(props: seq<(string, Input)>): (ks: seq<string>)
    ensures forall k :: k in ks <==> exists i :: 0 <= i < |props| && props[i].0 == k && props[i].1.required
  {
    if props == [] then []
    else (if props[0].1.required then [props[0].0] else []) + RequiredKeys(props[1..])
  }

  /** `OptionalKeys<P>`: the names of all the other properties, in order. */
  function OptionalKeys(props: seq<(string, Input)>): (ks: seq<string>)
    ensures forall k :: k in ks <==> exists i :: 0 <= i < |props| && props[i].0 == k && !props[i].1.required
  {
    if props == [] then []
    else (if props[0].1.required then [] else [props[0].0]) + OptionalKeys(props[1..])
  }

  /** With each name declared once, every property is in exactly one of the two key sets. */
  lemma KeysPartition(props: seq<(string, Input)>, i: nat)
    requires i < |props|
    requires forall a, b :: 0 <= a < b < |props| ==> props[a].0 != props[b].0
    ensures props[i].0 in RequiredKeys(props) <==> props[i].1.required
    ensures props[i].0 in OptionalKeys(props) <==> !props[i].1.required
  {
  }

  /**
   * The run-time values of `InferedInput<s>`: the matching primitive, an
   * array of values of the item type, or a plain object whose required
   * keys hold values of their types and whose optional keys are missing or
   * hold values of their types.
   */
  predicate Inhabits(s: Input, v: Value)
    decreases s, 1, 0
  {
    match s
    case StringInput(_, _, _, _, _, _) => v.Str?
    case NumberInput(_, _, _, _, _) => v.Num?
    case BooleanInput(_, _) => v.Bool?
    case DateInput(_, _, _, _) => v.Date?
    case ArrayInput(items, _, _, _) => v.Arr? && forall i :: 0 <= i < |v.elems| ==> Inhabits(items, v.elems[i])
    case ObjectInput(props, _) => v.Obj? && PropsInhabit(s, |props|, v)
  }

  predicate PropsInhabit(owner: Input, n: nat, v: Value)
    requires owner.ObjectInput? && n <= |owner.properties|
    decreases owner, 0, n
  {
    n == 0 ||
    (PropsInhabit(owner, n - 1, v) &&
     var (key, prop) := owner.properties[n - 1];
     if prop.required then Inhabits(prop, Member(v, key))
     else Member(v, key).Undef? || Inhabits(prop, Member(v, key)))
  }

  /** `ValidationError`. */
  datatype ValidationError = ValidationError(path: string, message: string)

  /** `ValidationResult`: success with the data, or failure with the errors. */
  datatype ValidationResult = Success(data: Value) | Failure(errors: seq<ValidationError>)
}
