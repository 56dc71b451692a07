/**
 * The union input: which variant a value is shown under when the field is
 * first drawn, the value emitted when the user switches variant, and the
 * label of each option in the variant selector.
 */
module UnionEditor {
  import opened Wrappers
  import opened Text
  import opened Values
  import opened Foreign
  import opened Descriptors
  import opened Defaults

  /** `variant.type === 'object' && variant.properties` (a descriptor always carries its property list). */
  predicate IsObjectVariant(variant: Descriptor)
  {
    variant.tag == "object"
  }

  /** An object variant all of whose declared keys are among `valueKeys` (extra keys are allowed). */
  predicate Matches(variant: Descriptor, valueKeys: seq<string>)
  {
    IsObjectVariant(variant) &&
    forall i :: 0 <= i < |variant.properties| ==> variant.properties[i].0 in valueKeys
  }

  /** The first variant at or after `from` that matches, if any. */
  function FirstMatch(variants: seq<Descriptor>, valueKeys: seq<string>, from: nat): (r: Option<nat>)
    requires from <= |variants|
    ensures r.Some? ==> from <= r.value < |variants| && Matches(variants[r.value], valueKeys) &&
                        forall j :: from <= j < r.value ==> !Matches(variants[j], valueKeys)
    ensures r.None? ==> forall j :: from <= j < |variants| ==> !Matches(variants[j], valueKeys)
    decreases |variants| - from
  {
    if from == |variants| then None
    else if Matches(variants[from], valueKeys) then Some(from)
    else FirstMatch(variants, valueKeys, from + 1)
  }

  /**
   * `getInitialVariant`: a value that is not an object starts on the first
   * variant; an object starts on the first object variant whose keys it
   * has, and on the first variant when none fits.
   */
  function InitialVariant(anyOf: seq<Descriptor>, value: Value): (r: nat)
    ensures r == 0 || r < |anyOf|
    ensures !IsObjectLike(value) ==> r == 0
    ensures IsObjectLike(value) && (exists j :: 0 <= j < |anyOf| && Matches(anyOf[j], OwnKeys(value))) ==>
              r < |anyOf| && Matches(anyOf[r], OwnKeys(value)) &&
              forall j :: 0 <= j < r ==> !Matches(anyOf[j], OwnKeys(value))
    ensures (forall j :: 0 <= j < |anyOf| ==> !Matches(anyOf[j], OwnKeys(value))) ==> r == 0
  {
    if !Truthy(value) || !IsObjectLike(value) then 0
    else
      match FirstMatch(anyOf, OwnKeys(value), 0)
      case Some(i) => i
      case None => 0
  }

  /** `schema.defaultValue ?? null`. */
  function OrNull(v: Value): Value
  {
    if v.Undef? || v.Null? then Null else v
  }

  /** The fresh object built from the first `n` properties, each set to its default or null. */
  function FreshEntries(props: seq<(string, Descriptor)>, n: nat): (r: Entries)
    requires n <= |props|
    ensures UniqueNames(props) ==> Keys(r) == Keys(props[..n])
  {
    if n == 0 then []
    else
      var prev := FreshEntries(props, n - 1);
      var r := Put(prev, props[n - 1].0, OrNull(props[n - 1].1.defaultValue));
      assert UniqueNames(props) ==> Keys(r) == Keys(props[..n]) by {
        if UniqueNames(props) {
          PutNewName(prev, props, n, OrNull(props[n - 1].1.defaultValue));
        }
      }
      r
  }

  /** The value emitted on switching to `variant`. */
  function FreshValue(variant: Descriptor): Value
  {
    if IsObjectVariant(variant) then Obj(FreshEntries(variant.properties, |variant.properties|))
    else Null
  }

  /** `handleVariantChange(index)`: the new selection and the value passed to `onChange`. */
  method HandleVariantChange(anyOf: seq<Descriptor>, index: nat) returns (selected: nat, emitted: Value)
    requires index < |anyOf|
    ensures selected == index
    ensures emitted == FreshValue(anyOf[index])
  {
    selected := index;
    var variant := anyOf[index];
    if IsObjectVariant(variant) {
      var obj: Entries := [];
      var i := 0;
      while i < |variant.properties|
        invariant 0 <= i <= |variant.properties|
        invariant obj == FreshEntries(variant.properties, i)
      {
        var (key, schema) := variant.properties[i];
        obj := Put(obj, key, OrNull(schema.defaultValue));
        i := i + 1;
      }
      emitted := Obj(obj);
    } else {
      emitted := Null;
    }
  }

  /** `${key}: ${prop.type}` for each declared property, in order. */
  function PropertyTypes(props: seq<(string, Descriptor)>): (ts: seq<string>)
    ensures |ts| == |props|
    ensures forall i :: 0 <= i < |props| ==> ts[i] == props[i].0 + ": " + props[i].1.tag
  {
    seq(|props|, i requires 0 <= i < |props| => props[i].0 + ": " + props[i].1.tag)
  }

  /** `getVariantLabel(variant, index)`: "Option n", followed by the property types of an object variant. */
  function VariantLabel(variant: Descriptor, index: nat): (shown: string)
    ensures "Option " + NatToString(index + 1) <= shown
  {
    "Option " + NatToString(index + 1) +
    (if IsObjectVariant(variant) then " (" + Join(PropertyTypes(variant.properties), ", ") + ")" else "")
  }

  // ---------------------------------------------------------------------
  // Properties

  /** The longest run of digits at the start of `s`. */
  function DigitRun(s: string): (run: string)
    ensures run <= s
  {
    if s == [] || !IsDigit(s[0]) then [] else [s[0]] + DigitRun(s[1..])
  }

  /** Digits followed by nothing or by a non-digit: the run read back is exactly those digits. */
  lemma {:induction false} DigitRunOf(n: string, r: string)
    requires forall i :: 0 <= i < |n| ==> IsDigit(n[i])
    requires r == [] || !IsDigit(r[0])
    ensures DigitRun(n + r) == n
  {
    if n == [] {
      assert n + r == r;
    } else {
      assert (n + r)[1..] == n[1..] + r;
      DigitRunOf(n[1..], r);
    }
  }

  /** After "Option " a label starts with exactly the digits of the option's number. */
  lemma LabelDigits(variant: Descriptor, index: nat)
    ensures |VariantLabel(variant, index)| >= 7
    ensures DigitRun(VariantLabel(variant, index)[7..]) == NatToString(index + 1)
  {
    var n := NatToString(index + 1);
    var r := if IsObjectVariant(variant) then " (" + Join(PropertyTypes(variant.properties), ", ") + ")" else "";
    assert r == [] || r[0] == ' ';
    var l := VariantLabel(variant, index);
    assert l == "Option " + n + r;
    assert l[7..] == n + r;
    NatToStringCanonical(index + 1);
    DigitRunOf(n, r);
  }

  /** Different options never share a label, whatever the variants hold. */
  lemma LabelsIdentifyTheOption(a: Descriptor, i: nat, b: Descriptor, j: nat)
    requires VariantLabel(a, i) == VariantLabel(b, j)
    ensures i == j
  {
    LabelDigits(a, i);
    LabelDigits(b, j);
    NatToStringInjective(i + 1, j + 1);
  }

  /** Each declared key of the fresh value holds the property's default, or null when it has none. */
  lemma {:induction false} FreshLookup(props: seq<(string, Descriptor)>, n: nat, i: nat)
    requires UniqueNames(props) && i < n <= |props|
    ensures Lookup(FreshEntries(props, n), props[i].0) == OrNull(props[i].1.defaultValue)
  {
    var prev := FreshEntries(props, n - 1);
    PutLookup(prev, props[n - 1].0, OrNull(props[n - 1].1.defaultValue), props[i].0);
    if i < n - 1 {
      FreshLookup(props, n - 1, i);
    }
  }

  /** The value emitted for an object variant holds exactly its declared keys, in order, and no other value is emitted for it. */
  lemma FreshValueShape(variant: Descriptor, i: nat)
    requires UniqueNames(variant.properties) && i < |variant.properties|
    ensures IsObjectVariant(variant) ==>
              FreshValue(variant).Obj? &&
              OwnKeys(FreshValue(variant)) == Keys(variant.properties) &&
              Member(FreshValue(variant), variant.properties[i].0) == OrNull(variant.properties[i].1.defaultValue)
    ensures !IsObjectVariant(variant) ==> FreshValue(variant) == Null
  {
    var props := variant.properties;
    assert props[..|props|] == props;
    FreshLookup(props, |props|, i);
  }

  /**
   * Switching to an object variant and drawing the field again selects the
   * same variant, unless an earlier variant's keys are all among its keys.
   */
  lemma SwitchIsDetected(anyOf: seq<Descriptor>, index: nat)
    requires index < |anyOf| && IsObjectVariant(anyOf[index]) && UniqueNames(anyOf[index].properties)
    requires forall j :: 0 <= j < index ==> !Matches(anyOf[j], Keys(anyOf[index].properties))
    ensures InitialVariant(anyOf, FreshValue(anyOf[index])) == index
  {
    var props := anyOf[index].properties;
    var v := FreshValue(anyOf[index]);
    assert props[..|props|] == props;
    assert OwnKeys(v) == Keys(props);
    assert Matches(anyOf[index], OwnKeys(v));
  }

  /** An object variant with no declared properties captures every object, so no later variant is ever detected. */
  lemma EmptyVariantCapturesObjects(anyOf: seq<Descriptor>, k: nat, value: Value)
    requires k < |anyOf| && IsObjectVariant(anyOf[k]) && anyOf[k].properties == []
    requires IsObjectLike(value)
    ensures InitialVariant(anyOf, value) <= k
  {
    assert Matches(anyOf[k], OwnKeys(value));
  }

  /**
   * For a variant without visibility rules whose properties are leaves
   * without visibility rules, switching to it emits the same value as
   * `getDefaultValue` gives the variant.
   */
  lemma FlatVariantMatchesDefault(variant: Descriptor, ctx: Value, host: Host)
    requires IsObjectVariant(variant) && variant.dependsOn == []
    requires forall i :: 0 <= i < |variant.properties| ==>
               variant.properties[i].1.tag != "object" && variant.properties[i].1.tag != "array" &&
               variant.properties[i].1.dependsOn == []
    ensures FreshValue(variant) == DefaultOf(variant, ctx, host)
  {
    FlatPropsMatchDefault(variant, |variant.properties|, host);
  }

  lemma {:induction false} FlatPropsMatchDefault(variant: Descriptor, n: nat, host: Host)
    requires n <= |variant.properties|
    requires forall i :: 0 <= i < |variant.properties| ==>
               variant.properties[i].1.tag != "object" && variant.properties[i].1.tag != "array" &&
               variant.properties[i].1.dependsOn == []
    ensures FreshEntries(variant.properties, n) == PropsDefault(variant, n, host)
  {
    if n > 0 {
      FlatPropsMatchDefault(variant, n - 1, host);
      var prop := variant.properties[n - 1].1;
      assert DefaultOf(prop, Obj(PropsDefault(variant, n - 1, host)), host) == OrNull(prop.defaultValue);
    }
  }
}
