/**
 * How the two halves of the engine fit together: the values a form starts
 * with (`getDefaultValue` of the root) pass the structural validator
 * whenever the schema does not ask for more than defaults can give.
 */
module InitialForm {
  import opened Wrappers
  import opened Values
  import opened Foreign
  import opened Conditions
  import opened Descriptors
  import opened Defaults
  import opened FormValidator

  /** The bounds of `d` admit a count of `count` keys or elements. */
  predicate Within(d: Descriptor, count: int)
  {
    (d.minLength.None? || d.minLength.value <= count) &&
    (d.maxLength.None? || count <= d.maxLength.value)
  }

  /**
   * A descriptor whose defaults satisfy it: no visibility rules, bounds that
   * admit the default's size, no required union or json, and a required leaf
   * only where its `defaultValue` is filled in.
   */
  predicate Lenient(d: Descriptor)
    decreases d, 1, 0
  {
    d.dependsOn == [] &&
    if d.tag == "object" then
      UniqueNames(d.properties) && Within(d, |d.properties|) && AllLenient(d, |d.properties|)
    else if d.tag == "array" then Within(d, 0)
    else if d.tag == "union" then !d.required
    else if d.tag == "any" || d.tag == "unknown" then true
    else if d.tag == "json" then
      !d.required && (d.defaultValue.Undef? || d.defaultValue.Null? || d.defaultValue == Str(""))
    else if d.tag == "boolean" then d.required ==> !(d.defaultValue.Undef? || d.defaultValue.Null?)
    else d.required ==> !(d.defaultValue.Undef? || d.defaultValue.Null? || d.defaultValue == Str(""))
  }

  predicate AllLenient(owner: Descriptor, n: nat)
    requires n <= |owner.properties|
    decreases owner, 0, n
  {
    n == 0 || (AllLenient(owner, n - 1) && Lenient(owner.properties[n - 1].1))
  }

  /** The default of a lenient descriptor reports no errors, wherever it sits and whatever the form holds. */
  lemma {:induction false} DefaultIsClean(d: Descriptor, ctx: Value, key: string, parent: string, form: Value, host: Host)
    requires Lenient(d)
    ensures FieldErrors(d, key, DefaultOf(d, ctx, host), parent, form, host) == []
    decreases d, 2
  {
    if d.tag == "object" {
      ObjectDefaultIsClean(d, key, parent, form, host);
    }
  }

  /** The default object of a lenient object descriptor: right size, and every property clean. */
  lemma {:induction false} ObjectDefaultIsClean(d: Descriptor, key: string, parent: string, form: Value, host: Host)
    requires d.tag == "object" && Lenient(d)
    ensures FieldErrors(d, key, Obj(PropsDefault(d, |d.properties|, host)), parent, form, host) == []
    decreases d, 1
  {
    var n := |d.properties|;
    PropsDefaultKeys(d, n, host);
    assert d.properties[..n] == d.properties;
    PropsClean(d, n, FullPath(parent, key), form, host);
  }

  /** The first `k` properties of a lenient object report nothing on the object's own default. */
  lemma {:induction false} PropsClean(owner: Descriptor, k: nat, path: string, form: Value, host: Host)
    requires k <= |owner.properties| && UniqueNames(owner.properties) && AllLenient(owner, k)
    ensures PropsErrors(owner, k, Obj(PropsDefault(owner, |owner.properties|, host)), path, form, host) == []
    decreases owner, 0, k
  {
    if k > 0 {
      var i := k - 1;
      var name := owner.properties[i].0;
      var prop := owner.properties[i].1;
      var v := Obj(PropsDefault(owner, |owner.properties|, host));
      assert AllLenient(owner, i) && Lenient(prop);
      PropsClean(owner, i, path, form, host);
      ReadPropertyDefault(owner, i, host);
      DefaultIsClean(prop, Obj(PropsDefault(owner, i, host)), name, path, form, host);
      assert PropErrors(owner, i, v, path, form, host) == FieldErrors(prop, name, Member(v, name), path, form, host);
      assert PropsErrors(owner, k, v, path, form, host) ==
             PropsErrors(owner, i, v, path, form, host) + PropErrors(owner, i, v, path, form, host);
    }
  }

  /**
   * A form started from the defaults of a lenient root object has no
   * structural errors, so it is valid exactly when the schema library
   * reports nothing.
   */
  lemma InitialFormIsClean(schema: Descriptor, host: Host, parseErrors: seq<ParseError>)
    requires schema.tag == "object" && Lenient(schema)
    ensures PropsErrors(schema, |schema.properties|, InitialValue(schema, host), "",
                        InitialValue(schema, host), host) == []
    ensures FormMessages(InitialValue(schema, host), schema, host, parseErrors) == [] <==> parseErrors == []
  {
    PropsClean(schema, |schema.properties|, "", InitialValue(schema, host), host);
  }
}
