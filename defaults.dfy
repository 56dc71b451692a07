/**
 * `getDefaultValue(schema, formValues = {})`: the initial value of a field.
 * A hidden field has no value; an object is filled property by property,
 * each one seeing only the siblings already filled; an array starts empty;
 * a leaf takes its `defaultValue`, or null.
 */
module Defaults {
  import opened Wrappers
  import opened Values
  import opened Foreign
  import opened Conditions
  import opened Descriptors

  /** The default of `d` when its visibility is judged against `ctx`. */
  function DefaultOf(d: Descriptor, ctx: Value, host: Host): Value
    decreases d, 1, 0
  {
    if !Active(d.dependsOn, ctx, host) then Undef
    else if d.tag == "object" then Obj(PropsDefault(d, |d.properties|, host))
    else if d.tag == "array" then Arr([])
    else if d.defaultValue.Undef? then Null
    else d.defaultValue
  }

  /** The default is undefined exactly when the node's own rules fail against the values passed in. */
  lemma UndefinedExactlyWhenHidden(d: Descriptor, ctx: Value, host: Host)
    ensures DefaultOf(d, ctx, host).Undef? <==> !Active(d.dependsOn, ctx, host)
  {
  }

  /**
   * The object built from the first `n` properties of `owner`: each is
   * assigned in declaration order, judged against the object built so far.
   */
  function PropsDefault(owner: Descriptor, n: nat, host: Host): Entries
    requires n <= |owner.properties|
    decreases owner, 0, n
  {
    if n == 0 then []
    else
      var prev := PropsDefault(owner, n - 1, host);
      var (key, prop) := owner.properties[n - 1];
      Put(prev, key, DefaultOf(prop, Obj(prev), host))
  }

  /** With unique names, the object built so far has the first `n` declared names as keys, in order. */
  lemma {:induction false} PropsDefaultKeys(owner: Descriptor, n: nat, host: Host)
    requires n <= |owner.properties| && UniqueNames(owner.properties)
    ensures Keys(PropsDefault(owner, n, host)) == Keys(owner.properties[..n])
    ensures |PropsDefault(owner, n, host)| == n
  {
    if n > 0 {
      var prev := PropsDefault(owner, n - 1, host);
      PropsDefaultKeys(owner, n - 1, host);
      PutNewName(prev, owner.properties, n, DefaultOf(owner.properties[n - 1].1, Obj(prev), host));
    } else {
      assert Keys(PropsDefault(owner, n, host)) == [];
    }
  }

  /** Appending the next declared name to an object holding exactly the earlier names. */
  lemma PutNewName(prev: Entries, props: seq<(string, Descriptor)>, n: nat, v: Value)
    requires 0 < n <= |props| && UniqueNames(props)
    requires Keys(prev) == Keys(props[..n - 1])
    ensures Put(prev, props[n - 1].0, v) == prev + [(props[n - 1].0, v)]
    ensures Keys(Put(prev, props[n - 1].0, v)) == Keys(props[..n])
  {
    var key := props[n - 1].0;
    assert !HasKey(prev, key) by {
      forall i | 0 <= i < |prev| ensures prev[i].0 != key {
        assert Keys(prev)[i] == props[i].0;
      }
    }
    PutAppend(prev, key, v);
    assert Keys(props[..n]) == Keys(props[..n - 1]) + [key];
  }

  /** The top-level call: visibility judged against the empty map. */
  function InitialValue(d: Descriptor, host: Host): Value
  {
    DefaultOf(d, Obj([]), host)
  }

  /** `getDefaultValue`, with the object case filling a map in a loop as the source does. */
  method GetDefaultValue(d: Descriptor, ctx: Value, host: Host) returns (r: Value)
    ensures r == DefaultOf(d, ctx, host)
    decreases d, 1
  {
    if !Active(d.dependsOn, ctx, host) {
      return Undef;
    }
    if d.tag == "object" {
      var obj := FillObject(d, host);
      r := Obj(obj);
    } else if d.tag == "array" {
      r := Arr([]);
    } else {
      r := if d.defaultValue.Undef? then Null else d.defaultValue;
    }
  }

  /** The `forEach` over the declared properties, each judged against the map filled so far. */
  method FillObject(d: Descriptor, host: Host) returns (obj: Entries)
    ensures obj == PropsDefault(d, |d.properties|, host)
    decreases d, 0
  {
    obj := [];
    var i := 0;
    while i < |d.properties|
      invariant 0 <= i <= |d.properties|
      invariant obj == PropsDefault(d, i, host)
    {
      var (key, prop) := d.properties[i];
      var v := GetDefaultValue(prop, Obj(obj), host);
      obj := Put(obj, key, v);
      i := i + 1;
    }
  }

  /** A visible array starts empty, whatever its items. */
  lemma ArrayStartsEmpty(d: Descriptor, ctx: Value, host: Host)
    requires d.tag == "array" && Active(d.dependsOn, ctx, host)
    ensures DefaultOf(d, ctx, host) == Arr([])
  {
  }

  /** A visible leaf starts at its `defaultValue`, or null when it has none; never undefined. */
  lemma LeafDefault(d: Descriptor, ctx: Value, host: Host)
    requires d.tag != "object" && d.tag != "array" && Active(d.dependsOn, ctx, host)
    ensures d.defaultValue.Undef? ==> DefaultOf(d, ctx, host) == Null
    ensures !d.defaultValue.Undef? ==> DefaultOf(d, ctx, host) == d.defaultValue
  {
  }

  /**
   * Every declared property gets a key, hidden ones included, so a visible
   * object's default has exactly the declared names as keys.
   */
  lemma ObjectDefaultKeys(d: Descriptor, ctx: Value, host: Host)
    requires d.tag == "object" && Active(d.dependsOn, ctx, host) && UniqueNames(d.properties)
    ensures DefaultOf(d, ctx, host).Obj?
    ensures Keys(DefaultOf(d, ctx, host).entries) == Keys(d.properties)
  {
    PropsDefaultKeys(d, |d.properties|, host);
    assert d.properties[..|d.properties|] == d.properties;
  }

  /** With unique names, each property appends exactly one entry. */
  lemma PropsDefaultStep(owner: Descriptor, n: nat, host: Host)
    requires 0 < n <= |owner.properties| && UniqueNames(owner.properties)
    ensures PropsDefault(owner, n, host) ==
              PropsDefault(owner, n - 1, host) +
              [(owner.properties[n - 1].0,
                DefaultOf(owner.properties[n - 1].1, Obj(PropsDefault(owner, n - 1, host)), host))]
  {
    var prev := PropsDefault(owner, n - 1, host);
    PropsDefaultKeys(owner, n - 1, host);
    PutNewName(prev, owner.properties, n, DefaultOf(owner.properties[n - 1].1, Obj(prev), host));
  }

  /** Later properties never overwrite earlier ones: the object built so far stays a prefix. */
  lemma {:induction false} PropsDefaultPrefix(owner: Descriptor, m: nat, n: nat, host: Host)
    requires m <= n <= |owner.properties| && UniqueNames(owner.properties)
    ensures |PropsDefault(owner, n, host)| == n
    ensures PropsDefault(owner, m, host) == PropsDefault(owner, n, host)[..m]
    decreases n
  {
    var cur := PropsDefault(owner, n, host);
    PropsDefaultKeys(owner, n, host);
    if m < n {
      PropsDefaultDrop(owner, n, host);
      PropsDefaultPrefix(owner, m, n - 1, host);
      assert cur[..m] == cur[..n - 1][..m];
    }
  }

  /** Dropping the last entry gives the object built from one property fewer. */
  lemma PropsDefaultDrop(owner: Descriptor, n: nat, host: Host)
    requires 0 < n <= |owner.properties| && UniqueNames(owner.properties)
    ensures |PropsDefault(owner, n, host)| == n
    ensures PropsDefault(owner, n, host)[..n - 1] == PropsDefault(owner, n - 1, host)
  {
    var prev := PropsDefault(owner, n - 1, host);
    var cur := PropsDefault(owner, n, host);
    PropsDefaultStep(owner, n, host);
    PropsDefaultSize(owner, n - 1, host);
    assert cur[..n - 1] == prev;
  }

  lemma PropsDefaultSize(owner: Descriptor, n: nat, host: Host)
    requires n <= |owner.properties| && UniqueNames(owner.properties)
    ensures |PropsDefault(owner, n, host)| == n
  {
    PropsDefaultKeys(owner, n, host);
  }

  /**
   * Property `i` holds the default of its descriptor judged against the
   * object made of the properties before it, and nothing else.
   */
  lemma PropertyDefault(owner: Descriptor, i: nat, host: Host)
    requires i < |owner.properties| && UniqueNames(owner.properties)
    ensures |PropsDefault(owner, |owner.properties|, host)| == |owner.properties|
    ensures PropsDefault(owner, |owner.properties|, host)[i] ==
              (owner.properties[i].0,
               DefaultOf(owner.properties[i].1, Obj(PropsDefault(owner, i, host)), host))
  {
    var full := PropsDefault(owner, |owner.properties|, host);
    var upto := PropsDefault(owner, i + 1, host);
    var before := PropsDefault(owner, i, host);
    var entry := (owner.properties[i].0, DefaultOf(owner.properties[i].1, Obj(before), host));
    PropsDefaultPrefix(owner, i + 1, |owner.properties|, host);
    PropsDefaultPrefix(owner, i, i, host);
    PropsDefaultStep(owner, i + 1, host);
    assert upto == before + [entry];
    assert full[i] == upto[i] == entry;
  }

  /** Reading property `i` back from the object's default gives that property's default. */
  lemma ReadPropertyDefault(owner: Descriptor, i: nat, host: Host)
    requires i < |owner.properties| && UniqueNames(owner.properties)
    ensures Member(Obj(PropsDefault(owner, |owner.properties|, host)), owner.properties[i].0) ==
              DefaultOf(owner.properties[i].1, Obj(PropsDefault(owner, i, host)), host)
  {
    var n := |owner.properties|;
    var es := PropsDefault(owner, n, host);
    var key := owner.properties[i].0;
    PropertyDefault(owner, i, host);
    DefaultKeysUnique(owner, host);
    LookupFound(es, key);
    assert es[i].0 == key;
    assert Member(Obj(es), key) == Lookup(es, key) == es[i].1;
  }

  /** The object's default holds each declared name once. */
  lemma DefaultKeysUnique(owner: Descriptor, host: Host)
    requires UniqueNames(owner.properties)
    ensures UniqueKeys(PropsDefault(owner, |owner.properties|, host))
  {
    var n := |owner.properties|;
    var es := PropsDefault(owner, n, host);
    PropsDefaultKeys(owner, n, host);
    assert owner.properties[..n] == owner.properties;
    forall a, b | 0 <= a < b < |es| ensures es[a].0 != es[b].0 {
      assert Keys(es)[a] == owner.properties[a].0 && Keys(es)[b] == owner.properties[b].0;
    }
  }

  /** A hidden property is assigned undefined: its key is present and its value absent. */
  lemma HiddenPropertyIsUndefined(owner: Descriptor, i: nat, host: Host)
    requires i < |owner.properties| && UniqueNames(owner.properties)
    requires !Active(owner.properties[i].1.dependsOn, Obj(PropsDefault(owner, i, host)), host)
    ensures |PropsDefault(owner, |owner.properties|, host)| == |owner.properties|
    ensures PropsDefault(owner, |owner.properties|, host)[i] == (owner.properties[i].0, Undef)
  {
    PropertyDefault(owner, i, host);
  }

  /**
   * The values passed in only decide whether the node itself is visible: a
   * visible node's default is the same whatever those values are, because
   * its properties are judged against their own siblings.
   */
  lemma ContextOnlyGatesTheNode(d: Descriptor, a: Value, b: Value, host: Host)
    requires Active(d.dependsOn, a, host) && Active(d.dependsOn, b, host)
    ensures DefaultOf(d, a, host) == DefaultOf(d, b, host)
  {
  }
}
