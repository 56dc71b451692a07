/**
 * `validateForm(formValues, schema)`: the structural pass over the
 * serialised descriptor. `validateField` walks the descriptor and the value
 * side by side and pushes messages into one shared list; a union tries its
 * object variants in order and rolls the list back after each variant that
 * added errors. The schema library's own `safeParse` errors are appended
 * after the structural pass.
 */
module FormValidator {
  import opened Wrappers
  import opened Text
  import opened Values
  import opened Foreign
  import opened Conditions
  import opened Descriptors

  /** What is wrong at a path; `Message` gives the text the source pushes. */
  datatype Problem =
    | IsRequired
    | TooFewProperties(min: int)
    | TooManyProperties(max: int)
    | TooFewItems(min: int)
    | TooManyItems(max: int)
    | NoVariantMatches
    | InvalidJson

  datatype Issue = Issue(path: string, problem: Problem)

  function Message(e: Issue): string
  {
    e.path +
    match e.problem
    case IsRequired => " is required"
    case TooFewProperties(n) => " must have at least " + IntToString(n) + " properties"
    case TooManyProperties(n) => " must have at most " + IntToString(n) + " properties"
    case TooFewItems(n) => " must have at least " + IntToString(n) + " items"
    case TooManyItems(n) => " must have at most " + IntToString(n) + " items"
    case NoVariantMatches => " must match one of the union types"
    case InvalidJson => " must be valid JSON"
  }

  /** `parentPath ? `${parentPath}.${fieldKey}` : fieldKey`. */
  function FullPath(parent: string, key: string): (p: string)
    ensures parent <= p
  {
    if parent == "" then key else parent + "." + key
  }

  /** The `minLength`/`maxLength` checks on a count of keys or of elements. */
  function CountErrors(path: string, count: int, d: Descriptor, items: bool): (r: seq<Issue>)
    ensures |r| <= 2
    ensures forall e :: e in r ==> e.path == path
    ensures r == [] <==>
              (d.minLength.None? || count >= d.minLength.value) && (d.maxLength.None? || count <= d.maxLength.value)
    ensures forall m :: Issue(path, TooFewProperties(m)) in r <==> !items && d.minLength == Some(m) && count < m
    ensures forall m :: Issue(path, TooManyProperties(m)) in r <==> !items && d.maxLength == Some(m) && count > m
    ensures forall m :: Issue(path, TooFewItems(m)) in r <==> items && d.minLength == Some(m) && count < m
    ensures forall m :: Issue(path, TooManyItems(m)) in r <==> items && d.maxLength == Some(m) && count > m
  {
    (if d.minLength.Some? && count < d.minLength.value
     then [Issue(path, if items then TooFewItems(d.minLength.value) else TooFewProperties(d.minLength.value))]
     else []) +
    (if d.maxLength.Some? && count > d.maxLength.value
     then [Issue(path, if items then TooManyItems(d.maxLength.value) else TooManyProperties(d.maxLength.value))]
     else [])
  }

  /** The required check of an unrecognised (primitive) kind. */
  function PrimitiveErrors(d: Descriptor, path: string, value: Value): (r: seq<Issue>)
    ensures forall e :: e in r ==> e == Issue(path, IsRequired)
  {
    if !d.required then []
    else if d.tag == "boolean" then (if value.Undef? || value.Null? then [Issue(path, IsRequired)] else [])
    else if value.Undef? || value.Null? || value == Str("") then [Issue(path, IsRequired)]
    else []
  }

  /** The `json` kind: an empty value is only checked for presence, anything else must parse. */
  function JsonErrors(d: Descriptor, path: string, value: Value, host: Host): (r: seq<Issue>)
    ensures |r| <= 1
    ensures forall e :: e in r ==> e.path == path
  {
    if value.Undef? || value.Null? || value == Str("") then
      (if d.required then [Issue(path, IsRequired)] else [])
    else
      var raw := if value.Str? then value.s else host.stringify(value);
      if host.parses(raw) then [] else [Issue(path, InvalidJson)]
  }

  /**
   * The errors `validateField(key, d, value, parent)` pushes. Visibility is
   * always judged against the whole form, from its root.
   */
  function FieldErrors(d: Descriptor, key: string, value: Value, parent: string, form: Value, host: Host): (r: seq<Issue>)
    decreases d, 1, 0
  {
    var path := FullPath(parent, key);
    if !Active(d.dependsOn, form, host) then []
    else if d.tag == "object" then
      if IsMap(value) then
        CountErrors(path, |OwnKeys(value)|, d, false) + PropsErrors(d, |d.properties|, value, path, form, host)
      else if d.required then [Issue(path, IsRequired)]
      else []
    else if d.tag == "array" then
      if value.Arr? then
        CountErrors(path, |value.elems|, d, true) +
        (if d.items != [] then ItemsErrors(d, value.elems, |value.elems|, path, form, host) else [])
      else if d.required then [Issue(path, IsRequired)]
      else []
    else if d.tag == "union" then
      if d.anyOf.AnyOf? then UnionErrors(d, value, path, form, host)
      else if d.required then [Issue(path, IsRequired)]
      else []
    else if d.tag == "any" || d.tag == "unknown" then
      if d.required && value.Undef? then [Issue(path, IsRequired)] else []
    else if d.tag == "json" then JsonErrors(d, path, value, host)
    else PrimitiveErrors(d, path, value)
  }

  /** The errors of the first `n` declared properties of `owner`, read from `value`, in declaration order. */
  function PropsErrors(owner: Descriptor, n: nat, value: Value, path: string, form: Value, host: Host): (r: seq<Issue>)
    requires n <= |owner.properties|
    decreases owner, 0, n
  {
    if n == 0 then []
    else PropsErrors(owner, n - 1, value, path, form, host) + PropErrors(owner, n - 1, value, path, form, host)
  }

  /** The errors of declared property `i` of `owner`, read from `value` under its name. */
  function PropErrors(owner: Descriptor, i: nat, value: Value, path: string, form: Value, host: Host): (r: seq<Issue>)
    requires i < |owner.properties|
    decreases owner, 0, i
  {
    FieldErrors(owner.properties[i].1, owner.properties[i].0, Member(value, owner.properties[i].0), path, form, host)
  }

  /** The errors of the first `n` elements, each against `items[0]` under its index. */
  function ItemsErrors(owner: Descriptor, elems: seq<Value>, n: nat, path: string, form: Value, host: Host): (r: seq<Issue>)
    requires owner.items != [] && n <= |elems|
    decreases owner, 0, n
  {
    if n == 0 then []
    else
      ItemsErrors(owner, elems, n - 1, path, form, host) +
      FieldErrors(owner.items[0], NatToString(n - 1), elems[n - 1], path, form, host)
  }

  /** One more property: the list built so far followed by that property's errors. */
  lemma PropsErrorsStep(owner: Descriptor, i: nat, value: Value, path: string, form: Value, host: Host,
                        errors: seq<Issue>, before: seq<Issue>, after: seq<Issue>)
    requires i < |owner.properties|
    requires before == errors + PropsErrors(owner, i, value, path, form, host)
    requires after == before + PropErrors(owner, i, value, path, form, host)
    ensures after == errors + PropsErrors(owner, i + 1, value, path, form, host)
  {
    AppendAssoc(errors, PropsErrors(owner, i, value, path, form, host), PropErrors(owner, i, value, path, form, host));
  }

  /** One more element: the list built so far followed by that element's errors. */
  lemma ItemsErrorsStep(owner: Descriptor, elems: seq<Value>, i: nat, path: string, form: Value, host: Host,
                        errors: seq<Issue>, before: seq<Issue>, after: seq<Issue>)
    requires owner.items != [] && i < |elems|
    requires before == errors + ItemsErrors(owner, elems, i, path, form, host)
    requires after == before + FieldErrors(owner.items[0], NatToString(i), elems[i], path, form, host)
    ensures after == errors + ItemsErrors(owner, elems, i + 1, path, form, host)
  {
    AppendAssoc(errors, ItemsErrors(owner, elems, i, path, form, host),
                FieldErrors(owner.items[0], NatToString(i), elems[i], path, form, host));
  }

  /** An object variant that adds no errors for `value`. */
  predicate Accepts(variant: Descriptor, value: Value, path: string, form: Value, host: Host)
    decreases variant, 0, |variant.properties| + 1
  {
    variant.tag == "object" && PropsErrors(variant, |variant.properties|, value, path, form, host) == []
  }

  /** A union: nothing when some object variant accepts the value, otherwise one error if required. */
  function UnionErrors(d: Descriptor, value: Value, path: string, form: Value, host: Host): (r: seq<Issue>)
    requires d.anyOf.AnyOf?
    ensures forall e :: e in r ==> e == Issue(path, NoVariantMatches)
    decreases d, 0, 0
  {
    var vs := d.anyOf.variants;
    if exists i :: 0 <= i < |vs| && Accepts(vs[i], value, path, form, host) then []
    else if d.required then [Issue(path, NoVariantMatches)]
    else []
  }

  // ---------------------------------------------------------------------
  // The pass as the source runs it: one list, pushed to and rolled back

  /** `validateField`: appends this field's errors to `errors`. */
  method ValidateField(d: Descriptor, key: string, value: Value, parent: string, form: Value, host: Host,
                       errors: seq<Issue>) returns (errs: seq<Issue>)
    ensures errs == errors + FieldErrors(d, key, value, parent, form, host)
    decreases d, 2
  {
    var path := FullPath(parent, key);
    errs := errors;
    if !Active(d.dependsOn, form, host) {
      return;
    }
    if d.tag == "object" {
      if IsMap(value) {
        errs := ValidateMap(d, value, path, form, host, errs);
      } else if d.required {
        errs := errs + [Issue(path, IsRequired)];
      }
    } else if d.tag == "array" {
      if value.Arr? {
        errs := ValidateArray(d, value.elems, path, form, host, errs);
      } else if d.required {
        errs := errs + [Issue(path, IsRequired)];
      }
    } else if d.tag == "union" {
      if d.anyOf.AnyOf? {
        errs := ValidateUnion(d, value, path, form, host, errs);
      } else if d.required {
        errs := errs + [Issue(path, IsRequired)];
      }
    } else if d.tag == "any" || d.tag == "unknown" {
      if d.required && value.Undef? {
        errs := errs + [Issue(path, IsRequired)];
      }
    } else if d.tag == "json" {
      errs := errs + JsonErrors(d, path, value, host);
    } else {
      errs := errs + PrimitiveErrors(d, path, value);
    }
  }

  /** An object given a map: the key-count bounds, then every declared property. */
  method ValidateMap(d: Descriptor, value: Value, path: string, form: Value, host: Host,
                     errors: seq<Issue>) returns (errs: seq<Issue>)
    ensures errs == errors + (CountErrors(path, |OwnKeys(value)|, d, false) +
                              PropsErrors(d, |d.properties|, value, path, form, host))
    decreases d, 1
  {
    errs := errors + CountErrors(path, |OwnKeys(value)|, d, false);
    errs := ValidateProps(d, value, path, form, host, errs);
  }

  /** An array given an array: the length bounds, then every element against `items[0]`. */
  method ValidateArray(d: Descriptor, elems: seq<Value>, path: string, form: Value, host: Host,
                       errors: seq<Issue>) returns (errs: seq<Issue>)
    ensures errs == errors + (CountErrors(path, |elems|, d, true) +
                              (if d.items != [] then ItemsErrors(d, elems, |elems|, path, form, host) else []))
    decreases d, 1
  {
    errs := errors + CountErrors(path, |elems|, d, true);
    if d.items != [] {
      errs := ValidateItems(d, elems, path, form, host, errs);
    }
  }

  /** The `forEach` over the declared properties of an object (or of a union variant). */
  method ValidateProps(owner: Descriptor, value: Value, path: string, form: Value, host: Host,
                       errors: seq<Issue>) returns (errs: seq<Issue>)
    ensures errs == errors + PropsErrors(owner, |owner.properties|, value, path, form, host)
    decreases owner, 0
  {
    errs := errors;
    var i := 0;
    while i < |owner.properties|
      invariant 0 <= i <= |owner.properties|
      invariant errs == errors + PropsErrors(owner, i, value, path, form, host)
    {
      var key := owner.properties[i].0;
      ghost var before := errs;
      errs := ValidateField(owner.properties[i].1, key, Member(value, key), path, form, host, errs);
      PropsErrorsStep(owner, i, value, path, form, host, errors, before, errs);
      i := i + 1;
    }
  }

  /** The `forEach` over the elements of an array, each against `items[0]`. */
  method ValidateItems(owner: Descriptor, elems: seq<Value>, path: string, form: Value, host: Host,
                       errors: seq<Issue>) returns (errs: seq<Issue>)
    requires owner.items != []
    ensures errs == errors + ItemsErrors(owner, elems, |elems|, path, form, host)
    decreases owner, 0
  {
    errs := errors;
    var i := 0;
    while i < |elems|
      invariant 0 <= i <= |elems|
      invariant errs == errors + ItemsErrors(owner, elems, i, path, form, host)
    {
      ghost var before := errs;
      errs := ValidateField(owner.items[0], NatToString(i), elems[i], path, form, host, errs);
      ItemsErrorsStep(owner, elems, i, path, form, host, errors, before, errs);
      i := i + 1;
    }
  }

  /**
   * The union loop: each object variant is tried against the shared list;
   * the first that adds nothing wins, and the errors of a rejected variant
   * are spliced off again.
   */
  method ValidateUnion(d: Descriptor, value: Value, path: string, form: Value, host: Host,
                       errors: seq<Issue>) returns (errs: seq<Issue>)
    requires d.anyOf.AnyOf?
    ensures errs == errors + UnionErrors(d, value, path, form, host)
    decreases d, 1
  {
    var validAgainstAny;
    validAgainstAny, errs := TryVariants(d, value, path, form, host, errors);
    if !validAgainstAny {
      if d.required {
        errs := errs + [Issue(path, NoVariantMatches)];
      }
    }
  }

  /**
   * The loop over `anyOf`: each object variant validates its properties into
   * the shared list, which is cut back to its saved length when that variant
   * failed; the loop stops at the first variant that added nothing.
   */
  method TryVariants(d: Descriptor, value: Value, path: string, form: Value, host: Host,
                     errors: seq<Issue>) returns (validAgainstAny: bool, errs: seq<Issue>)
    requires d.anyOf.AnyOf?
    ensures errs == errors
    ensures validAgainstAny <==>
              exists i :: 0 <= i < |d.anyOf.variants| && Accepts(d.anyOf.variants[i], value, path, form, host)
    decreases d, 0
  {
    var vs := d.anyOf.variants;
    errs := errors;
    validAgainstAny := false;
    var i := 0;
    while i < |vs|
      invariant 0 <= i <= |vs|
      invariant errs == errors
      invariant forall j :: 0 <= j < i ==> !Accepts(vs[j], value, path, form, host)
    {
      var saved := |errs|;
      if vs[i].tag == "object" {
        errs := ValidateProps(vs[i], value, path, form, host, errs);
        if |errs| == saved {
          assert Accepts(vs[i], value, path, form, host);
          validAgainstAny := true;
          return;
        } else {
          errs := errs[..saved];
        }
      }
      i := i + 1;
    }
  }

  /** One error of the schema library: the path of keys and indices, and the text. */
  datatype ParseError = ParseError(path: seq<string>, message: string)

  function ParseMessage(err: ParseError): string
  {
    Join(err.path, ".") + ": " + err.message
  }

  datatype ValidationResult = ValidationResult(errors: seq<string>, isValid: bool)

  /** All the messages `validateForm` returns: the structural ones, then the library's. */
  function FormMessages(form: Value, schema: Descriptor, host: Host, parseErrors: seq<ParseError>): seq<string>
  {
    var issues := PropsErrors(schema, |schema.properties|, form, "", form, host);
    seq(|issues|, i requires 0 <= i < |issues| => Message(issues[i])) +
    seq(|parseErrors|, i requires 0 <= i < |parseErrors| => ParseMessage(parseErrors[i]))
  }

  /**
   * `validateForm`: every top-level property is validated under its own
   * key, then the errors of `schema.safeParse(formValues)` (given here as
   * `parseErrors`) are appended.
   */
  method ValidateForm(form: Value, schema: Descriptor, host: Host, parseErrors: seq<ParseError>)
    returns (result: ValidationResult)
    ensures result.errors == FormMessages(form, schema, host, parseErrors)
    ensures result.isValid <==> result.errors == []
    ensures result.isValid <==>
              PropsErrors(schema, |schema.properties|, form, "", form, host) == [] && parseErrors == []
  {
    var issues := ValidateProps(schema, form, "", form, host, []);
    var errors: seq<string> := [];
    var i := 0;
    while i < |issues|
      invariant 0 <= i <= |issues|
      invariant errors == seq(i, k requires 0 <= k < i => Message(issues[k]))
    {
      errors := errors + [Message(issues[i])];
      i := i + 1;
    }
    var j := 0;
    while j < |parseErrors|
      invariant 0 <= j <= |parseErrors|
      invariant errors == seq(|issues|, k requires 0 <= k < |issues| => Message(issues[k])) +
                          seq(j, k requires 0 <= k < j => ParseMessage(parseErrors[k]))
    {
      errors := errors + [ParseMessage(parseErrors[j])];
      j := j + 1;
    }
    result := ValidationResult(errors, |errors| == 0);
  }

  // ---------------------------------------------------------------------
  // Properties of the pass

  /** Every error a field reports is filed under the field's own path or below it. */
  lemma {:induction false} FieldPathsExtend(d: Descriptor, key: string, value: Value, parent: string, form: Value, host: Host)
    ensures forall e :: e in FieldErrors(d, key, value, parent, form, host) ==> FullPath(parent, key) <= e.path
    decreases d, 1, 0
  {
    var path := FullPath(parent, key);
    var errs := FieldErrors(d, key, value, parent, form, host);
    if !Active(d.dependsOn, form, host) {
      assert errs == [];
    } else if d.tag == "object" && IsMap(value) {
      var count := CountErrors(path, |OwnKeys(value)|, d, false);
      var props := PropsErrors(d, |d.properties|, value, path, form, host);
      assert errs == count + props;
      PropsPathsExtend(d, |d.properties|, value, path, form, host);
    } else if d.tag == "array" && value.Arr? {
      var count := CountErrors(path, |value.elems|, d, true);
      if d.items != [] {
        var items := ItemsErrors(d, value.elems, |value.elems|, path, form, host);
        assert errs == count + items;
        ItemsPathsExtend(d, value.elems, |value.elems|, path, form, host);
      } else {
        assert errs == count + [];
      }
    } else {
      ShallowErrorsAtField(d, key, value, parent, form, host);
    }
  }

  /** A field that is not entered (no map under an object, no array under an array) files its errors at itself. */
  lemma ShallowErrorsAtField(d: Descriptor, key: string, value: Value, parent: string, form: Value, host: Host)
    requires !(d.tag == "object" && IsMap(value)) && !(d.tag == "array" && value.Arr?)
    ensures forall e :: e in FieldErrors(d, key, value, parent, form, host) ==> e.path == FullPath(parent, key)
  {
    var path := FullPath(parent, key);
    var errs := FieldErrors(d, key, value, parent, form, host);
    if !Active(d.dependsOn, form, host) {
      assert errs == [];
    } else if d.tag == "object" || d.tag == "array" {
      assert errs == if d.required then [Issue(path, IsRequired)] else [];
    } else if d.tag == "union" {
      if d.anyOf.AnyOf? {
        assert errs == UnionErrors(d, value, path, form, host);
      } else {
        assert errs == if d.required then [Issue(path, IsRequired)] else [];
      }
    } else if d.tag == "any" || d.tag == "unknown" {
      assert errs == if d.required && value.Undef? then [Issue(path, IsRequired)] else [];
    } else if d.tag == "json" {
      assert errs == JsonErrors(d, path, value, host);
    } else {
      assert errs == PrimitiveErrors(d, path, value);
    }
  }

  lemma {:induction false} PropsPathsExtend(owner: Descriptor, n: nat, value: Value, path: string, form: Value, host: Host)
    requires n <= |owner.properties|
    ensures forall e :: e in PropsErrors(owner, n, value, path, form, host) ==> path <= e.path
    decreases owner, 0, n
  {
    if n > 0 {
      var (key, prop) := owner.properties[n - 1];
      var earlier := PropsErrors(owner, n - 1, value, path, form, host);
      var last := FieldErrors(prop, key, Member(value, key), path, form, host);
      assert PropsErrors(owner, n, value, path, form, host) == earlier + last;
      PropsPathsExtend(owner, n - 1, value, path, form, host);
      FieldPathsExtend(prop, key, Member(value, key), path, form, host);
      forall e | e in last ensures path <= e.path {
        PrefixTransitive(path, FullPath(path, key), e.path);
      }
    }
  }

  lemma {:induction false} ItemsPathsExtend(owner: Descriptor, elems: seq<Value>, n: nat, path: string, form: Value, host: Host)
    requires owner.items != [] && n <= |elems|
    ensures forall e :: e in ItemsErrors(owner, elems, n, path, form, host) ==> path <= e.path
    decreases owner, 0, n
  {
    if n > 0 {
      var key := NatToString(n - 1);
      var earlier := ItemsErrors(owner, elems, n - 1, path, form, host);
      var last := FieldErrors(owner.items[0], key, elems[n - 1], path, form, host);
      assert ItemsErrors(owner, elems, n, path, form, host) == earlier + last;
      ItemsPathsExtend(owner, elems, n - 1, path, form, host);
      FieldPathsExtend(owner.items[0], key, elems[n - 1], path, form, host);
      forall e | e in last ensures path <= e.path {
        PrefixTransitive(path, FullPath(path, key), e.path);
      }
    }
  }

  lemma PrefixTransitive(a: string, b: string, c: string)
    requires a <= b && b <= c
    ensures a <= c
  {
    assert c[..|b|][..|a|] == c[..|a|];
  }

  /** Below a non-empty path, every property's error lies strictly deeper than the path. */
  lemma {:induction false} PropsPathsBelow(owner: Descriptor, n: nat, value: Value, path: string, form: Value, host: Host)
    requires n <= |owner.properties| && path != ""
    ensures forall e :: e in PropsErrors(owner, n, value, path, form, host) ==> |e.path| > |path|
    decreases n
  {
    if n > 0 {
      var key := owner.properties[n - 1].0;
      var earlier := PropsErrors(owner, n - 1, value, path, form, host);
      var last := PropErrors(owner, n - 1, value, path, form, host);
      assert PropsErrors(owner, n, value, path, form, host) == earlier + last;
      PropsPathsBelow(owner, n - 1, value, path, form, host);
      FieldPathsExtend(owner.properties[n - 1].1, key, Member(value, key), path, form, host);
      assert |FullPath(path, key)| > |path|;
    }
  }

  /** Every element's error lies strictly deeper than the array's path, since an index is never empty. */
  lemma {:induction false} ItemsPathsBelow(owner: Descriptor, elems: seq<Value>, n: nat, path: string, form: Value, host: Host)
    requires owner.items != [] && n <= |elems|
    ensures forall e :: e in ItemsErrors(owner, elems, n, path, form, host) ==> |e.path| > |path|
    decreases n
  {
    if n > 0 {
      var key := NatToString(n - 1);
      var earlier := ItemsErrors(owner, elems, n - 1, path, form, host);
      var last := FieldErrors(owner.items[0], key, elems[n - 1], path, form, host);
      assert ItemsErrors(owner, elems, n, path, form, host) == earlier + last;
      ItemsPathsBelow(owner, elems, n - 1, path, form, host);
      FieldPathsExtend(owner.items[0], key, elems[n - 1], path, form, host);
      NatToStringCanonical(n - 1);
      assert |FullPath(path, key)| > |path|;
    }
  }

  /**
   * A visible object given a map reports "at least m properties" at its own
   * path exactly when `minLength` is m and the map has fewer keys, and "at
   * most m properties" exactly when `maxLength` is m and it has more; the
   * bound errors come before the properties' errors.
   */
  lemma MapBoundsReported(d: Descriptor, key: string, value: Value, parent: string, form: Value, host: Host)
    requires Active(d.dependsOn, form, host) && d.tag == "object" && IsMap(value)
    requires FullPath(parent, key) != ""
    ensures var path := FullPath(parent, key);
            var errs := FieldErrors(d, key, value, parent, form, host);
            (forall m :: Issue(path, TooFewProperties(m)) in errs <==> d.minLength == Some(m) && |OwnKeys(value)| < m) &&
            (forall m :: Issue(path, TooManyProperties(m)) in errs <==> d.maxLength == Some(m) && |OwnKeys(value)| > m)
    ensures var count := CountErrors(FullPath(parent, key), |OwnKeys(value)|, d, false);
            FieldErrors(d, key, value, parent, form, host)[..|count|] == count
  {
    var path := FullPath(parent, key);
    var count := CountErrors(path, |OwnKeys(value)|, d, false);
    var props := PropsErrors(d, |d.properties|, value, path, form, host);
    assert FieldErrors(d, key, value, parent, form, host) == count + props;
    PropsPathsBelow(d, |d.properties|, value, path, form, host);
  }

  /**
   * A visible array given an array reports "at least m items" at its own
   * path exactly when `minLength` is m and it has fewer elements, and "at
   * most m items" exactly when `maxLength` is m and it has more; the bound
   * errors come before the elements' errors.
   */
  lemma ArrayBoundsReported(d: Descriptor, key: string, value: Value, parent: string, form: Value, host: Host)
    requires Active(d.dependsOn, form, host) && d.tag == "array" && value.Arr?
    ensures var path := FullPath(parent, key);
            var errs := FieldErrors(d, key, value, parent, form, host);
            (forall m :: Issue(path, TooFewItems(m)) in errs <==> d.minLength == Some(m) && |value.elems| < m) &&
            (forall m :: Issue(path, TooManyItems(m)) in errs <==> d.maxLength == Some(m) && |value.elems| > m)
    ensures var count := CountErrors(FullPath(parent, key), |value.elems|, d, true);
            FieldErrors(d, key, value, parent, form, host)[..|count|] == count
  {
    var path := FullPath(parent, key);
    var count := CountErrors(path, |value.elems|, d, true);
    if d.items != [] {
      var items := ItemsErrors(d, value.elems, |value.elems|, path, form, host);
      assert FieldErrors(d, key, value, parent, form, host) == count + items;
      ItemsPathsBelow(d, value.elems, |value.elems|, path, form, host);
    } else {
      assert FieldErrors(d, key, value, parent, form, host) == count + [];
    }
  }

  /** A hidden field reports nothing, even when it is required. */
  lemma HiddenFieldIsSilent(d: Descriptor, key: string, value: Value, parent: string, form: Value, host: Host)
    requires !Active(d.dependsOn, form, host)
    ensures FieldErrors(d, key, value, parent, form, host) == []
  {
  }

  /** An object given something that is not a map reports at most "is required" and never visits its properties. */
  lemma ObjectWithoutMap(d: Descriptor, key: string, value: Value, parent: string, form: Value, host: Host)
    requires d.tag == "object" && Active(d.dependsOn, form, host) && !IsMap(value)
    ensures FieldErrors(d, key, value, parent, form, host) ==
              if d.required then [Issue(FullPath(parent, key), IsRequired)] else []
  {
  }

  /** An array given something that is not an array reports at most "is required". */
  lemma ArrayWithoutArray(d: Descriptor, key: string, value: Value, parent: string, form: Value, host: Host)
    requires d.tag == "array" && Active(d.dependsOn, form, host) && !value.Arr?
    ensures FieldErrors(d, key, value, parent, form, host) ==
              if d.required then [Issue(FullPath(parent, key), IsRequired)] else []
  {
  }

  /** A variant that is not an object never accepts, whatever its properties would say. */
  lemma OnlyObjectsAccept(v: Descriptor, value: Value, path: string, form: Value, host: Host)
    requires v.tag != "object"
    ensures !Accepts(v, value, path, form, host)
  {
  }

  /**
   * A union reports at most one error, only when it is required, and none
   * when some object variant accepts the value.
   */
  lemma UnionAtMostOne(d: Descriptor, key: string, value: Value, parent: string, form: Value, host: Host)
    requires d.tag == "union"
    ensures |FieldErrors(d, key, value, parent, form, host)| <= 1
    ensures FieldErrors(d, key, value, parent, form, host) != [] ==> d.required
    ensures d.anyOf.AnyOf? && Active(d.dependsOn, form, host) ==>
              (FieldErrors(d, key, value, parent, form, host) == [] <==>
                 !d.required ||
                 exists i :: 0 <= i < |d.anyOf.variants| &&
                   Accepts(d.anyOf.variants[i], value, FullPath(parent, key), form, host))
  {
    var path := FullPath(parent, key);
    var errs := FieldErrors(d, key, value, parent, form, host);
    if !Active(d.dependsOn, form, host) {
      assert errs == [];
    } else if d.anyOf.AnyOf? {
      var vs := d.anyOf.variants;
      assert errs == UnionErrors(d, value, path, form, host);
      if exists i :: 0 <= i < |vs| && Accepts(vs[i], value, path, form, host) {
        assert errs == [];
      } else {
        assert errs == (if d.required then [Issue(path, NoVariantMatches)] else []);
      }
    } else {
      assert errs == (if d.required then [Issue(path, IsRequired)] else []);
    }
  }

  /**
   * The required check of the remaining kinds (records included): a boolean
   * fails only on undefined or null, so `false` passes; the others also fail
   * on the empty text.
   */
  lemma LeafRequired(d: Descriptor, key: string, value: Value, parent: string, form: Value, host: Host)
    requires Active(d.dependsOn, form, host)
    requires d.tag !in {"object", "array", "union", "any", "unknown", "json"}
    ensures d.tag == "boolean" ==>
              (FieldErrors(d, key, value, parent, form, host) == [] <==>
                 !d.required || !(value.Undef? || value.Null?))
    ensures d.tag != "boolean" ==>
              (FieldErrors(d, key, value, parent, form, host) == [] <==>
                 !d.required || !(value.Undef? || value.Null? || value == Str("")))
    ensures |FieldErrors(d, key, value, parent, form, host)| <= 1
  {
  }

  /** `any` and `unknown` fail only when required and strictly undefined; null passes. */
  lemma AnyRequired(d: Descriptor, key: string, value: Value, parent: string, form: Value, host: Host)
    requires Active(d.dependsOn, form, host) && (d.tag == "any" || d.tag == "unknown")
    ensures FieldErrors(d, key, value, parent, form, host) == [] <==> !d.required || !value.Undef?
  {
  }

  /** `json`: an empty value is only checked for presence; any other value fails only when its text does not parse. */
  lemma JsonChecked(d: Descriptor, key: string, value: Value, parent: string, form: Value, host: Host)
    requires Active(d.dependsOn, form, host) && d.tag == "json"
    ensures value.Undef? || value.Null? || value == Str("") ==>
              (FieldErrors(d, key, value, parent, form, host) == [] <==> !d.required)
    ensures value.Str? && value.s != "" ==>
              (FieldErrors(d, key, value, parent, form, host) == [] <==> host.parses(value.s))
    ensures |FieldErrors(d, key, value, parent, form, host)| <= 1
  {
  }
}
