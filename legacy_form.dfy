/**
 * The older validator inside the string input component
 * (`DynamicForm.validateForm`). The required check comes first for every
 * kind; arrays only get their length bounds; maps get their key-count
 * bounds and then their declared properties; nothing else is checked.
 * Its path, visibility and default helpers are the same algorithms as the
 * shared ones and are modelled by `Nested`, `Conditions` and `Defaults`.
 */
module LegacyForm {
  import opened Values
  import opened Foreign
  import opened Conditions
  import opened Descriptors
  import opened FormValidator

  /** The errors the older `validateField(key, d, value, parent)` pushes. */
  function LegacyFieldErrors(d: Descriptor, key: string, value: Value, parent: string, form: Value, host: Host): seq<Issue>
    decreases d, 1, 0
  {
    var path := FullPath(parent, key);
    if !Active(d.dependsOn, form, host) then []
    else if d.required && (value.Undef? || value.Null? || value == Str("")) then [Issue(path, IsRequired)]
    else if d.tag == "array" then
      if value.Arr? then CountErrors(path, |value.elems|, d, true) else []
    else if d.tag == "object" then
      if IsMap(value) then
        CountErrors(path, |OwnKeys(value)|, d, false) + LegacyPropsErrors(d, |d.properties|, value, path, form, host)
      else []
    else []
  }

  function LegacyPropsErrors(owner: Descriptor, n: nat, value: Value, path: string, form: Value, host: Host): seq<Issue>
    requires n <= |owner.properties|
    decreases owner, 0, n
  {
    if n == 0 then []
    else LegacyPropsErrors(owner, n - 1, value, path, form, host) + LegacyPropErrors(owner, n - 1, value, path, form, host)
  }

  function LegacyPropErrors(owner: Descriptor, i: nat, value: Value, path: string, form: Value, host: Host): seq<Issue>
    requires i < |owner.properties|
    decreases owner, 0, i
  {
    LegacyFieldErrors(owner.properties[i].1, owner.properties[i].0, Member(value, owner.properties[i].0), path, form, host)
  }

  /** The older `validateField`, pushing into the shared list. */
  method LegacyValidateField(d: Descriptor, key: string, value: Value, parent: string, form: Value, host: Host,
                             errors: seq<Issue>) returns (errs: seq<Issue>)
    ensures errs == errors + LegacyFieldErrors(d, key, value, parent, form, host)
    decreases d, 1
  {
    var path := FullPath(parent, key);
    errs := errors;
    if !Active(d.dependsOn, form, host) {
      return;
    }
    if d.required && (value.Undef? || value.Null? || value == Str("")) {
      errs := errs + [Issue(path, IsRequired)];
      return;
    }
    if d.tag == "array" {
      if value.Arr? {
        errs := errs + CountErrors(path, |value.elems|, d, true);
      }
    } else if d.tag == "object" {
      if IsMap(value) {
        errs := errs + CountErrors(path, |OwnKeys(value)|, d, false);
        errs := LegacyValidateProps(d, value, path, form, host, errs);
      }
    }
  }

  method LegacyValidateProps(owner: Descriptor, value: Value, path: string, form: Value, host: Host,
                             errors: seq<Issue>) returns (errs: seq<Issue>)
    ensures errs == errors + LegacyPropsErrors(owner, |owner.properties|, value, path, form, host)
    decreases owner, 0
  {
    errs := errors;
    var i := 0;
    while i < |owner.properties|
      invariant 0 <= i <= |owner.properties|
      invariant errs == errors + LegacyPropsErrors(owner, i, value, path, form, host)
    {
      var key := owner.properties[i].0;
      ghost var before := errs;
      errs := LegacyValidateField(owner.properties[i].1, key, Member(value, key), path, form, host, errs);
      LegacyPropsStep(owner, i, value, path, form, host, errors, before, errs);
      i := i + 1;
    }
  }

  lemma LegacyPropsStep(owner: Descriptor, i: nat, value: Value, path: string, form: Value, host: Host,
                        errors: seq<Issue>, before: seq<Issue>, after: seq<Issue>)
    requires i < |owner.properties|
    requires before == errors + LegacyPropsErrors(owner, i, value, path, form, host)
    requires after == before + LegacyPropErrors(owner, i, value, path, form, host)
    ensures after == errors + LegacyPropsErrors(owner, i + 1, value, path, form, host)
  {
    AppendAssoc(errors, LegacyPropsErrors(owner, i, value, path, form, host),
                LegacyPropErrors(owner, i, value, path, form, host));
  }

  /** The older `validateForm`: the root's properties in declaration order, rendered as messages. */
  method LegacyValidateForm(form: Value, schema: Descriptor, host: Host) returns (errors: seq<string>)
    ensures var issues := LegacyPropsErrors(schema, |schema.properties|, form, "", form, host);
            |errors| == |issues| && forall i :: 0 <= i < |issues| ==> errors[i] == Message(issues[i])
  {
    var issues := LegacyValidateProps(schema, form, "", form, host, []);
    errors := [];
    var i := 0;
    while i < |issues|
      invariant 0 <= i <= |issues|
      invariant |errors| == i && forall k :: 0 <= k < i ==> errors[k] == Message(issues[k])
    {
      errors := errors + [Message(issues[i])];
      i := i + 1;
    }
  }

  // ---------------------------------------------------------------------
  // Properties

  /** A hidden field reports nothing. */
  lemma LegacyHiddenIsSilent(d: Descriptor, key: string, value: Value, parent: string, form: Value, host: Host)
    requires !Active(d.dependsOn, form, host)
    ensures LegacyFieldErrors(d, key, value, parent, form, host) == []
  {
  }

  /** A required field that is missing or empty gets exactly one "is required", whatever its kind. */
  lemma LegacyRequiredFirst(d: Descriptor, key: string, value: Value, parent: string, form: Value, host: Host)
    requires Active(d.dependsOn, form, host) && d.required
    requires value.Undef? || value.Null? || value == Str("")
    ensures LegacyFieldErrors(d, key, value, parent, form, host) == [Issue(FullPath(parent, key), IsRequired)]
  {
  }

  /** Arrays get their length bounds only: every error is filed at the array itself, never at an element. */
  lemma LegacyArraysNotEntered(d: Descriptor, key: string, value: Value, parent: string, form: Value, host: Host)
    requires d.tag == "array"
    ensures |LegacyFieldErrors(d, key, value, parent, form, host)| <= 2
    ensures forall e :: e in LegacyFieldErrors(d, key, value, parent, form, host) ==> e.path == FullPath(parent, key)
  {
  }

  /** An object whose value is not a map, and which passed the required check, reports nothing. */
  lemma LegacyObjectWithoutMap(d: Descriptor, key: string, value: Value, parent: string, form: Value, host: Host)
    requires d.tag == "object" && !IsMap(value)
    requires !(d.required && (value.Undef? || value.Null? || value == Str("")))
    ensures LegacyFieldErrors(d, key, value, parent, form, host) == []
  {
  }

  /**
   * On the plain leaf kinds (strings, numbers, dates, records and any other
   * tag outside the structural and special ones) the older and the newer
   * validator report the same errors.
   */
  lemma LeafKindsAgree(d: Descriptor, key: string, value: Value, parent: string, form: Value, host: Host)
    requires d.tag !in {"object", "array", "union", "any", "unknown", "json", "boolean"}
    ensures LegacyFieldErrors(d, key, value, parent, form, host) == FieldErrors(d, key, value, parent, form, host)
  {
  }

  /** On a boolean they differ only on the empty text, which the older validator treats as missing. */
  lemma BooleanDiffersOnEmptyText(d: Descriptor, key: string, parent: string, form: Value, host: Host)
    requires d.tag == "boolean" && d.required && Active(d.dependsOn, form, host)
    ensures LegacyFieldErrors(d, key, Str(""), parent, form, host) == [Issue(FullPath(parent, key), IsRequired)]
    ensures FieldErrors(d, key, Str(""), parent, form, host) == []
  {
  }
}
