/**
 * `evaluate(schema, data, path = "")`: the typed validator. Absent data is
 * only checked for presence; present data must have the schema's kind, and
 * then every constraint adds its own error; arrays and objects recurse into
 * their items and declared properties.
 */
module Evaluate {
  import opened Wrappers
  import opened Text
  import opened Values
  import opened Foreign
  import opened FormTypes

  /** `path || "root"`: where an error found at this node is reported. */
  function Where(path: string): string
  {
    if path == "" then "root" else path
  }

  /** `path ? `${path}.${key}` : key`. */
  function PropertyPath(path: string, key: string): string
  {
    if path == "" then key else path + "." + key
  }

  /** `${path}[${index}]`. */
  function ItemPath(path: string, index: nat): string
  {
    path + "[" + NatToString(index) + "]"
  }

  /** `${regex}`: a regular expression prints as its literal. */
  function PatternText(m: Matcher): string
  {
    "/" + m.source + "/" + m.flags
  }

  function NumbersText(ns: seq<int>): string
  {
    Join(seq(|ns|, i requires 0 <= i < |ns| => IntToString(ns[i])), ", ")
  }

  /** An error at this node (`addError`). */
  function Here(path: string, message: string): ValidationError
  {
    ValidationError(Where(path), message)
  }

  /** The runtime kind check each schema kind starts with. */
  predicate KindMatches(s: Input, data: Value)
  {
    match s
    case StringInput(_, _, _, _, _, _) => data.Str?
    case NumberInput(_, _, _, _, _) => data.Num?
    case BooleanInput(_, _) => data.Bool?
    case DateInput(_, _, _, _) => data.Date?
    case ArrayInput(_, _, _, _) => data.Arr?
    case ObjectInput(_, _) => IsMap(data)
  }

  /** The message of a failed kind check. */
  function KindMessage(s: Input, data: Value): string
  {
    match s
    case StringInput(_, _, _, _, _, _) => "Expected string, got " + TypeOf(data)
    case NumberInput(_, _, _, _, _) => "Expected number, got " + TypeOf(data)
    case BooleanInput(_, _) => "Expected boolean, got " + TypeOf(data)
    case DateInput(_, _, _, _) => "Expected valid Date, got " + TypeOf(data)
    case ArrayInput(_, _, _, _) => "Expected array, got " + TypeOf(data)
    case ObjectInput(_, _) => "Expected object, got " + (if data.Arr? then "array" else TypeOf(data))
  }

  /**
   * The constraints of a string, each adding its own error, in the source's
   * order; `data.length` counts UTF-16 code units.
   */
  function StringErrors(s: Input, text: string, path: string, host: Host): (errs: seq<ValidationError>)
    requires s.StringInput?
    ensures forall e :: e in errs ==> e.path == Where(path)
  {
    (if s.textOptions.Some? && text !in s.textOptions.value
     then [Here(path, "Value must be one of: " + Join(s.textOptions.value, ", "))] else []) +
    (if s.minLength.Some? && Utf16Length(text) < s.minLength.value
     then [Here(path, "String length must be at least " + IntToString(s.minLength.value))] else []) +
    (if s.maxLength.Some? && Utf16Length(text) > s.maxLength.value
     then [Here(path, "String length must be at most " + IntToString(s.maxLength.value))] else []) +
    (if s.pattern.Some? && !host.test(s.pattern.value, text)
     then [Here(path, "String does not match pattern " + PatternText(s.pattern.value))] else [])
  }

  function NumberErrors(s: Input, n: int, path: string): (errs: seq<ValidationError>)
    requires s.NumberInput?
    ensures forall e :: e in errs ==> e.path == Where(path)
  {
    (if s.numberOptions.Some? && n !in s.numberOptions.value
     then [Here(path, "Value must be one of: " + NumbersText(s.numberOptions.value))] else []) +
    (if s.min.Some? && n < s.min.value
     then [Here(path, "Number must be at least " + IntToString(s.min.value))] else []) +
    (if s.max.Some? && n > s.max.value
     then [Here(path, "Number must be at most " + IntToString(s.max.value))] else [])
  }

  function DateErrors(s: Input, time: int, path: string, host: Host): (errs: seq<ValidationError>)
    requires s.DateInput?
    ensures forall e :: e in errs ==> e.path == Where(path)
  {
    (if s.min.Some? && time < s.min.value
     then [Here(path, "Date must be at least " + host.isoText(s.min.value))] else []) +
    (if s.max.Some? && time > s.max.value
     then [Here(path, "Date must be at most " + host.isoText(s.max.value))] else [])
  }

  function LengthErrors(s: Input, count: int, path: string): (errs: seq<ValidationError>)
    requires s.ArrayInput?
    ensures forall e :: e in errs ==> e.path == Where(path)
  {
    (if s.minLength.Some? && count < s.minLength.value
     then [Here(path, "Array length must be at least " + IntToString(s.minLength.value))] else []) +
    (if s.maxLength.Some? && count > s.maxLength.value
     then [Here(path, "Array length must be at most " + IntToString(s.maxLength.value))] else [])
  }

  /** All the errors of `evaluate(s, data, path)`, in the order they are pushed. */
  function EvalErrors(s: Input, data: Value, path: string, host: Host): seq<ValidationError>
    decreases s, 1, 0
  {
    if data.Undef? || data.Null? then
      (if s.required then [Here(path, "Value is required")] else [])
    else if !KindMatches(s, data) then [Here(path, KindMessage(s, data))]
    else
      match s
      case StringInput(_, _, _, _, _, _) => StringErrors(s, data.s, path, host)
      case NumberInput(_, _, _, _, _) => NumberErrors(s, data.n, path)
      case BooleanInput(_, _) => []
      case DateInput(_, _, _, _) => DateErrors(s, data.time, path, host)
      case ArrayInput(items, _, _, _) =>
        LengthErrors(s, |data.elems|, path) + ItemsErrors(s, data.elems, |data.elems|, path, host)
      case ObjectInput(props, _) => PropsErrors(s, |props|, data, path, host)
  }

  /** The errors of the first `n` items, each under `path[i]`, in index order. */
  function ItemsErrors(s: Input, elems: seq<Value>, n: nat, path: string, host: Host): seq<ValidationError>
    requires s.ArrayInput? && n <= |elems|
    decreases s, 0, n
  {
    if n == 0 then []
    else ItemsErrors(s, elems, n - 1, path, host) + ItemErrors(s, elems, n - 1, path, host)
  }

  /** The errors of item `i`, evaluated under `path[i]`. */
  function ItemErrors(s: Input, elems: seq<Value>, i: nat, path: string, host: Host): seq<ValidationError>
    requires s.ArrayInput? && i < |elems|
    decreases s, 0, i
  {
    EvalErrors(s.items, elems[i], ItemPath(path, i), host)
  }

  /** The errors of the first `n` declared properties, each under `path.key`, in declaration order. */
  function PropsErrors(s: Input, n: nat, data: Value, path: string, host: Host): seq<ValidationError>
    requires s.ObjectInput? && n <= |s.properties|
    decreases s, 0, n
  {
    if n == 0 then []
    else PropsErrors(s, n - 1, data, path, host) + PropertyErrors(s, n - 1, data, path, host)
  }

  /** The errors of declared property `i`, read from the data and evaluated under `path.key`. */
  function PropertyErrors(s: Input, i: nat, data: Value, path: string, host: Host): seq<ValidationError>
    requires s.ObjectInput? && i < |s.properties|
    decreases s, 0, i
  {
    EvalErrors(s.properties[i].1, Member(data, s.properties[i].0), PropertyPath(path, s.properties[i].0), host)
  }

  /** `evaluate`: success carrying the data unchanged exactly when no error was found. */
  function Evaluate(s: Input, data: Value, path: string, host: Host): (r: ValidationResult)
    ensures r.Success? <==> EvalErrors(s, data, path, host) == []
    ensures r.Success? ==> r.data == data
    ensures r.Failure? ==> r.errors == EvalErrors(s, data, path, host)
  {
    var errors := EvalErrors(s, data, path, host);
    if |errors| > 0 then Failure(errors) else Success(data)
  }

  // ---------------------------------------------------------------------
  // Properties

  /** Absent data gives exactly one "Value is required" when required, and success otherwise. */
  lemma AbsentData(s: Input, data: Value, path: string, host: Host)
    requires data.Undef? || data.Null?
    ensures s.required ==> Evaluate(s, data, path, host) == Failure([ValidationError(Where(path), "Value is required")])
    ensures !s.required ==> Evaluate(s, data, path, host) == Success(data)
  {
  }

  /** Present data of the wrong kind gives exactly one "Expected …" error and nothing else. */
  lemma WrongKind(s: Input, data: Value, path: string, host: Host)
    requires !data.Undef? && !data.Null? && !KindMatches(s, data)
    ensures Evaluate(s, data, path, host) == Failure([ValidationError(Where(path), KindMessage(s, data))])
  {
  }

  /**
   * Where an error of the top-level call may sit: at "root", under an
   * element's "[i]", or under a declared property's name.
   */
  predicate TopPlaced(s: Input, data: Value, p: string)
  {
    p == "root" ||
    (s.ArrayInput? && data.Arr? && exists i :: 0 <= i < |data.elems| && "[" + NatToString(i) + "]" <= p) ||
    (s.ObjectInput? && exists i :: 0 <= i < |s.properties| && s.properties[i].0 <= p)
  }

  /**
   * The errors of the top-level call: a leaf schema reports everything at
   * "root"; an array or object reports its own errors at "root" and the
   * rest under an element's "[i]" or a declared property's name.
   */
  lemma TopLevelIsRoot(s: Input, data: Value, host: Host)
    ensures !s.ArrayInput? && !s.ObjectInput? ==>
              forall e :: e in EvalErrors(s, data, "", host) ==> e.path == "root"
    ensures forall e :: e in EvalErrors(s, data, "", host) ==> TopPlaced(s, data, e.path)
  {
    ErrorsAtNodeOrChild(s, data, "", host);
    forall e | e in EvalErrors(s, data, "", host) ensures TopPlaced(s, data, e.path) {
      if s.ArrayInput? && data.Arr? && exists i :: 0 <= i < |data.elems| && ItemPath("", i) <= e.path {
        var i :| 0 <= i < |data.elems| && ItemPath("", i) <= e.path;
        assert ItemPath("", i) == "[" + NatToString(i) + "]";
      } else if s.ObjectInput? && exists i :: 0 <= i < |s.properties| && PropertyPath("", s.properties[i].0) <= e.path {
        var i :| 0 <= i < |s.properties| && PropertyPath("", s.properties[i].0) <= e.path;
        assert PropertyPath("", s.properties[i].0) == s.properties[i].0;
      }
    }
    if !s.ArrayInput? && !s.ObjectInput? {
      ErrorsUnderPathLeaf(s, data, "", host);
    }
  }

  /** A string passes exactly when it is one of the options, within both bounds and matches the pattern. */
  lemma StringConstraints(s: Input, text: string, path: string, host: Host)
    requires s.StringInput?
    ensures EvalErrors(s, Str(text), path, host) == [] <==>
              (s.textOptions.None? || text in s.textOptions.value) &&
              (s.minLength.None? || Utf16Length(text) >= s.minLength.value) &&
              (s.maxLength.None? || Utf16Length(text) <= s.maxLength.value) &&
              (s.pattern.None? || host.test(s.pattern.value, text))
    ensures |EvalErrors(s, Str(text), path, host)| <= 4
  {
  }

  /** A single character outside the Basic Multilingual Plane already exceeds a maximum length of one. */
  lemma AstralTextTooLong(s: Input, path: string, host: Host)
    requires s.StringInput? && s.textOptions.None? && s.minLength.None? && s.pattern.None?
    requires s.maxLength == Some(1)
    ensures EvalErrors(s, Str("\U{1F600}"), path, host) == [Here(path, "String length must be at most 1")]
  {
    var text := "\U{1F600}";
    AstralCharCountsTwice();
    assert IntToString(1) == "1" by { assert NatToString(1) == [DigitChar(1)]; }
    assert EvalErrors(s, Str(text), path, host) == StringErrors(s, text, path, host);
    var msg := "String length must be at most " + IntToString(1);
    assert msg == "String length must be at most 1";
    assert StringErrors(s, text, path, host) == [] + [] + [Here(path, msg)] + [];
    assert [] + [] + [Here(path, msg)] + [] == [Here(path, msg)];
  }

  /** A number passes exactly when it is one of the options and within both bounds. */
  lemma NumberConstraints(s: Input, n: int, path: string, host: Host)
    requires s.NumberInput?
    ensures EvalErrors(s, Num(n), path, host) == [] <==>
              (s.numberOptions.None? || n in s.numberOptions.value) &&
              (s.min.None? || n >= s.min.value) &&
              (s.max.None? || n <= s.max.value)
  {
  }

  /** A date passes exactly when it lies within both bounds. */
  lemma DateConstraints(s: Input, time: int, path: string, host: Host)
    requires s.DateInput?
    ensures EvalErrors(s, Date(time), path, host) == [] <==>
              (s.min.None? || time >= s.min.value) && (s.max.None? || time <= s.max.value)
  {
  }

  /** The items report nothing exactly when every item, evaluated under its own index, reports nothing. */
  lemma {:induction false} ItemsClean(s: Input, elems: seq<Value>, n: nat, path: string, host: Host)
    requires s.ArrayInput? && n <= |elems|
    ensures ItemsErrors(s, elems, n, path, host) == [] ==>
              forall i :: 0 <= i < n ==> ItemErrors(s, elems, i, path, host) == []
    ensures (forall i :: 0 <= i < n ==> ItemErrors(s, elems, i, path, host) == []) ==>
              ItemsErrors(s, elems, n, path, host) == []
  {
    if n > 0 {
      var before := ItemsErrors(s, elems, n - 1, path, host);
      var last := ItemErrors(s, elems, n - 1, path, host);
      ItemsClean(s, elems, n - 1, path, host);
      assert ItemsErrors(s, elems, n, path, host) == before + last;
      AppendEmpty(before, last);
      if before == [] && last == [] {
        assert forall i :: 0 <= i < n - 1 ==> ItemErrors(s, elems, i, path, host) == [];
      }
    }
  }

  /** The declared properties report nothing exactly when each one, read from the data, reports nothing. */
  lemma PropsClean(s: Input, n: nat, data: Value, path: string, host: Host)
    requires s.ObjectInput? && n <= |s.properties|
    ensures PropsErrors(s, n, data, path, host) == [] ==>
              forall i :: 0 <= i < n ==> PropertyErrors(s, i, data, path, host) == []
    ensures (forall i :: 0 <= i < n ==> PropertyErrors(s, i, data, path, host) == []) ==>
              PropsErrors(s, n, data, path, host) == []
  {
    if PropsErrors(s, n, data, path, host) == [] {
      CleanPropsAreEachClean(s, n, data, path, host);
    }
    if forall i :: 0 <= i < n ==> PropertyErrors(s, i, data, path, host) == [] {
      EachCleanPropsAreClean(s, n, data, path, host);
    }
  }

  lemma {:induction false} CleanPropsAreEachClean(s: Input, n: nat, data: Value, path: string, host: Host)
    requires s.ObjectInput? && n <= |s.properties|
    requires PropsErrors(s, n, data, path, host) == []
    ensures forall i :: 0 <= i < n ==> PropertyErrors(s, i, data, path, host) == []
  {
    if n > 0 {
      var before := PropsErrors(s, n - 1, data, path, host);
      var last := PropertyErrors(s, n - 1, data, path, host);
      assert PropsErrors(s, n, data, path, host) == before + last;
      AppendEmpty(before, last);
      CleanPropsAreEachClean(s, n - 1, data, path, host);
    }
  }

  lemma {:induction false} EachCleanPropsAreClean(s: Input, n: nat, data: Value, path: string, host: Host)
    requires s.ObjectInput? && n <= |s.properties|
    requires forall i :: 0 <= i < n ==> PropertyErrors(s, i, data, path, host) == []
    ensures PropsErrors(s, n, data, path, host) == []
  {
    if n > 0 {
      EachCleanPropsAreClean(s, n - 1, data, path, host);
      assert PropsErrors(s, n, data, path, host) ==
             PropsErrors(s, n - 1, data, path, host) + PropertyErrors(s, n - 1, data, path, host);
    }
  }

  /** An array passes exactly when it is within both bounds and every item passes. */
  lemma ArrayClean(s: Input, elems: seq<Value>, path: string, host: Host)
    requires s.ArrayInput?
    ensures EvalErrors(s, Arr(elems), path, host) == [] <==>
              (s.minLength.None? || |elems| >= s.minLength.value) &&
              (s.maxLength.None? || |elems| <= s.maxLength.value) &&
              forall i :: 0 <= i < |elems| ==> EvalErrors(s.items, elems[i], ItemPath(path, i), host) == []
  {
    ItemsClean(s, elems, |elems|, path, host);
    forall i | 0 <= i < |elems|
      ensures ItemErrors(s, elems, i, path, host) == EvalErrors(s.items, elems[i], ItemPath(path, i), host)
    {
    }
  }

  /**
   * Keys the schema does not declare are never looked at: two objects that
   * agree on the declared keys get the same errors.
   */
  lemma {:induction false} ExtraKeysIgnored(s: Input, n: nat, a: Value, b: Value, path: string, host: Host)
    requires s.ObjectInput? && n <= |s.properties|
    requires forall i :: 0 <= i < n ==> Member(a, s.properties[i].0) == Member(b, s.properties[i].0)
    ensures PropsErrors(s, n, a, path, host) == PropsErrors(s, n, b, path, host)
  {
    if n > 0 {
      ExtraKeysIgnored(s, n - 1, a, b, path, host);
      assert PropertyErrors(s, n - 1, a, path, host) == PropertyErrors(s, n - 1, b, path, host);
    }
  }

  /** Every error is reported at this node or strictly below its path. */
  lemma {:induction false} ErrorsUnderPath(s: Input, data: Value, path: string, host: Host)
    ensures forall e :: e in EvalErrors(s, data, path, host) ==> e.path == Where(path) || path < e.path
    decreases s, 1, 0
  {
    var errs := EvalErrors(s, data, path, host);
    if data.Undef? || data.Null? || !KindMatches(s, data) {
      assert forall e :: e in errs ==> e.path == Where(path);
    } else {
      match s
      case StringInput(_, _, _, _, _, _) =>
        assert errs == StringErrors(s, data.s, path, host);
      case NumberInput(_, _, _, _, _) =>
        assert errs == NumberErrors(s, data.n, path);
      case BooleanInput(_, _) =>
        assert errs == [];
      case DateInput(_, _, _, _) =>
        assert errs == DateErrors(s, data.time, path, host);
      case ArrayInput(_, _, _, _) =>
        var length := LengthErrors(s, |data.elems|, path);
        var items := ItemsErrors(s, data.elems, |data.elems|, path, host);
        assert errs == length + items;
        ItemsUnderPath(s, data.elems, |data.elems|, path, host);
        assert forall e :: e in length ==> e.path == Where(path);
      case ObjectInput(props, _) =>
        assert errs == PropsErrors(s, |props|, data, path, host);
        PropsUnderPath(s, |props|, data, path, host);
    }
  }

  /**
   * Every error is reported at this node, or under the path of one of its
   * children: an element's `path[i]` or a declared property's `path.key`.
   */
  lemma ErrorsAtNodeOrChild(s: Input, data: Value, path: string, host: Host)
    ensures forall e :: e in EvalErrors(s, data, path, host) ==>
              e.path == Where(path) ||
              (s.ArrayInput? && data.Arr? && exists i :: 0 <= i < |data.elems| && ItemPath(path, i) <= e.path) ||
              (s.ObjectInput? && exists i :: 0 <= i < |s.properties| && PropertyPath(path, s.properties[i].0) <= e.path)
  {
    var errs := EvalErrors(s, data, path, host);
    if data.Undef? || data.Null? || !KindMatches(s, data) {
      assert forall e :: e in errs ==> e.path == Where(path);
    } else {
      match s
      case ArrayInput(_, _, _, _) =>
        var length := LengthErrors(s, |data.elems|, path);
        var items := ItemsErrors(s, data.elems, |data.elems|, path, host);
        assert errs == length + items;
        ItemsAtChildren(s, data.elems, |data.elems|, path, host);
      case ObjectInput(props, _) =>
        assert errs == PropsErrors(s, |props|, data, path, host);
        PropsAtChildren(s, |props|, data, path, host);
      case _ =>
        ErrorsUnderPathLeaf(s, data, path, host);
    }
  }

  lemma ErrorsUnderPathLeaf(s: Input, data: Value, path: string, host: Host)
    requires !s.ArrayInput? && !s.ObjectInput?
    ensures forall e :: e in EvalErrors(s, data, path, host) ==> e.path == Where(path)
  {
    var errs := EvalErrors(s, data, path, host);
    if !(data.Undef? || data.Null? || !KindMatches(s, data)) {
      match s
      case StringInput(_, _, _, _, _, _) =>
        assert errs == StringErrors(s, data.s, path, host);
      case NumberInput(_, _, _, _, _) =>
        assert errs == NumberErrors(s, data.n, path);
      case BooleanInput(_, _) =>
        assert errs == [];
      case DateInput(_, _, _, _) =>
        assert errs == DateErrors(s, data.time, path, host);
    }
  }

  lemma {:induction false} ItemsAtChildren(s: Input, elems: seq<Value>, n: nat, path: string, host: Host)
    requires s.ArrayInput? && n <= |elems|
    ensures forall e :: e in ItemsErrors(s, elems, n, path, host) ==>
              exists i :: 0 <= i < n && ItemPath(path, i) <= e.path
  {
    if n > 0 {
      var child := ItemPath(path, n - 1);
      var last := ItemErrors(s, elems, n - 1, path, host);
      ItemsAtChildren(s, elems, n - 1, path, host);
      ErrorsUnderPath(s.items, elems[n - 1], child, host);
      assert ItemsErrors(s, elems, n, path, host) == ItemsErrors(s, elems, n - 1, path, host) + last;
      assert child != "";
      forall e | e in last ensures ItemPath(path, n - 1) <= e.path {
      }
    }
  }

  lemma {:induction false} PropsAtChildren(s: Input, n: nat, data: Value, path: string, host: Host)
    requires s.ObjectInput? && n <= |s.properties|
    ensures forall e :: e in PropsErrors(s, n, data, path, host) ==>
              e.path == Where(path) || exists i :: 0 <= i < n && PropertyPath(path, s.properties[i].0) <= e.path
  {
    if n > 0 {
      var key := s.properties[n - 1].0;
      var child := PropertyPath(path, key);
      var last := PropertyErrors(s, n - 1, data, path, host);
      PropsAtChildren(s, n - 1, data, path, host);
      ErrorsUnderPath(s.properties[n - 1].1, Member(data, key), child, host);
      assert PropsErrors(s, n, data, path, host) == PropsErrors(s, n - 1, data, path, host) + last;
      forall e | e in last ensures e.path == Where(path) || PropertyPath(path, key) <= e.path {
      }
    }
  }

  lemma {:induction false} ItemsUnderPath(s: Input, elems: seq<Value>, n: nat, path: string, host: Host)
    requires s.ArrayInput? && n <= |elems|
    ensures forall e :: e in ItemsErrors(s, elems, n, path, host) ==> path < e.path
    decreases s, 0, n
  {
    if n > 0 {
      var child := ItemPath(path, n - 1);
      ItemsUnderPath(s, elems, n - 1, path, host);
      ErrorsUnderPath(s.items, elems[n - 1], child, host);
      assert path < child && child != "";
      forall e | e in EvalErrors(s.items, elems[n - 1], child, host) ensures path < e.path {
        if e.path != child {
          StrictPrefixTransitive(path, child, e.path);
        }
      }
    }
  }

  lemma {:induction false} PropsUnderPath(s: Input, n: nat, data: Value, path: string, host: Host)
    requires s.ObjectInput? && n <= |s.properties|
    ensures forall e :: e in PropsErrors(s, n, data, path, host) ==> e.path == Where(path) || path < e.path
    decreases s, 0, n
  {
    if n > 0 {
      var (key, prop) := s.properties[n - 1];
      var child := PropertyPath(path, key);
      PropsUnderPath(s, n - 1, data, path, host);
      ErrorsUnderPath(prop, Member(data, key), child, host);
      assert PropsErrors(s, n, data, path, host) ==
             PropsErrors(s, n - 1, data, path, host) + EvalErrors(prop, Member(data, key), child, host);
      forall e | e in EvalErrors(prop, Member(data, key), child, host) ensures e.path == Where(path) || path < e.path {
        assert e.path == Where(child) || child < e.path;
        if path != "" {
          assert path < child && Where(child) == child;
          if e.path != child {
            StrictPrefixTransitive(path, child, e.path);
          }
        }
      }
    }
  }

  lemma StrictPrefixTransitive(a: string, b: string, c: string)
    requires a < b && b < c
    ensures a < c
  {
    assert c[..|b|][..|a|] == c[..|a|];
  }

  // ---------------------------------------------------------------------
  // Against the inferred type

  /**
   * The values `evaluate` lets through, as far as kinds go: absent data
   * where the schema is not required, otherwise data of the schema's kind
   * whose items and declared properties are let through in turn.
   */
  predicate Admits(s: Input, v: Value)
    decreases s, 1, 0
  {
    if v.Undef? || v.Null? then !s.required
    else
      KindMatches(s, v) &&
      match s
      case ArrayInput(items, _, _, _) => forall i :: 0 <= i < |v.elems| ==> Admits(items, v.elems[i])
      case ObjectInput(props, _) => AdmitsProps(s, |props|, v)
      case _ => true
  }

  predicate AdmitsProps(owner: Input, n: nat, v: Value)
    requires owner.ObjectInput? && n <= |owner.properties|
    decreases owner, 0, n
  {
    n == 0 ||
    (AdmitsProps(owner, n - 1, v) &&
     Admits(owner.properties[n - 1].1, Member(v, owner.properties[n - 1].0)))
  }

  /** Whatever passes `evaluate` has the admitted shape. */
  lemma {:induction false} PassingDataIsAdmitted(s: Input, v: Value, path: string, host: Host)
    requires EvalErrors(s, v, path, host) == []
    ensures Admits(s, v)
    decreases s, 1, 0
  {
    if !(v.Undef? || v.Null?) {
      match s
      case ArrayInput(items, _, _, _) =>
        ArrayClean(s, v.elems, path, host);
        forall i | 0 <= i < |v.elems| ensures Admits(items, v.elems[i]) {
          PassingDataIsAdmitted(items, v.elems[i], ItemPath(path, i), host);
        }
      case ObjectInput(props, _) =>
        PassingPropsAdmitted(s, |props|, v, path, host);
      case _ =>
    }
  }

  lemma {:induction false} PassingPropsAdmitted(s: Input, n: nat, v: Value, path: string, host: Host)
    requires s.ObjectInput? && n <= |s.properties|
    requires PropsErrors(s, n, v, path, host) == []
    ensures AdmitsProps(s, n, v)
    decreases s, 0, n
  {
    if n > 0 {
      var (key, prop) := s.properties[n - 1];
      var before := PropsErrors(s, n - 1, v, path, host);
      var last := EvalErrors(prop, Member(v, key), PropertyPath(path, key), host);
      assert PropsErrors(s, n, v, path, host) == before + last;
      AppendEmpty(before, last);
      PassingPropsAdmitted(s, n - 1, v, path, host);
      PassingDataIsAdmitted(prop, Member(v, key), PropertyPath(path, key), host);
    }
  }

  /** A schema with no options, bounds or pattern anywhere. */
  predicate Unconstrained(s: Input)
    decreases s, 1, 0
  {
    match s
    case StringInput(_, minL, maxL, pat, opts, _) => minL.None? && maxL.None? && pat.None? && opts.None?
    case NumberInput(_, lo, hi, opts, _) => lo.None? && hi.None? && opts.None?
    case BooleanInput(_, _) => true
    case DateInput(_, lo, hi, _) => lo.None? && hi.None?
    case ArrayInput(items, minL, maxL, _) => minL.None? && maxL.None? && Unconstrained(items)
    case ObjectInput(props, _) => AllUnconstrained(s, |props|)
  }

  predicate AllUnconstrained(owner: Input, n: nat)
    requires owner.ObjectInput? && n <= |owner.properties|
    decreases owner, 0, n
  {
    n == 0 || (AllUnconstrained(owner, n - 1) && Unconstrained(owner.properties[n - 1].1))
  }

  /** Without constraints, every value of the inferred type passes `evaluate`. */
  lemma {:induction false} InferredValuesPass(s: Input, v: Value, path: string, host: Host)
    requires Unconstrained(s) && Inhabits(s, v)
    ensures EvalErrors(s, v, path, host) == []
    decreases s, 1, 0
  {
    match s
    case ArrayInput(items, _, _, _) =>
      forall i | 0 <= i < |v.elems| ensures EvalErrors(items, v.elems[i], ItemPath(path, i), host) == [] {
        InferredValuesPass(items, v.elems[i], ItemPath(path, i), host);
      }
      ArrayClean(s, v.elems, path, host);
    case ObjectInput(props, _) =>
      InferredPropsPass(s, |props|, v, path, host);
    case _ =>
  }

  lemma {:induction false} InferredPropsPass(s: Input, n: nat, v: Value, path: string, host: Host)
    requires s.ObjectInput? && n <= |s.properties|
    requires AllUnconstrained(s, n) && PropsInhabit(s, n, v)
    ensures PropsErrors(s, n, v, path, host) == []
    decreases s, 0, n
  {
    if n > 0 {
      var (key, prop) := s.properties[n - 1];
      InferredPropsPass(s, n - 1, v, path, host);
      if !Member(v, key).Undef? {
        InferredValuesPass(prop, Member(v, key), PropertyPath(path, key), host);
      }
      assert PropsErrors(s, n, v, path, host) ==
             PropsErrors(s, n - 1, v, path, host) + EvalErrors(prop, Member(v, key), PropertyPath(path, key), host);
    }
  }

  /**
   * The converse fails: an optional item schema lets a null item through,
   * although `InferedInput` of the array has no room for null.
   */
  lemma NullItemPassesButIsNotInferred(host: Host)
    ensures var s := ArrayInput(StringInput(None, None, None, None, None, false), None, None, false);
            Evaluate(s, Arr([Null]), "", host).Success? && !Inhabits(s, Arr([Null]))
  {
    var s := ArrayInput(StringInput(None, None, None, None, None, false), None, None, false);
    assert ItemsErrors(s, [Null], 1, "", host) == [];
  }
}
