/**
 * JSON-like value trees as JavaScript sees them at run time: `undefined`,
 * `null`, booleans, numbers (integers here), strings, `Date` objects,
 * arrays and plain objects. A plain object is an ordered list of entries
 * because insertion order decides the order of defaults and of errors.
 */
module Values {
  import opened Text

  datatype Value =
    | Undef
    | Null
    | Bool(b: bool)
    | Num(n: int)
    | Str(s: string)
    | Date(time: int)
    | Arr(elems: seq<Value>)
    | Obj(entries: seq<(string, Value)>)

  type Entries = seq<(string, Value)>

  /** `Object.keys` of a plain object (or of a descriptor's property list), in insertion order. */
  function Keys<T>(es: seq<(string, T)>): (ks: seq<string>)
    ensures |ks| == |es|
    ensures forall i :: 0 <= i < |es| ==> ks[i] == es[i].0
  {
    seq(|es|, i requires 0 <= i < |es| => es[i].0)
  }

  predicate HasKey(es: Entries, k: string)
  {
    k in Keys(es)
  }

  /** What every JavaScript object guarantees: a key occurs at most once. */
  predicate UniqueKeys(es: Entries)
  {
    forall i, j :: 0 <= i < j < |es| ==> es[i].0 != es[j].0
  }

  /** `obj[k]` on a plain object: the entry's value, or `undefined` when the key is absent. */
  function Lookup(es: Entries, k: string): Value
  {
    if es == [] then Undef
    else if es[0].0 == k then es[0].1
    else Lookup(es[1..], k)
  }

  /** `obj[k] = v`: an existing key keeps its place, a new key goes last. */
  function Put(es: Entries, k: string, v: Value): Entries
  {
    if es == [] then [(k, v)]
    else if es[0].0 == k then [(k, v)] + es[1..]
    else [es[0]] + Put(es[1..], k, v)
  }

  /** `delete obj[k]`. */
  function Remove(es: Entries, k: string): Entries
  {
    if es == [] then []
    else if es[0].0 == k then Remove(es[1..], k)
    else [es[0]] + Remove(es[1..], k)
  }

  /** JavaScript truthiness. */
  predicate Truthy(v: Value)
  {
    match v
    case Undef => false
    case Null => false
    case Bool(b) => b
    case Num(n) => n != 0
    case Str(s) => s != ""
    case _ => true
  }

  /** `typeof v === "object" && v !== null`. */
  predicate IsObjectLike(v: Value)
  {
    v.Obj? || v.Arr? || v.Date?
  }

  /** A non-null object that is not an array (a `Date` has no own keys). */
  predicate IsMap(v: Value)
  {
    v.Obj? || v.Date?
  }

  /** The `typeof` operator. */
  function TypeOf(v: Value): string
  {
    match v
    case Undef => "undefined"
    case Bool(_) => "boolean"
    case Num(_) => "number"
    case Str(_) => "string"
    case _ => "object"
  }

  /** The index keys of an array, as `Object.keys` lists them. */
  function IndexKeys(n: nat): (ks: seq<string>)
    ensures |ks| == n
    ensures forall i :: 0 <= i < n ==> ks[i] == NatToString(i)
  {
    seq(n, i requires 0 <= i < n => NatToString(i))
  }

  /** `Object.keys(v)` for an object value. */
  function OwnKeys(v: Value): seq<string>
  {
    match v
    case Obj(es) => Keys(es)
    case Arr(xs) => IndexKeys(|xs|)
    case _ => []
  }

  /**
   * `v?.[key]`: optional member access. An array answers its in-range
   * indices and its own `length`; a missing key, any other key on an array
   * and any key on a primitive or a `Date` give `undefined`.
   */
  function Member(v: Value, key: string): Value
  {
    match v
    case Obj(es) => Lookup(es, key)
    case Arr(xs) =>
      if IsCanonicalIndex(key) && DigitsValue(key) < |xs| then xs[DigitsValue(key)]
      else if key == "length" then Num(|xs|)
      else Undef
    case _ => Undef
  }

  lemma {:induction false} LookupFound(es: Entries, k: string)
    requires UniqueKeys(es)
    ensures forall i :: 0 <= i < |es| && es[i].0 == k ==> Lookup(es, k) == es[i].1
  {
    if es != [] {
      forall i | 1 <= i < |es| && es[i].0 == k ensures Lookup(es, k) == es[i].1 {
        assert es[0].0 != k;
        LookupFound(es[1..], k);
        assert es[1..][i - 1] == es[i];
      }
    }
  }

  lemma {:induction false} LookupMissing(es: Entries, k: string)
    requires !HasKey(es, k)
    ensures Lookup(es, k) == Undef
  {
    if es != [] {
      assert Keys(es)[0] == es[0].0;
      assert Keys(es[1..]) == Keys(es)[1..];
      LookupMissing(es[1..], k);
    }
  }

  /** Writing a key and reading it back gives the written value; other keys are untouched. */
  lemma {:induction false} PutLookup(es: Entries, k: string, v: Value, other: string)
    ensures Lookup(Put(es, k, v), k) == v
    ensures other != k ==> Lookup(Put(es, k, v), other) == Lookup(es, other)
  {
    if es != [] && es[0].0 != k {
      PutLookup(es[1..], k, v, other);
    }
  }

  /** Writing a present key keeps every entry's key in place. */
  lemma {:induction false} PutKeysPresent(es: Entries, k: string, v: Value)
    requires HasKey(es, k)
    ensures Keys(Put(es, k, v)) == Keys(es)
  {
    var r := Put(es, k, v);
    var rest := es[1..];
    assert es == [es[0]] + rest;
    KeysCons(es[0], rest);
    if es[0].0 != k {
      var t := Put(rest, k, v);
      HasKeyCons(es[0], rest, k);
      PutKeysPresent(rest, k, v);
      assert r == [es[0]] + t;
      KeysCons(es[0], t);
    } else {
      assert r == [(k, v)] + rest;
      KeysCons((k, v), rest);
    }
  }

  /** Writing a new key appends one entry at the end. */
  lemma {:induction false} PutAppend(es: Entries, k: string, v: Value)
    requires !HasKey(es, k)
    ensures Put(es, k, v) == es + [(k, v)]
  {
    if es != [] {
      assert Keys(es)[0] == es[0].0;
      assert Keys(es[1..]) == Keys(es)[1..];
      PutAppend(es[1..], k, v);
      assert es == [es[0]] + es[1..];
    }
  }

  lemma {:induction false} PutUnique(es: Entries, k: string, v: Value)
    requires UniqueKeys(es)
    ensures UniqueKeys(Put(es, k, v))
  {
    var r := Put(es, k, v);
    if HasKey(es, k) {
      PutKeysPresent(es, k, v);
      forall i, j | 0 <= i < j < |r| ensures r[i].0 != r[j].0 {
        assert Keys(r)[i] == Keys(es)[i] && Keys(r)[j] == Keys(es)[j];
      }
    } else {
      PutAppend(es, k, v);
      forall i, j | 0 <= i < j < |r| ensures r[i].0 != r[j].0 {
        if j == |es| {
          assert Keys(es)[i] == es[i].0;
        }
      }
    }
  }

  /** Writing the same key twice is the same as writing it once with the second value. */
  lemma {:induction false} PutPut(es: Entries, k: string, a: Value, b: Value)
    ensures Put(Put(es, k, a), k, b) == Put(es, k, b)
  {
    if es != [] && es[0].0 != k {
      PutPut(es[1..], k, a, b);
    }
  }

  /** Deleting a key makes it absent and leaves every other key's value unchanged. */
  lemma {:induction false} RemoveLookup(es: Entries, k: string, other: string)
    ensures !HasKey(Remove(es, k), k)
    ensures other != k ==> Lookup(Remove(es, k), other) == Lookup(es, other)
  {
    if es == [] {
      assert Keys(Remove(es, k)) == [];
    } else {
      var t := Remove(es[1..], k);
      RemoveLookup(es[1..], k, other);
      if es[0].0 == k {
        assert Remove(es, k) == t;
      } else {
        assert Remove(es, k) == [es[0]] + t;
        HasKeyCons(es[0], t, k);
      }
    }
  }

  /** Deleting keeps the other keys in order, and removes one entry when the key was present. */
  lemma {:induction false} RemoveKeys(es: Entries, k: string)
    requires UniqueKeys(es)
    ensures UniqueKeys(Remove(es, k))
    ensures HasKey(es, k) ==> |Remove(es, k)| == |es| - 1
    ensures !HasKey(es, k) ==> Remove(es, k) == es
  {
    if es == [] {
      assert Keys(es) == [];
    } else {
      var rest := es[1..];
      var t := Remove(rest, k);
      assert es == [es[0]] + rest;
      HasKeyCons(es[0], rest, k);
      assert UniqueKeys(rest) by {
        forall a, b | 0 <= a < b < |rest| ensures rest[a].0 != rest[b].0 {
          assert rest[a] == es[a + 1] && rest[b] == es[b + 1];
        }
      }
      RemoveKeys(rest, k);
      if es[0].0 == k {
        assert Remove(es, k) == t;
        assert !HasKey(rest, k) by {
          forall j | 0 <= j < |rest| ensures Keys(rest)[j] != k {
            assert rest[j] == es[j + 1];
          }
        }
      } else {
        var r := Remove(es, k);
        assert r == [es[0]] + t;
        forall j | 0 <= j < |t| ensures t[j].0 != es[0].0 {
          RemoveSubset(rest, k, j);
          var m :| 0 <= m < |rest| && rest[m] == t[j];
          assert es[m + 1] == t[j];
        }
      }
    }
  }

  /** A key is in a list exactly when it is the first entry's key or in the rest. */
  lemma HasKeyCons(e: (string, Value), rest: Entries, k: string)
    ensures HasKey([e] + rest, k) <==> e.0 == k || HasKey(rest, k)
  {
    KeysCons(e, rest);
  }

  /** The keys of a list are the first entry's key followed by the keys of the rest. */
  lemma KeysCons(e: (string, Value), rest: Entries)
    ensures Keys([e] + rest) == [e.0] + Keys(rest)
  {
    assert Keys([e] + rest)[0] == e.0;
    assert forall i :: 0 < i <= |rest| ==> Keys([e] + rest)[i] == Keys(rest)[i - 1];
  }

  lemma {:induction false} RemoveSubset(es: Entries, k: string, j: int)
    requires 0 <= j < |Remove(es, k)|
    ensures exists m :: 0 <= m < |es| && es[m] == Remove(es, k)[j]
  {
    if es != [] {
      if es[0].0 == k {
        RemoveSubset(es[1..], k, j);
        var m :| 0 <= m < |es[1..]| && es[1..][m] == Remove(es[1..], k)[j];
        assert es[m + 1] == es[1..][m];
      } else if j == 0 {
        assert es[0] == Remove(es, k)[0];
      } else {
        RemoveSubset(es[1..], k, j - 1);
        var m :| 0 <= m < |es[1..]| && es[1..][m] == Remove(es[1..], k)[j - 1];
        assert es[m + 1] == es[1..][m];
      }
    }
  }

  /** Reading an array element by its printed index gives that element. */
  lemma MemberIndex(xs: seq<Value>, i: nat)
    requires i < |xs|
    ensures Member(Arr(xs), NatToString(i)) == xs[i]
  {
    NatToStringCanonical(i);
  }

  /** Concatenation regroups freely. */
  lemma AppendAssoc<T>(a: seq<T>, b: seq<T>, c: seq<T>)
    ensures (a + b) + c == a + (b + c)
  {
  }

  /** A concatenation is empty exactly when both parts are. */
  lemma AppendEmpty<T>(a: seq<T>, b: seq<T>)
    ensures a + b == [] <==> a == [] && b == []
  {
    assert |a + b| == |a| + |b|;
  }
}
