/**
 * The editing rules of the record input: the value is read as a map of
 * entries, and renaming, removing and adding a key each build a new map
 * from a copy (`None` when the edit is refused and nothing is emitted).
 */
module RecordEditor {
  import opened Wrappers
  import opened Text
  import opened Values
  import opened Foreign
  import opened Descriptors
  import opened Defaults

  /** `recordValue`: a truthy non-array object is read as a map; anything else as the empty map. */
  function RecordValue(value: Value): (es: Entries)
    ensures value.Obj? ==> es == value.entries
    ensures !value.Obj? ==> es == []
  {
    if Truthy(value) && IsObjectLike(value) && !value.Arr? then
      (if value.Obj? then value.entries else [])
    else []
  }

  /** `renameKey(oldKey, newKey)`: the old key's value moves to the trimmed new key. */
  function RenameKey(rec: Entries, oldKey: string, newKey: string): Option<Entries>
  {
    var k := Trim(newKey);
    if k == "" || k == oldKey || HasKey(rec, k) then None
    else Some(Remove(Put(rec, k, Lookup(rec, oldKey)), oldKey))
  }

  /** `removeKey(k)`. */
  function RemoveKey(rec: Entries, k: string): Entries
  {
    Remove(rec, k)
  }

  /** `addKey()`: the trimmed text of the new-key box gets the value schema's default. */
  function AddKey(rec: Entries, text: string, valueSchema: Descriptor, host: Host): Option<Entries>
  {
    var k := Trim(text);
    if k == "" || HasKey(rec, k) then None
    else Some(Put(rec, k, InitialValue(valueSchema, host)))
  }

  /** A rename is refused exactly when the trimmed name is empty, unchanged or already taken. */
  lemma RenameRefused(rec: Entries, oldKey: string, newKey: string)
    ensures RenameKey(rec, oldKey, newKey).None? <==>
              Trim(newKey) == "" || Trim(newKey) == oldKey || HasKey(rec, Trim(newKey))
  {
  }

  /**
   * An accepted rename of a present key: the new key holds the old key's
   * value, the old key is gone, every other key keeps its value, and the
   * number of entries is unchanged.
   */
  lemma RenameMovesValue(rec: Entries, oldKey: string, newKey: string, other: string)
    requires UniqueKeys(rec) && HasKey(rec, oldKey)
    requires RenameKey(rec, oldKey, newKey).Some?
    ensures var r := RenameKey(rec, oldKey, newKey).value;
            Lookup(r, Trim(newKey)) == Lookup(rec, oldKey) &&
            !HasKey(r, oldKey) &&
            (other != oldKey && other != Trim(newKey) ==> Lookup(r, other) == Lookup(rec, other)) &&
            |r| == |rec| && UniqueKeys(r)
  {
    var k := Trim(newKey);
    var moved := Put(rec, k, Lookup(rec, oldKey));
    PutAppend(rec, k, Lookup(rec, oldKey));
    PutUnique(rec, k, Lookup(rec, oldKey));
    PutLookup(rec, k, Lookup(rec, oldKey), other);
    PutLookup(rec, k, Lookup(rec, oldKey), oldKey);
    assert HasKey(moved, oldKey) by {
      var i :| 0 <= i < |rec| && Keys(rec)[i] == oldKey;
      assert Keys(moved)[i] == oldKey;
    }
    RemoveKeys(moved, oldKey);
    RemoveLookup(moved, oldKey, k);
    RemoveLookup(moved, oldKey, other);
  }

  /** Removing deletes exactly that key: it is gone, the others keep their values, and one entry fewer remains. */
  lemma RemoveDeletesOne(rec: Entries, k: string, other: string)
    requires UniqueKeys(rec)
    ensures !HasKey(RemoveKey(rec, k), k)
    ensures other != k ==> Lookup(RemoveKey(rec, k), other) == Lookup(rec, other)
    ensures HasKey(rec, k) ==> |RemoveKey(rec, k)| == |rec| - 1
    ensures !HasKey(rec, k) ==> RemoveKey(rec, k) == rec
  {
    RemoveLookup(rec, k, other);
    RemoveKeys(rec, k);
  }

  /**
   * An add is refused exactly when the trimmed name is empty or taken;
   * otherwise it appends one entry holding the value schema's default.
   */
  lemma AddAppendsOne(rec: Entries, text: string, valueSchema: Descriptor, host: Host)
    requires UniqueKeys(rec)
    ensures AddKey(rec, text, valueSchema, host).None? <==> Trim(text) == "" || HasKey(rec, Trim(text))
    ensures AddKey(rec, text, valueSchema, host).Some? ==>
              AddKey(rec, text, valueSchema, host).value == rec + [(Trim(text), InitialValue(valueSchema, host))] &&
              UniqueKeys(AddKey(rec, text, valueSchema, host).value)
  {
    var k := Trim(text);
    if k != "" && !HasKey(rec, k) {
      PutAppend(rec, k, InitialValue(valueSchema, host));
      PutUnique(rec, k, InitialValue(valueSchema, host));
    }
  }
}
