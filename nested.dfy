/**
 * Dotted-path addressing into value trees (`getNestedValue` and
 * `setNestedValue`). A path is split on "."; a segment that is all digits
 * is an array index when writing.
 */
module Nested {
  import opened Text
  import opened Values

  /** `path.split(".")`. */
  function Segments(path: string): (parts: seq<string>)
    ensures |parts| >= 1
  {
    Split(path, '.')
  }

  /** `/^\d+$/.test(segment)`: the writer treats this segment as an array index. */
  predicate IsIndexSegment(segment: string)
  {
    IsDigits(segment)
  }

  // ---------------------------------------------------------------------
  // Reading

  /** The `reduce((acc, part) => acc?.[part], obj)` walk. */
  function GetPath(v: Value, parts: seq<string>): Value
    decreases |parts|
  {
    if parts == [] then v else GetPath(Member(v, parts[0]), parts[1..])
  }

  /** `getNestedValue(obj, path)`. */
  function GetNestedValue(obj: Value, path: string): Value
  {
    GetPath(obj, Segments(path))
  }

  /** A rule field such as "tags.length" reads an array's own `length`, which is not an index key. */
  lemma ArrayLengthIsRead(es: Entries, key: string, xs: seq<Value>)
    requires '.' !in key && Lookup(es, key) == Arr(xs)
    ensures GetNestedValue(Obj(es), key + ".length") == Num(|xs|)
  {
    var parts := [key, "length"];
    assert '.' !in parts[1];
    SplitJoin(parts, '.');
    assert Join(parts, ".") == key + ".length";
    assert Segments(key + ".length") == parts;
    assert !IsDigit("length"[0]);
    assert Member(Arr(xs), "length") == Num(|xs|);
    assert parts[1..] == ["length"] && ["length"][1..] == [];
    assert GetPath(Obj(es), parts) == GetPath(Arr(xs), ["length"]);
    assert GetPath(Arr(xs), ["length"]) == GetPath(Num(|xs|), []);
  }

  lemma {:induction false} GetPathAppend(v: Value, a: seq<string>, b: seq<string>)
    ensures GetPath(v, a + b) == GetPath(GetPath(v, a), b)
    decreases |a|
  {
    if a != [] {
      assert (a + b)[1..] == a[1..] + b;
      GetPathAppend(Member(v, a[0]), a[1..], b);
    } else {
      assert a + b == b;
    }
  }

  lemma {:induction false} AbsentStaysAbsent(v: Value, parts: seq<string>)
    requires v.Undef? || v.Null?
    requires parts != []
    ensures GetPath(v, parts) == Undef
    decreases |parts|
  {
    if |parts| > 1 {
      AbsentStaysAbsent(Member(v, parts[0]), parts[1..]);
    }
  }

  /** Once an intermediate is null or undefined the walk yields undefined instead of failing. */
  lemma GetStopsAtAbsent(v: Value, parts: seq<string>, i: nat)
    requires i < |parts|
    requires GetPath(v, parts[..i]).Undef? || GetPath(v, parts[..i]).Null?
    ensures GetPath(v, parts) == Undef
  {
    assert parts == parts[..i] + parts[i..];
    GetPathAppend(v, parts[..i], parts[i..]);
    AbsentStaysAbsent(GetPath(v, parts[..i]), parts[i..]);
  }

  // ---------------------------------------------------------------------
  // Writing: the specification

  /** `arr[n] = v`: overwrite, or grow the array with holes (read as undefined) up to `n`. */
  function WriteIndex(xs: seq<Value>, n: nat, v: Value): (r: seq<Value>)
    ensures |r| == if n < |xs| then |xs| else n + 1
    ensures r[n] == v
    ensures forall m :: 0 <= m < |xs| && m != n ==> r[m] == xs[m]
    ensures forall m :: |xs| <= m < n ==> r[m] == Undef
  {
    if n < |xs| then xs[n := v] else xs + seq(n - |xs|, _ => Undef) + [v]
  }

  /** `nextIsIndex ? [] : {}`: the container created for a missing intermediate. */
  function FreshFor(next: string): Value
  {
    if IsIndexSegment(next) then Arr([]) else Obj([])
  }

  /** The element or property the writer reads at `key` (`Number(key)` for an index). */
  function RawChild(cur: Value, key: string): Value
  {
    if IsIndexSegment(key) then
      (if cur.Arr? && DigitsValue(key) < |cur.elems| then cur.elems[DigitsValue(key)] else Undef)
    else if cur.Obj? then Lookup(cur.entries, key)
    else Undef
  }

  /** The intermediate the writer descends into: an existing object or array is kept, anything else is replaced. */
  function ChildFor(cur: Value, key: string, next: string): (c: Value)
    ensures IsObjectLike(c)
  {
    var child := RawChild(cur, key);
    if IsObjectLike(child) then child else FreshFor(next)
  }

  /**
   * The paths the model covers: a named segment always lands on a plain
   * object (writing a named property onto an array or a Date is left out).
   */
  predicate Supported(cur: Value, parts: seq<string>)
    decreases |parts|
  {
    |parts| >= 1 &&
    (IsIndexSegment(parts[0]) || cur.Obj?) &&
    (|parts| == 1 || Supported(ChildFor(cur, parts[0], parts[1]), parts[1..]))
  }

  /**
   * The value of container `cur` after writing `v` at `parts` below it.
   * At an index segment a container that is not an array is replaced by a
   * fresh array.
   */
  function Descend(cur: Value, parts: seq<string>, v: Value): Value
    requires Supported(cur, parts)
    decreases |parts|
  {
    var key := parts[0];
    if IsIndexSegment(key) then
      var xs := if cur.Arr? then cur.elems else [];
      var below := if |parts| == 1 then v else Descend(ChildFor(cur, key, parts[1]), parts[1..], v);
      Arr(WriteIndex(xs, DigitsValue(key), below))
    else
      var below := if |parts| == 1 then v else Descend(ChildFor(cur, key, parts[1]), parts[1..], v);
      Obj(Put(cur.entries, key, below))
  }

  /** The safety valve: an index as first segment on a root that is not an array. */
  predicate IsNoOp(root: Value, parts: seq<string>)
    requires |parts| >= 1
  {
    IsIndexSegment(parts[0]) && !root.Arr?
  }

  predicate CanSet(root: Value, parts: seq<string>)
  {
    (root.Obj? || root.Arr?) && |parts| >= 1 && (IsNoOp(root, parts) || Supported(root, parts))
  }

  /** The tree after `setNestedValue(root, parts.join("."), v)`. */
  function SetPath(root: Value, parts: seq<string>, v: Value): Value
    requires CanSet(root, parts)
  {
    if IsNoOp(root, parts) then root else Descend(root, parts, v)
  }

  // ---------------------------------------------------------------------
  // Writing: the in-place loop

  /**
   * One enclosing container on the way down, with the hole the walk went
   * through: the pair (`parent`, `parentKey`) of the source's loop.
   */
  datatype Frame = InObj(entries: Entries, key: string) | InArr(elems: seq<Value>, index: nat)

  function Fill(f: Frame, v: Value): Value
  {
    match f
    case InObj(es, k) => Obj(Put(es, k, v))
    case InArr(xs, n) => Arr(WriteIndex(xs, n, v))
  }

  /** The whole tree, given the chain of enclosing containers and the container at the bottom. */
  function Plug(frames: seq<Frame>, v: Value): Value
  {
    if frames == [] then v else Plug(frames[..|frames| - 1], Fill(frames[|frames| - 1], v))
  }

  lemma PlugPush(frames: seq<Frame>, f: Frame, v: Value)
    ensures Plug(frames + [f], v) == Plug(frames, Fill(f, v))
  {
    assert (frames + [f])[..|frames|] == frames;
  }

  lemma {:induction false} WriteIndexTwice(xs: seq<Value>, n: nat, a: Value, b: Value)
    ensures WriteIndex(WriteIndex(xs, n, a), n, b) == WriteIndex(xs, n, b)
  {
    var lhs := WriteIndex(WriteIndex(xs, n, a), n, b);
    var rhs := WriteIndex(xs, n, b);
    assert |lhs| == |rhs|;
    forall m | 0 <= m < |lhs| ensures lhs[m] == rhs[m] {
    }
  }

  /** An index step on a container that is not an array works as on a fresh empty array. */
  lemma IndexOnNonArray(cur: Value, rest: seq<string>, v: Value)
    requires Supported(cur, rest) && IsIndexSegment(rest[0]) && !cur.Arr?
    ensures Supported(Arr([]), rest)
    ensures Descend(Arr([]), rest, v) == Descend(cur, rest, v)
  {
    var key := rest[0];
    assert RawChild(cur, key) == Undef == RawChild(Arr([]), key);
    if |rest| > 1 {
      assert ChildFor(Arr([]), key, rest[1]) == ChildFor(cur, key, rest[1]);
    }
  }

  /** One pass of the loop at an index segment, expressed on the frame it pushes. */
  lemma IndexStep(cur: Value, rest: seq<string>, v: Value, xs: seq<Value>, child: Value)
    requires cur.Arr? && |rest| >= 2 && IsIndexSegment(rest[0]) && Supported(cur, rest)
    requires child == ChildFor(cur, rest[0], rest[1])
    requires xs == if IsObjectLike(RawChild(cur, rest[0])) then cur.elems
                   else WriteIndex(cur.elems, DigitsValue(rest[0]), child)
    ensures Supported(child, rest[1..])
    ensures Fill(InArr(xs, DigitsValue(rest[0])), Descend(child, rest[1..], v)) == Descend(cur, rest, v)
  {
    WriteIndexTwice(cur.elems, DigitsValue(rest[0]), child, Descend(child, rest[1..], v));
  }

  /** One pass of the loop at a named segment, expressed on the frame it pushes. */
  lemma NameStep(cur: Value, rest: seq<string>, v: Value, es: Entries, child: Value)
    requires |rest| >= 2 && !IsIndexSegment(rest[0]) && Supported(cur, rest)
    requires child == ChildFor(cur, rest[0], rest[1])
    requires es == if IsObjectLike(RawChild(cur, rest[0])) then cur.entries
                   else Put(cur.entries, rest[0], child)
    ensures Supported(child, rest[1..])
    ensures Fill(InObj(es, rest[0]), Descend(child, rest[1..], v)) == Descend(cur, rest, v)
  {
    PutPut(cur.entries, rest[0], child, Descend(child, rest[1..], v));
  }

  /**
   * One pass of the loop below the last segment: the container the walk is
   * in becomes `frame` (an array where the segment is an index, replacing
   * whatever was there), and `child` is the existing object or array at the
   * segment, or the fresh `nextIsIndex ? [] : {}` written there.
   */
  method Enter(current: Value, rest: seq<string>, ghost v: Value) returns (frame: Frame, child: Value)
    requires |rest| >= 2 && Supported(current, rest)
    ensures IsObjectLike(child) && Supported(child, rest[1..])
    ensures Fill(frame, Descend(child, rest[1..], v)) == Descend(current, rest, v)
  {
    var rawKey := rest[0];
    var nextIsIndex := IsIndexSegment(rest[1]);
    if IsIndexSegment(rawKey) {
      var cur := current;
      if !cur.Arr? {
        IndexOnNonArray(cur, rest, v);
        cur := Arr([]);
      }
      var n := DigitsValue(rawKey);
      var xs := cur.elems;
      child := if n < |xs| then xs[n] else Undef;
      if child.Undef? || child.Null? || !IsObjectLike(child) {
        xs := WriteIndex(xs, n, if nextIsIndex then Arr([]) else Obj([]));
        child := xs[n];
      }
      IndexStep(cur, rest, v, xs, child);
      frame := InArr(xs, n);
    } else {
      var es := current.entries;
      child := Lookup(es, rawKey);
      if child.Undef? || child.Null? || !IsObjectLike(child) {
        es := Put(es, rawKey, if nextIsIndex then Arr([]) else Obj([]));
        PutLookup(current.entries, rawKey, FreshFor(rest[1]), rawKey);
        child := Lookup(es, rawKey);
      }
      NameStep(current, rest, v, es, child);
      frame := InObj(es, rawKey);
    }
  }

  /** The write at the last segment, into the container the walk reached. */
  method WriteLast(current: Value, rawKey: string, value: Value) returns (r: Value)
    requires Supported(current, [rawKey])
    ensures r == Descend(current, [rawKey], value)
  {
    if IsIndexSegment(rawKey) {
      var xs := if current.Arr? then current.elems else [];
      r := Arr(WriteIndex(xs, DigitsValue(rawKey), value));
    } else {
      r := Obj(Put(current.entries, rawKey, value));
    }
  }

  /**
   * `setNestedValue(obj, path, value)`: walks the segments keeping the
   * container reached (`current`) and the chain of its parents, creating or
   * replacing intermediates, and writes at the last segment.
   */
  method SetNestedValue(root: Value, path: string, value: Value) returns (updated: Value)
    requires CanSet(root, Segments(path))
    ensures updated == SetPath(root, Segments(path), value)
  {
    var parts := Segments(path);
    if IsIndexSegment(parts[0]) && !root.Arr? {
      // The root is never replaced: an index on a root that is not an array does nothing.
      return root;
    }
    var current := root;
    var frames: seq<Frame> := [];
    var i := 0;
    while i < |parts| - 1
      invariant 0 <= i <= |parts| - 1
      invariant IsObjectLike(current) && Supported(current, parts[i..])
      invariant Plug(frames, Descend(current, parts[i..], value)) == SetPath(root, parts, value)
    {
      var frame, child := Enter(current, parts[i..], value);
      assert parts[i..][1..] == parts[i + 1..];
      PlugPush(frames, frame, Descend(child, parts[i + 1..], value));
      frames := frames + [frame];
      current := child;
      i := i + 1;
    }
    assert parts[i..] == [parts[i]];
    var bottom := WriteLast(current, parts[i], value);
    updated := Plug(frames, bottom);
  }

  // ---------------------------------------------------------------------
  // Properties of writing

  /** Every index segment is written the way JavaScript prints an index ("7", not "07"). */
  predicate CanonicalIndices(parts: seq<string>)
  {
    forall i :: 0 <= i < |parts| && IsIndexSegment(parts[i]) ==> IsCanonicalIndex(parts[i])
  }

  /** Dropping the first segment keeps every index segment canonical. */
  lemma CanonicalIndicesTail(parts: seq<string>)
    requires |parts| >= 1 && CanonicalIndices(parts)
    ensures CanonicalIndices(parts[1..])
  {
    forall i | 0 <= i < |parts[1..]| && IsIndexSegment(parts[1..][i])
      ensures IsCanonicalIndex(parts[1..][i])
    {
      assert parts[1..][i] == parts[i + 1];
    }
  }

  lemma {:induction false} DescendThenGet(cur: Value, parts: seq<string>, v: Value)
    requires Supported(cur, parts)
    requires CanonicalIndices(parts)
    ensures GetPath(Descend(cur, parts, v), parts) == v
    decreases |parts|
  {
    var key := parts[0];
    if |parts| > 1 {
      CanonicalIndicesTail(parts);
      DescendThenGet(ChildFor(cur, key, parts[1]), parts[1..], v);
    }
    ReadWrittenSegment(cur, parts, v);
  }

  /** The first segment of a write reads back what was written below it. */
  lemma ReadWrittenSegment(cur: Value, parts: seq<string>, v: Value)
    requires Supported(cur, parts) && CanonicalIndices(parts)
    ensures Member(Descend(cur, parts, v), parts[0]) ==
              if |parts| == 1 then v else Descend(ChildFor(cur, parts[0], parts[1]), parts[1..], v)
  {
    var key := parts[0];
    var below := if |parts| == 1 then v else Descend(ChildFor(cur, key, parts[1]), parts[1..], v);
    if IsIndexSegment(key) {
      assert IsCanonicalIndex(parts[0]);
    } else {
      PutLookup(cur.entries, key, below, key);
    }
  }

  /** After a write that is not the no-op, reading the same path gives the written value. */
  lemma SetThenGet(root: Value, path: string, v: Value)
    requires CanSet(root, Segments(path)) && !IsNoOp(root, Segments(path))
    requires CanonicalIndices(Segments(path))
    ensures GetNestedValue(SetPath(root, Segments(path), v), path) == v
  {
    DescendThenGet(root, Segments(path), v);
  }

  /**
   * The round trip needs canonical indices: "a.01" is written at index 1
   * (through `Number`) but read back as the property "01", which arrays lack.
   */
  lemma LeadingZeroIndexIsNotReadBack()
    ensures Segments("a.01") == ["a", "01"]
    ensures SetPath(Obj([]), ["a", "01"], Num(7)) == Obj([("a", Arr([Undef, Num(7)]))])
    ensures GetNestedValue(Obj([("a", Arr([Undef, Num(7)]))]), "a.01") == Undef
  {
    LeadingZeroSegments();
    LeadingZeroWrite();
    assert !IsCanonicalIndex("01");
  }

  lemma LeadingZeroSegments()
    ensures Segments("a.01") == ["a", "01"]
  {
    assert Join(["a", "01"], ".") == "a.01";
    SplitJoin(["a", "01"], '.');
  }

  lemma LeadingZeroWrite()
    ensures SetPath(Obj([]), ["a", "01"], Num(7)) == Obj([("a", Arr([Undef, Num(7)]))])
  {
    var parts := ["a", "01"];
    assert parts[1..] == ["01"];
    assert ChildFor(Obj([]), "a", "01") == Arr([]);
    assert DigitsValue("01") == 1;
    assert WriteIndex([], 1, Num(7)) == [Undef, Num(7)];
  }

  /** An index as first segment leaves a root that is not an array untouched. */
  lemma NoOpOnRoot(root: Value, path: string, v: Value)
    requires root.Obj? && IsIndexSegment(Segments(path)[0])
    ensures CanSet(root, Segments(path))
    ensures SetPath(root, Segments(path), v) == root
  {
  }

  /**
   * A numeric last segment under a property holding an object replaces that
   * object with a fresh array that holds only the written element.
   */
  lemma IndexReplacesMap(es: Entries, key: string, index: string, v: Value)
    requires !IsIndexSegment(key) && IsIndexSegment(index)
    requires Lookup(es, key).Obj?
    ensures CanSet(Obj(es), [key, index])
    ensures Member(SetPath(Obj(es), [key, index], v), key)
         == Arr(seq(DigitsValue(index), _ => Undef) + [v])
  {
    var parts := [key, index];
    assert parts[1..] == [index];
    assert Supported(Obj(es), parts);
    PutLookup(es, key, Descend(ChildFor(Obj(es), key, index), [index], v), key);
  }

  /** A missing, null or primitive intermediate is replaced by `[]` before an index and `{}` before a name. */
  lemma FreshIntermediate(cur: Value, key: string, next: string)
    requires !IsObjectLike(RawChild(cur, key))
    ensures ChildFor(cur, key, next) == if IsIndexSegment(next) then Arr([]) else Obj([])
  {
  }

  /**
   * Two segments address different slots of one container. Writing an
   * element may grow the array, so its `length` is never off the path of an
   * index write.
   */
  predicate Diverges(p: string, q: string)
  {
    if IsIndexSegment(p) then !(IsCanonicalIndex(q) && DigitsValue(q) == DigitsValue(p)) && q != "length"
    else p != q
  }

  /**
   * The walk down `parts` for `j` steps finds containers of the right kind
   * already in place, so nothing on the way is replaced.
   */
  predicate KeptAlong(cur: Value, parts: seq<string>, j: nat)
    decreases j
  {
    |parts| >= 1 &&
    (IsIndexSegment(parts[0]) ==> cur.Arr?) &&
    (j > 0 ==>
      |parts| >= 2 && IsObjectLike(RawChild(cur, parts[0])) &&
      KeptAlong(RawChild(cur, parts[0]), parts[1..], j - 1))
  }

  /** An index write leaves the array one past the written index, or as long as it was. */
  lemma LengthAfterIndexWrite(cur: Value, parts: seq<string>, v: Value)
    requires Supported(cur, parts) && IsIndexSegment(parts[0]) && cur.Arr?
    ensures Member(Descend(cur, parts, v), "length") ==
              Num(if DigitsValue(parts[0]) < |cur.elems| then |cur.elems| else DigitsValue(parts[0]) + 1)
  {
    assert !IsDigit("length"[0]);
  }

  lemma {:induction false} DescendOneLevel(cur: Value, parts: seq<string>, v: Value, k: string)
    requires Supported(cur, parts) && KeptAlong(cur, parts, 0)
    requires Diverges(parts[0], k)
    ensures Member(Descend(cur, parts, v), k) == Member(cur, k)
  {
    var key := parts[0];
    var below := if |parts| == 1 then v else Descend(ChildFor(cur, key, parts[1]), parts[1..], v);
    if !IsIndexSegment(key) {
      PutLookup(cur.entries, key, below, k);
    }
  }

  /**
   * Every key or element off the written path keeps its value: a path that
   * leaves the written one after `j` common segments reads the same before
   * and after, as long as the containers on the common part were kept.
   */
  lemma {:induction false} OffPathUnchanged(cur: Value, parts: seq<string>, v: Value, q: seq<string>, j: nat)
    requires Supported(cur, parts) && CanonicalIndices(parts)
    requires j < |parts| && j < |q| && q[..j] == parts[..j] && Diverges(parts[j], q[j])
    requires KeptAlong(cur, parts, j)
    ensures GetPath(Descend(cur, parts, v), q) == GetPath(cur, q)
    decreases j
  {
    var key := parts[0];
    if j == 0 {
      DescendOneLevel(cur, parts, v, q[0]);
    } else {
      assert q[0] == key by { assert q[..j][0] == parts[..j][0]; }
      var child := RawChild(cur, key);
      assert ChildFor(cur, key, parts[1]) == child;
      CanonicalIndicesTail(parts);
      assert q[1..][..j - 1] == parts[1..][..j - 1];
      OffPathUnchanged(child, parts[1..], v, q[1..], j - 1);
      ReadWrittenSegment(cur, parts, v);
      if IsIndexSegment(key) {
        assert IsCanonicalIndex(parts[0]);
        assert Member(cur, key) == child;
      }
    }
  }
}
