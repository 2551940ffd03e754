/**
 * PHP's associative arrays as the gateway's code uses them: insertion-ordered
 * maps, where assigning to an existing key overwrites the value in place and
 * keeps the key's position, and a new key goes to the end.
 */
module PhpArrays {
  import opened PhpStrings

  type Assoc<K, V> = seq<(K, V)>

  function Keys<K, V>(a: Assoc<K, V>): (ks: seq<K>)
    ensures |ks| == |a|
    ensures forall i :: 0 <= i < |a| ==> ks[i] == a[i].0
  {
    if a == [] then [] else [a[0].0] + Keys(a[1..])
  }

  predicate UniqueKeys<K(==), V>(a: Assoc<K, V>)
  {
    forall i, j :: 0 <= i < j < |a| ==> a[i].0 != a[j].0
  }

  predicate HasKey<K(==), V>(a: Assoc<K, V>, k: K)
  {
    exists i :: 0 <= i < |a| && a[i].0 == k
  }

  /** Position of the key in the array, if present. */
  function IndexOf<K(==), V>(a: Assoc<K, V>, k: K): (r: Option<nat>)
    ensures r.None? <==> !HasKey(a, k)
    ensures r.Some? ==> r.value < |a| && a[r.value].0 == k
    ensures r.Some? ==> forall j :: 0 <= j < r.value ==> a[j].0 != k
  {
    if a == [] then None
    else if a[0].0 == k then Some(0)
    else
      match IndexOf(a[1..], k)
      case Some(i) => Some(i + 1)
      case None => None
  }

  /** `$a[$k]` for a key that may be missing. */
  function Lookup<K(==), V>(a: Assoc<K, V>, k: K): Option<V>
  {
    match IndexOf(a, k)
    case Some(i) => Some(a[i].1)
    case None => None
  }

  /** `$a[$k] = $v`: overwrite in place when the key exists, append otherwise. */
  function Put<K(==), V>(a: Assoc<K, V>, k: K, v: V): (r: Assoc<K, V>)
    ensures HasKey(a, k) ==> Keys(r) == Keys(a)
    ensures !HasKey(a, k) ==> r == a + [(k, v)]
    ensures forall i :: 0 <= i < |a| && a[i].0 != k ==> r[i] == a[i]
    ensures HasKey(r, k)
  {
    match IndexOf(a, k)
    case Some(i) =>
      var r := a[i := (k, v)];
      assert Keys(r) == Keys(a);
      r
    case None =>
      var r := a + [(k, v)];
      assert r[|a|].0 == k;
      r
  }

  /** The first position holding the key is the one IndexOf reports. */
  lemma {:induction false} IndexOfFirst<K, V>(a: Assoc<K, V>, k: K, i: nat)
    requires i < |a| && a[i].0 == k
    requires forall j :: 0 <= j < i ==> a[j].0 != k
    ensures IndexOf(a, k) == Some(i)
  {
    if i > 0 {
      IndexOfFirst(a[1..], k, i - 1);
    }
  }

  /** After `$a[$k] = $v`, reading `$a[$k]` gives $v. */
  lemma LookupPut<K, V>(a: Assoc<K, V>, k: K, v: V)
    ensures Lookup(Put(a, k, v), k) == Some(v)
  {
    var r := Put(a, k, v);
    match IndexOf(a, k)
    case Some(i) =>
      IndexOfFirst(r, k, i);
    case None =>
      forall j | 0 <= j < |a| ensures r[j].0 != k {
        assert r[j] == a[j];
      }
      IndexOfFirst(r, k, |a|);
  }

  /** Reading a key of an array that starts with x: x's value when x holds the key, else a read of the rest. */
  lemma LookupCons<K, V>(x: (K, V), rest: Assoc<K, V>, key: K)
    ensures Lookup([x] + rest, key) == if x.0 == key then Some(x.1) else Lookup(rest, key)
  {
    var a := [x] + rest;
    assert a[0] == x && a[1..] == rest;
  }

  /** Reading a key of a non-empty array: the first entry's value when it holds the key, else a read of the rest. */
  lemma LookupTail<K, V>(a: Assoc<K, V>, key: K)
    requires a != []
    ensures Lookup(a, key) == if a[0].0 == key then Some(a[0].1) else Lookup(a[1..], key)
  {
  }

  /** Assigning one key leaves what every other key reads unchanged. */
  lemma LookupPutOther<K, V>(a: Assoc<K, V>, k: K, v: V, j: K)
    requires j != k
    ensures Lookup(Put(a, k, v), j) == Lookup(a, j)
  {
    var r := Put(a, k, v);
    assert forall m :: 0 <= m < |a| ==> r[m].0 == a[m].0 by {
      if HasKey(a, k) {
        forall m | 0 <= m < |a| ensures r[m].0 == a[m].0 {
          assert Keys(r)[m] == Keys(a)[m];
        }
      }
    }
    match IndexOf(a, j)
    case Some(i) =>
      IndexOfFirst(r, j, i);
    case None =>
      assert !HasKey(r, j);
  }

  /** Assignment keeps keys unique. */
  lemma PutUnique<K, V>(a: Assoc<K, V>, k: K, v: V)
    requires UniqueKeys(a)
    ensures UniqueKeys(Put(a, k, v))
  {
    var r := Put(a, k, v);
    if !HasKey(a, k) {
      forall i, j | 0 <= i < j < |r| ensures r[i].0 != r[j].0 {
        if j == |a| { assert r[i] == a[i]; }
      }
    } else {
      assert Keys(r) == Keys(a);
      forall i, j | 0 <= i < j < |r| ensures r[i].0 != r[j].0 {
        assert Keys(r)[i] == Keys(a)[i] && Keys(r)[j] == Keys(a)[j];
      }
    }
  }

  /** `array_merge($a, $b)` for string keys: every entry of b is assigned into a, in order. */
  function Merge<K(==), V>(a: Assoc<K, V>, b: Assoc<K, V>): Assoc<K, V>
    decreases b
  {
    if b == [] then a else Merge(Put(a, b[0].0, b[0].1), b[1..])
  }

  /** When no key of b is already in a, merging appends b behind a unchanged. */
  lemma {:induction false} MergeDisjoint<K, V>(a: Assoc<K, V>, b: Assoc<K, V>)
    decreases b
    requires UniqueKeys(b)
    requires forall i :: 0 <= i < |b| ==> !HasKey(a, b[i].0)
    ensures Merge(a, b) == a + b
  {
    if b != [] {
      var a' := Put(a, b[0].0, b[0].1);
      assert a' == a + [b[0]];
      forall i | 0 <= i < |b[1..]|
        ensures !HasKey(a', b[1..][i].0)
      {
        var k := b[i + 1].0;
        assert b[1..][i] == b[i + 1];
        assert !HasKey(a, k) && b[0].0 != k;
        forall j | 0 <= j < |a'| ensures a'[j].0 != k {
          if j < |a| { assert a'[j] == a[j]; }
        }
      }
      MergeDisjoint(a', b[1..]);
      assert a + [b[0]] + b[1..] == a + b;
    }
  }

  /**
   * A PHP value as it can appear in the diagnostic arrays: scalars and nested
   * arrays with string keys.
   */
  datatype PhpValue =
    | Null
    | Bool(b: bool)
    | Int(i: int)
    | Str(s: string)
    | Arr(entries: seq<(string, PhpValue)>)

  /** String conversion of a scalar, as string concatenation performs it. */
  function ScalarToString(v: PhpValue): string
  {
    match v
    case Null => ""
    case Bool(b) => if b then "1" else ""
    case Int(i) => IntToString(i)
    case Str(s) => s
    case Arr(_) => "Array"
  }
}
