/**
 * The Ruby values a BlendedHash holds and the parts of Ruby's Hash and Array
 * that `merge` and the default `blend` rely on: an insertion-ordered Hash with
 * `[]` and `[]=`, and `Array#flatten`, `#compact` and `#uniq`.
 */
module Values {
  import opened Wrappers

  /** A hash key: a Ruby symbol, by name. */
  type Key = string

  /** The name of a BlendedHash class (`BlendedHash` itself or a subclass). */
  type KindName = string

  datatype Value =
    | Nil
    | Int(i: int)
    | Str(s: string)
    | Arr(items: seq<Value>)
    | Hash(entries: seq<Entry>)
    | Wrapped(h: BlendedHash)

  /** One key/value pair of a Hash, in insertion order. */
  datatype Entry = Entry(key: Key, val: Value)

  /** An instance of a BlendedHash class: the class it belongs to and the hash it wraps. */
  datatype BlendedHash = BlendedHash(kind: KindName, entries: seq<Entry>)

  /** The instance `kind.new({})`. */
  function Empty(kind: KindName): BlendedHash
  {
    BlendedHash(kind, [])
  }

  // ----- sizes, for termination -----

  function Size(v: Value): nat
  {
    match v
    case Nil => 0
    case Int(_) => 1
    case Str(_) => 1
    case Arr(items) => 1 + SizeSeq(items)
    case Hash(es) => 1 + SizeEntries(es)
    case Wrapped(h) => 1 + SizeEntries(h.entries)
  }

  function SizeSeq(xs: seq<Value>): nat
  {
    if xs == [] then 0 else 1 + Size(xs[0]) + SizeSeq(xs[1..])
  }

  function SizeEntries(es: seq<Entry>): nat
  {
    if es == [] then 0 else 1 + Size(es[0].val) + SizeEntries(es[1..])
  }

  // ----- Hash: insertion-ordered entries -----

  /** The keys of a Hash in insertion order (`Hash#keys`). */
  function Keys(es: seq<Entry>): (r: seq<Key>)
    ensures |r| == |es|
    ensures forall i :: 0 <= i < |es| ==> r[i] == es[i].key
  {
    if es == [] then [] else [es[0].key] + Keys(es[1..])
  }

  predicate Distinct<T(==)>(s: seq<T>)
  {
    forall i, j :: 0 <= i < j < |s| ==> s[i] != s[j]
  }

  /** Ruby hashes never repeat a key. */
  predicate DistinctKeys(es: seq<Entry>)
  {
    Distinct(Keys(es))
  }

  /** `hash[k]`, with the absent key as `None`. */
  function Get(es: seq<Entry>, k: Key): (r: Option<Value>)
    ensures r.Some? <==> k in Keys(es)
  {
    if es == [] then None
    else if es[0].key == k then Some(es[0].val)
    else Get(es[1..], k)
  }

  /** The value `hash[k]` finds is stored with `k`. */
  lemma {:induction false} GetIsStored(es: seq<Entry>, k: Key)
    ensures Get(es, k).Some? ==> Entry(k, Get(es, k).value) in es
  {
    if es != [] && es[0].key != k {
      GetIsStored(es[1..], k);
    }
  }

  /** `hash[k]` is the value of the first entry with key `k`. */
  lemma {:induction false} GetFirst(es: seq<Entry>, k: Key, i: nat)
    requires i < |es| && es[i].key == k && k !in Keys(es[..i])
    ensures Get(es, k) == Some(es[i].val)
  {
    if i > 0 {
      assert es[0].key == Keys(es[..i])[0];
      assert Keys(es[1..][..i - 1]) == Keys(es[..i])[1..] by {
        assert es[1..][..i - 1] == es[..i][1..];
      }
      GetFirst(es[1..], k, i - 1);
    }
  }

  /**
   * `hash[k] = v`: an existing key keeps its position and takes the new value,
   * a new key goes to the end.
   */
  function Put(es: seq<Entry>, k: Key, v: Value): (r: seq<Entry>)
    ensures Keys(r) == if k in Keys(es) then Keys(es) else Keys(es) + [k]
    ensures Get(r, k) == Some(v)
    ensures forall j :: j != k ==> Get(r, j) == Get(es, j)
  {
    if es == [] then [Entry(k, v)]
    else if es[0].key == k then
      var r := [Entry(k, v)] + es[1..];
      assert r[1..] == es[1..];
      r
    else
      var tail := Put(es[1..], k, v);
      var r := [es[0]] + tail;
      assert r[0] == es[0] && r[1..] == tail;
      r
  }

  /** Storing never introduces a repeated key. */
  lemma PutKeepsDistinct(es: seq<Entry>, k: Key, v: Value)
    requires DistinctKeys(es)
    ensures DistinctKeys(Put(es, k, v))
  {
    var ks := Keys(es);
    if k !in ks {
      var ks' := ks + [k];
      forall i, j | 0 <= i < j < |ks'| ensures ks'[i] != ks'[j] {
        if j == |ks| {
          assert ks'[i] in ks;
        }
      }
    }
  }

  // ----- Array#flatten, #compact, #uniq -----

  /** `Array#flatten`: nested arrays, at any depth, replaced by their elements. */
  function Flatten(xs: seq<Value>): (r: seq<Value>)
    ensures forall i :: 0 <= i < |r| ==> !r[i].Arr?
    ensures (forall i :: 0 <= i < |xs| ==> !xs[i].Arr?) ==> r == xs
  {
    if xs == [] then []
    else if xs[0].Arr? then Flatten(xs[0].items) + Flatten(xs[1..])
    else [xs[0]] + Flatten(xs[1..])
  }

  /** Flattening commutes with concatenation. */
  lemma {:induction false} FlattenAppend(xs: seq<Value>, ys: seq<Value>)
    ensures Flatten(xs + ys) == Flatten(xs) + Flatten(ys)
  {
    if xs == [] {
      assert xs + ys == ys;
    } else {
      assert (xs + ys)[0] == xs[0];
      assert (xs + ys)[1..] == xs[1..] + ys;
      FlattenAppend(xs[1..], ys);
    }
  }

  /** A nested array contributes its own flattened elements. */
  lemma FlattenNested(ys: seq<Value>)
    ensures Flatten([Arr(ys)]) == Flatten(ys)
  {
    assert [Arr(ys)][1..] == [];
    assert Flatten(ys) + [] == Flatten(ys);
  }

  /** `Array#compact`: every `nil` removed, everything else kept in order. */
  function Compact(xs: seq<Value>): (r: seq<Value>)
    ensures |r| <= |xs|
    ensures forall x :: x in r <==> x in xs && x != Nil
    ensures (forall i :: 0 <= i < |xs| ==> !xs[i].Arr?) ==> forall i :: 0 <= i < |r| ==> !r[i].Arr?
  {
    if xs == [] then []
    else if xs[0] == Nil then Compact(xs[1..])
    else [xs[0]] + Compact(xs[1..])
  }

  /**
   * `Array#uniq`: each value once, at the position of its first occurrence.
   * A value is dropped exactly when it already occurred earlier.
   */
  function Uniq(xs: seq<Value>): (r: seq<Value>)
    ensures forall x :: x in r <==> x in xs
    ensures Distinct(r)
  {
    if xs == [] then []
    else
      var prefix := xs[..|xs| - 1];
      var x := xs[|xs| - 1];
      if x in prefix then Uniq(prefix) else Uniq(prefix) + [x]
  }

  /** Values appended later never move the ones `uniq` already kept. */
  lemma {:induction false} UniqPrefix(xs: seq<Value>, ys: seq<Value>)
    ensures Uniq(xs) <= Uniq(xs + ys)
  {
    if ys != [] {
      var zs := xs + ys[..|ys| - 1];
      assert (xs + ys)[..|xs + ys| - 1] == zs;
      UniqPrefix(xs, ys[..|ys| - 1]);
    } else {
      assert xs + ys == xs;
    }
  }

  /** `uniq` leaves a sequence without repetitions as it is. */
  lemma {:induction false} UniqOfDistinct(xs: seq<Value>)
    requires Distinct(xs)
    ensures Uniq(xs) == xs
  {
    if xs != [] {
      var prefix := xs[..|xs| - 1];
      assert Distinct(prefix);
      UniqOfDistinct(prefix);
      assert xs[|xs| - 1] !in prefix;
      assert prefix + [xs[|xs| - 1]] == xs;
    }
  }
}
