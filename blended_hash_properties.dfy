/**
 * What `BlendedHash#merge`, the default `blend` and `init` promise, proved
 * about the definitions in `BlendedHashes`.
 */
module BlendedHashProperties {
  import opened Wrappers
  import opened Values
  import opened BlendedHashes

  /** The value `merge` computes for the override pair `p` of receiver `self`. */
  function Outcome(reg: Registry, self: BlendedHash, p: Entry): Result<Value, Error>
  {
    Combine(reg, self.kind, p.key, Current(self, p.key), p.val)
  }

  lemma KeysTail(es: seq<Entry>)
    requires es != []
    ensures Keys(es) == [es[0].key] + Keys(es[1..])
  {
  }

  /** A Hash without repeated keys: its first key does not come back, and the rest has no repetition either. */
  lemma DistinctKeysTail(es: seq<Entry>)
    requires es != [] && DistinctKeys(es)
    ensures es[0].key !in Keys(es[1..])
    ensures DistinctKeys(es[1..])
  {
    KeysTail(es);
    forall j | 0 <= j < |Keys(es[1..])| ensures Keys(es[1..])[j] != es[0].key {
      assert Keys(es)[0] != Keys(es)[j + 1];
    }
    assert forall j :: 0 <= j < |Keys(es[1..])| ==> Keys(es[1..])[j] == Keys(es)[j + 1];
  }

  /** One step of the fold. */
  lemma FoldStep(reg: Registry, self: BlendedHash, acc: seq<Entry>, pairs: seq<Entry>)
    requires pairs != []
    ensures Outcome(reg, self, pairs[0]).Err? ==> Fold(reg, self, acc, pairs).Err?
    ensures Outcome(reg, self, pairs[0]).Ok? ==>
      Fold(reg, self, acc, pairs) == Fold(reg, self, Put(acc, pairs[0].key, Outcome(reg, self, pairs[0]).value), pairs[1..])
  {
  }

  /** Merging a one-pair Hash stores the combined value under its key. */
  lemma MergeSinglePair(reg: Registry, self: BlendedHash, k: Key, v: Value)
    requires Outcome(reg, self, Entry(k, v)).Ok?
    ensures Merge(reg, self, Hash([Entry(k, v)]))
         == Ok(BlendedHash(self.kind, Put(self.entries, k, Outcome(reg, self, Entry(k, v)).value)))
  {
    var es := [Entry(k, v)];
    FoldStep(reg, self, self.entries, es);
    assert es[1..] == [];
  }

  /** `merge(nil)` and `merge({})` return the receiver itself. */
  lemma MergeNothingIsIdentity(reg: Registry, self: BlendedHash, kind: KindName)
    ensures Merge(reg, self, Nil) == Ok(self)
    ensures Merge(reg, self, Hash([])) == Ok(self)
    ensures Merge(reg, self, Wrapped(Empty(kind))) == Ok(self)
  {
  }

  /** The pairs `merge` iterates over: those of a Hash or of a BlendedHash. */
  function Pairs(overrides: Value): (r: seq<Entry>)
    ensures Keys(r) == OverrideKeys(overrides)
  {
    match overrides
    case Hash(es) => es
    case Wrapped(h) => h.entries
    case _ => []
  }

  /** The fold succeeds exactly when every pair's value can be computed. */
  lemma {:induction false} FoldSucceeds(reg: Registry, self: BlendedHash, acc: seq<Entry>, pairs: seq<Entry>)
    ensures Fold(reg, self, acc, pairs).Ok? <==> forall i :: 0 <= i < |pairs| ==> Outcome(reg, self, pairs[i]).Ok?
    decreases |pairs|
  {
    if pairs != [] {
      FoldStep(reg, self, acc, pairs);
      var c := Outcome(reg, self, pairs[0]);
      var rest := pairs[1..];
      if c.Ok? {
        FoldSucceeds(reg, self, Put(acc, pairs[0].key, c.value), rest);
        assert (forall i :: 0 <= i < |pairs| ==> Outcome(reg, self, pairs[i]).Ok?)
           <==> (forall i :: 0 <= i < |rest| ==> Outcome(reg, self, rest[i]).Ok?) by {
          assert forall i :: 0 <= i < |rest| ==> rest[i] == pairs[i + 1];
        }
      } else {
        assert !Outcome(reg, self, pairs[0]).Ok?;
      }
    }
  }

  /**
   * `merge` of a Hash or a BlendedHash fails exactly when the value of one of
   * its keys cannot be computed.
   */
  lemma MergeSucceeds(reg: Registry, self: BlendedHash, overrides: Value)
    requires overrides.Hash? || overrides.Wrapped?
    ensures Merge(reg, self, overrides).Ok? <==> forall i :: 0 <= i < |Pairs(overrides)| ==> Outcome(reg, self, Pairs(overrides)[i]).Ok?
  {
    FoldSucceeds(reg, self, self.entries, Pairs(overrides));
  }

  /** With distinct keys, the fold stores each pair's computed value under its key. */
  lemma {:induction false} FoldStores(reg: Registry, self: BlendedHash, acc: seq<Entry>, pairs: seq<Entry>, i: nat)
    requires DistinctKeys(pairs)
    requires i < |pairs|
    requires Fold(reg, self, acc, pairs).Ok?
    ensures Outcome(reg, self, pairs[i]).Ok?
    ensures Get(Fold(reg, self, acc, pairs).value, pairs[i].key) == Some(Outcome(reg, self, pairs[i]).value)
    decreases |pairs|
  {
    FoldStep(reg, self, acc, pairs);
    var c := Outcome(reg, self, pairs[0]);
    assert c.Ok?;
    var acc' := Put(acc, pairs[0].key, c.value);
    var rest := pairs[1..];
    assert Fold(reg, self, acc, pairs) == Fold(reg, self, acc', rest);
    DistinctKeysTail(pairs);
    if i == 0 {
      assert Get(Fold(reg, self, acc', rest).value, pairs[0].key) == Get(acc', pairs[0].key);
    } else {
      FoldStores(reg, self, acc', rest, i - 1);
      assert rest[i - 1] == pairs[i];
    }
  }

  /**
   * Per-key outcome of `merge`: every key of the overrides (a Hash or a
   * BlendedHash) ends up holding the value computed from the receiver's value
   * and the incoming one.
   */
  lemma MergeStores(reg: Registry, self: BlendedHash, overrides: Value, i: nat)
    requires DistinctKeys(Pairs(overrides))
    requires i < |Pairs(overrides)|
    requires Merge(reg, self, overrides).Ok?
    ensures Outcome(reg, self, Pairs(overrides)[i]).Ok?
    ensures Get(Merge(reg, self, overrides).value.entries, Pairs(overrides)[i].key)
         == Some(Outcome(reg, self, Pairs(overrides)[i]).value)
  {
    FoldStores(reg, self, self.entries, Pairs(overrides), i);
  }

  /** A key the class does not blend is overwritten by the incoming value, whatever the types. */
  lemma PlainKeyIsOverwritten(reg: Registry, self: BlendedHash, overrides: Value, i: nat)
    requires DistinctKeys(Pairs(overrides))
    requires i < |Pairs(overrides)|
    requires Pairs(overrides)[i].key !in reg(self.kind).blendedKeys
    requires Merge(reg, self, overrides).Ok?
    ensures Get(Merge(reg, self, overrides).value.entries, Pairs(overrides)[i].key) == Some(Pairs(overrides)[i].val)
  {
    MergeStores(reg, self, overrides, i);
  }

  /** A blended key with a block-defined `blend_<key>` takes `block(current, incoming)`. */
  lemma StrategyIsApplied(reg: Registry, self: BlendedHash, overrides: Value, i: nat)
    requires DistinctKeys(Pairs(overrides))
    requires i < |Pairs(overrides)|
    requires Pairs(overrides)[i].key in reg(self.kind).blendedKeys
    requires Pairs(overrides)[i].key in reg(self.kind).strategies
    requires reg(self.kind).strategies[Pairs(overrides)[i].key].Custom?
    requires Merge(reg, self, overrides).Ok?
    ensures var p := Pairs(overrides)[i];
      Get(Merge(reg, self, overrides).value.entries, p.key)
      == Some(reg(self.kind).strategies[p.key].f(Current(self, p.key), p.val))
  {
    MergeStores(reg, self, overrides, i);
  }

  /**
   * A blended key whose `blend_<key>` delegates to class `c` takes
   * `c.init(current).merge(incoming)`.
   */
  lemma WithStrategyIsApplied(reg: Registry, self: BlendedHash, overrides: Value, i: nat, c: KindName)
    requires DistinctKeys(Pairs(overrides))
    requires i < |Pairs(overrides)|
    requires Pairs(overrides)[i].key in reg(self.kind).blendedKeys
    requires Pairs(overrides)[i].key in reg(self.kind).strategies
    requires reg(self.kind).strategies[Pairs(overrides)[i].key] == With(Some(c))
    requires Merge(reg, self, overrides).Ok?
    ensures var p := Pairs(overrides)[i];
      && Init(reg, c, Current(self, p.key)).Ok?
      && Merge(reg, Init(reg, c, Current(self, p.key)).value, p.val).Ok?
      && Get(Merge(reg, self, overrides).value.entries, p.key)
         == Some(Wrapped(Merge(reg, Init(reg, c, Current(self, p.key)).value, p.val).value))
  {
    MergeStores(reg, self, overrides, i);
  }

  /** A blended key whose `blend_<key>` delegates to no class makes the whole merge fail. */
  lemma MissingCompanionFails(reg: Registry, self: BlendedHash, overrides: Value, i: nat)
    requires overrides.Hash? || overrides.Wrapped?
    requires i < |Pairs(overrides)|
    requires Pairs(overrides)[i].key in reg(self.kind).blendedKeys
    requires Pairs(overrides)[i].key in reg(self.kind).strategies
    requires reg(self.kind).strategies[Pairs(overrides)[i].key] == With(None)
    ensures Merge(reg, self, overrides).Err?
  {
    MergeSucceeds(reg, self, overrides);
  }

  /** A blended key without a `blend_<key>` method takes the default `blend`. */
  lemma DefaultBlendIsApplied(reg: Registry, self: BlendedHash, overrides: Value, i: nat)
    requires DistinctKeys(Pairs(overrides))
    requires i < |Pairs(overrides)|
    requires Pairs(overrides)[i].key in reg(self.kind).blendedKeys
    requires Pairs(overrides)[i].key !in reg(self.kind).strategies
    requires Merge(reg, self, overrides).Ok?
    ensures var p := Pairs(overrides)[i];
      && Blend(reg, self.kind, Current(self, p.key), p.val).Ok?
      && Get(Merge(reg, self, overrides).value.entries, p.key)
         == Some(Blend(reg, self.kind, Current(self, p.key), p.val).value)
  {
    MergeStores(reg, self, overrides, i);
  }

  /** The keys of `ps` that are not in `ks`, in the order of `ps`. */
  function NewKeys(ks: seq<Key>, ps: seq<Key>): (r: seq<Key>)
    ensures forall k :: k in r <==> k in ps && k !in ks
  {
    if ps == [] then []
    else if ps[0] in ks then NewKeys(ks, ps[1..])
    else [ps[0]] + NewKeys(ks, ps[1..])
  }

  /** Adding a key that `ps` does not hold does not change which of its keys are new. */
  lemma {:induction false} NewKeysSkip(ks: seq<Key>, k: Key, ps: seq<Key>)
    requires k !in ps
    ensures NewKeys(ks + [k], ps) == NewKeys(ks, ps)
  {
    if ps != [] {
      assert ps[0] in ks + [k] <==> ps[0] in ks;
      NewKeysSkip(ks, k, ps[1..]);
    }
  }

  /** When no key of `ps` is in `ks`, they are all new. */
  lemma {:induction false} NewKeysOfDisjoint(ks: seq<Key>, ps: seq<Key>)
    requires forall k :: k in ps ==> k !in ks
    ensures NewKeys(ks, ps) == ps
  {
    if ps != [] {
      assert ps[0] in ps;
      NewKeysOfDisjoint(ks, ps[1..]);
    }
  }

  /** Storing key `k` and then the keys `ps` appends the same new keys as storing `[k] + ps`. */
  lemma KeyOrderStep(ks: seq<Key>, k: Key, ps: seq<Key>)
    requires k !in ps
    ensures var ks' := if k in ks then ks else ks + [k];
      ks' + NewKeys(ks', ps) == ks + NewKeys(ks, [k] + ps)
  {
    assert ([k] + ps)[1..] == ps;
    if k !in ks {
      NewKeysSkip(ks, k, ps);
      assert ks + [k] + NewKeys(ks, ps) == ks + ([k] + NewKeys(ks, ps));
    }
  }

  /**
   * The fold keeps the accumulator's keys where they are and appends the
   * pairs' new keys in the pairs' order.
   */
  lemma {:induction false} FoldKeyOrder(reg: Registry, self: BlendedHash, acc: seq<Entry>, pairs: seq<Entry>)
    requires DistinctKeys(pairs)
    requires Fold(reg, self, acc, pairs).Ok?
    ensures Keys(Fold(reg, self, acc, pairs).value) == Keys(acc) + NewKeys(Keys(acc), Keys(pairs))
    decreases |pairs|
  {
    if pairs == [] {
      assert Keys(acc) + [] == Keys(acc);
    } else {
      KeysTail(pairs);
      FoldStep(reg, self, acc, pairs);
      DistinctKeysTail(pairs);
      var k := pairs[0].key;
      var acc' := Put(acc, k, Outcome(reg, self, pairs[0]).value);
      FoldKeyOrder(reg, self, acc', pairs[1..]);
      KeyOrderStep(Keys(acc), k, Keys(pairs[1..]));
    }
  }

  /**
   * `merge` keeps the receiver's keys first, in their order, and appends the
   * overrides' new keys in the overrides' order.
   */
  lemma MergeKeyOrder(reg: Registry, self: BlendedHash, overrides: Value)
    requires DistinctKeys(Pairs(overrides))
    requires Merge(reg, self, overrides).Ok?
    ensures Keys(Merge(reg, self, overrides).value.entries)
         == Keys(self.entries) + NewKeys(Keys(self.entries), OverrideKeys(overrides))
  {
    if Pairs(overrides) == [] {
      assert Keys(self.entries) + [] == Keys(self.entries);
    } else {
      FoldKeyOrder(reg, self, self.entries, Pairs(overrides));
    }
  }

  /** The fold never repeats a key. */
  lemma {:induction false} FoldKeepsDistinct(reg: Registry, self: BlendedHash, acc: seq<Entry>, pairs: seq<Entry>)
    requires DistinctKeys(acc)
    requires Fold(reg, self, acc, pairs).Ok?
    ensures DistinctKeys(Fold(reg, self, acc, pairs).value)
    decreases |pairs|
  {
    if pairs != [] {
      FoldStep(reg, self, acc, pairs);
      var v := Outcome(reg, self, pairs[0]).value;
      PutKeepsDistinct(acc, pairs[0].key, v);
      FoldKeepsDistinct(reg, self, Put(acc, pairs[0].key, v), pairs[1..]);
    }
  }

  /** An instance without repeated keys keeps that property through `merge`. */
  lemma MergeKeepsDistinct(reg: Registry, self: BlendedHash, overrides: Value)
    requires DistinctKeys(self.entries)
    requires Merge(reg, self, overrides).Ok?
    ensures DistinctKeys(Merge(reg, self, overrides).value.entries)
  {
    if Pairs(overrides) != [] {
      FoldKeepsDistinct(reg, self, self.entries, Pairs(overrides));
    }
  }

  /** `init` never builds an instance with a repeated key. */
  lemma InitKeepsDistinct(reg: Registry, kind: KindName, source: Value)
    requires source.Wrapped? ==> DistinctKeys(source.h.entries)
    requires Init(reg, kind, source).Ok?
    ensures DistinctKeys(Init(reg, kind, source).value.entries)
  {
    if !source.Wrapped? {
      MergeKeepsDistinct(reg, Empty(kind), source);
    }
  }

  /** `init` of a Hash gives an instance of the class with the Hash's keys, in the same order. */
  lemma InitKeepsKeys(reg: Registry, kind: KindName, es: seq<Entry>)
    requires DistinctKeys(es)
    requires Init(reg, kind, Hash(es)).Ok?
    ensures Init(reg, kind, Hash(es)).value.kind == kind
    ensures Keys(Init(reg, kind, Hash(es)).value.entries) == Keys(es)
  {
    MergeKeyOrder(reg, Empty(kind), Hash(es));
    NewKeysOfDisjoint([], Keys(es));
  }

  /** `init` is idempotent: an instance it returns is handed back unchanged. */
  lemma InitIdempotent(reg: Registry, kind: KindName, source: Value)
    requires Init(reg, kind, source).Ok?
    ensures Init(reg, kind, Wrapped(Init(reg, kind, source).value)) == Init(reg, kind, source)
  {
  }

  /** Default blend of a Hash or BlendedHash original: a recursive merge, so the key sets are unioned. */
  lemma DefaultBlendOfHashes(reg: Registry, kind: KindName, original: Value, extra: Value)
    requires original.Hash? || original.Wrapped?
    requires Blend(reg, kind, original, extra).Ok?
    ensures Blend(reg, kind, original, extra).value.Wrapped?
    ensures Blend(reg, kind, original, extra).value.h.kind == if original.Wrapped? then original.h.kind else kind
    ensures forall k :: k in Keys(Blend(reg, kind, original, extra).value.h.entries)
                   <==> k in OverrideKeys(original) || k in OverrideKeys(extra)
  {
    if original.Hash? {
      var base := Init(reg, kind, original).value;
      assert forall k :: k in Keys(base.entries) <==> k in Keys(original.entries);
    }
  }

  lemma {:induction false} CompactAppend(xs: seq<Value>, ys: seq<Value>)
    ensures Compact(xs + ys) == Compact(xs) + Compact(ys)
  {
    if xs == [] {
      assert xs + ys == ys;
    } else {
      assert (xs + ys)[0] == xs[0];
      assert (xs + ys)[1..] == xs[1..] + ys;
      CompactAppend(xs[1..], ys);
    }
  }

  /**
   * Default blend of an Array original: the result holds every non-nil leaf
   * of the original and of the extra value exactly once, no nested array and
   * no nil, and the original's own values come first, in their order.
   */
  lemma DefaultBlendOfArrays(reg: Registry, kind: KindName, items: seq<Value>, extra: Value)
    ensures Blend(reg, kind, Arr(items), extra).Ok?
    ensures Blend(reg, kind, Arr(items), extra).value.Arr?
    ensures var r := Blend(reg, kind, Arr(items), extra).value.items;
      && Distinct(r)
      && (forall i :: 0 <= i < |r| ==> r[i] != Nil && !r[i].Arr?)
      && (forall x :: x in r <==> (x in Flatten(items) || x in Flatten([extra])) && x != Nil)
      && Uniq(Compact(Flatten(items))) <= r
  {
    var r := BlendArrays(Arr(items), extra);
    assert Flatten([Arr(items), extra]) == Flatten(items) + Flatten([extra]) by {
      assert [Arr(items), extra][1..] == [extra];
    }
    CompactAppend(Flatten(items), Flatten([extra]));
    UniqPrefix(Compact(Flatten(items)), Compact(Flatten([extra])));
    forall i | 0 <= i < |r| ensures r[i] != Nil && !r[i].Arr? {
      assert r[i] in Compact(Flatten([Arr(items), extra]));
    }
  }

  /**
   * `[original, extra].flatten.compact.uniq` of two scalars: a `nil` original
   * drops out, and an extra value equal to the original is kept once.
   */
  lemma BlendOfScalars(original: Value, extra: Value)
    ensures original == Nil && extra.Str? ==> BlendArrays(original, extra) == [extra]
    ensures original.Str? && extra.Str? ==>
      BlendArrays(original, extra) == if extra == original then [original] else [original, extra]
  {
    var xs := [original, extra];
    assert xs[1..] == [extra];
    assert xs[1..][1..] == [];
    if original == Nil && extra.Str? {
      assert Compact(Flatten(xs)) == [extra];
      assert [extra][..0] == [];
      assert Uniq([extra]) == Uniq([]) + [extra];
    } else if original.Str? && extra.Str? {
      assert Compact(Flatten(xs)) == xs;
      assert xs[..1] == [original];
      assert [original][..0] == [];
      assert Uniq([original]) == Uniq([]) + [original];
      assert Uniq(xs) == if extra in [original] then Uniq([original]) else Uniq([original]) + [extra];
    }
  }

  /** Default blend of any other original, `nil` included: the extra value wins. */
  lemma DefaultBlendOtherwiseOverwrites(reg: Registry, kind: KindName, original: Value, extra: Value)
    requires !original.Hash? && !original.Wrapped? && !original.Arr?
    ensures Blend(reg, kind, original, extra) == Ok(extra)
  {
  }

  /** Registering a block for a blended key makes `merge` combine that key with the block. */
  lemma RegisteredBlockIsUsed(reg: Registry, name: KindName, key: Key, block: (Value, Value) -> Value,
                              with: Option<KindName>, self: BlendedHash, es: seq<Entry>, i: nat)
    requires self.kind == name
    requires key in reg(name).blendedKeys
    requires DistinctKeys(es) && i < |es| && es[i].key == key
    requires Merge(Define(reg, name, Register(reg(name), key, Some(block), with).0), self, Hash(es)).Ok?
    ensures Get(Merge(Define(reg, name, Register(reg(name), key, Some(block), with).0), self, Hash(es)).value.entries, key)
         == Some(block(Current(self, key), es[i].val))
  {
    var reg' := Define(reg, name, Register(reg(name), key, Some(block), with).0);
    StrategyIsApplied(reg', self, Hash(es), i);
  }

  /** The wrap rule, through `dig`: a plain Hash two levels down comes back as an instance of the receiver's class. */
  lemma DigWrapsNestedHash(reg: Registry, self: BlendedHash, k: Key, j: Key)
    requires Current(self, k).Hash?
    requires Get(Current(self, k).entries, j).Some?
    requires Get(Current(self, k).entries, j).value.Hash?
    requires Dig(reg, self, [k, j]).Ok?
    ensures Dig(reg, self, [k, j]).value.Wrapped?
    ensures Dig(reg, self, [k, j]).value.h.kind == self.kind
  {
    assert [k, j][1..] == [j];
    assert [j][1..] == [];
  }

  /** `dig(k, j)` through a plain Hash: the value the Hash holds for `j`, under the wrap rule. */
  lemma DigThroughHash(reg: Registry, self: BlendedHash, k: Key, j: Key)
    requires Current(self, k).Hash?
    ensures Dig(reg, self, [k, j]) == WrapIfHash(reg, self.kind, Get(Current(self, k).entries, j).GetOr(Nil))
  {
    assert [k, j][1..] == [j];
    assert [j][1..] == [];
  }

  /** `dig(k, *rest)` through a nested instance: that instance digs the rest itself, under its own class. */
  lemma DigThroughInstance(reg: Registry, self: BlendedHash, k: Key, rest: seq<Key>)
    requires Current(self, k).Wrapped?
    requires rest != []
    ensures Dig(reg, self, [k] + rest) == Dig(reg, Current(self, k).h, rest)
  {
    assert ([k] + rest)[0] == k;
    assert ([k] + rest)[1..] == rest;
  }
}
