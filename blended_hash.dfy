/**
 * BlendedHash: a wrapper around an ordered Hash whose `merge` combines the
 * values of some keys instead of overwriting them.
 *
 * A BlendedHash class is a `Kind`: the set of keys it blends (the class-level
 * `blended_keys`) and the `blend_<key>` methods registered on it. Classes are
 * named, and a `Registry` gives the kind of every name, so that a value can
 * hold instances of several classes.
 */
module BlendedHashes {
  import opened Wrappers
  import opened Values

  /** The exception classes the operations raise. */
  datatype Error =
    | NoMethodError         // a message sent to an object that does not understand it
    | UnsupportedOverrides  // a non-empty Array given to `merge` (not modelled)
    | KeyError              // `fetch` of an absent key without a default
    | TypeError             // `dig` through a value that cannot be dug into
    | ArgumentError         // `dig` with no keys

  /** A `blend_<key>` method, as defined by the class-level `blend`. */
  datatype Strategy =
    | Custom(f: (Value, Value) -> Value)  // defined from a block
    | With(companion: Option<KindName>)   // `with.init(original).merge(extras)`

  /** A BlendedHash class: its `blended_keys` and its `blend_<key>` methods. */
  datatype Kind = Kind(blendedKeys: set<Key>, strategies: map<Key, Strategy>)

  /** The kind of every BlendedHash class name. */
  type Registry = KindName -> Kind

  /** `BlendedHash` itself: no blended keys and no blend methods. */
  function BaseKind(): Kind
  {
    Kind({}, map[])
  }

  // ----- termination measures -----

  /** 0 for an empty receiver, whose every key is new, 1 otherwise. */
  function Rho(h: BlendedHash): nat
  {
    if h.entries == [] then 0 else 1
  }

  /** 0 for `nil`, the original value of a key the receiver lacks. */
  function Weight(v: Value): nat
  {
    if v == Nil then 0 else 1
  }

  // ----- merge and blend -----

  /** The errors a merge can raise. */
  predicate MergeError(e: Error)
  {
    e.NoMethodError? || e.UnsupportedOverrides?
  }

  /** The keys `merge` iterates over. */
  function OverrideKeys(overrides: Value): seq<Key>
  {
    match overrides
    case Hash(es) => Keys(es)
    case Wrapped(h) => Keys(h.entries)
    case _ => []
  }

  /** `hash[key]` on the receiver: its value for `key`, or `nil`. */
  function Current(self: BlendedHash, key: Key): (r: Value)
    ensures r != Nil ==> key in Keys(self.entries)
    ensures key !in Keys(self.entries) ==> r == Nil
    ensures key in Keys(self.entries) ==> Entry(key, r) in self.entries
  {
    GetIsStored(self.entries, key);
    Get(self.entries, key).GetOr(Nil)
  }

  /**
   * `merge(overrides)`. Nothing to merge returns the receiver itself; a Hash
   * (or BlendedHash) is folded into a copy of the receiver's entries and
   * wrapped in a new instance of the receiver's class.
   */
  function Merge(reg: Registry, self: BlendedHash, overrides: Value): (r: Result<BlendedHash, Error>)
    ensures r.Ok? ==> r.value.kind == self.kind
    ensures r.Ok? ==> Keys(self.entries) <= Keys(r.value.entries)
    ensures r.Ok? ==> forall k :: k in Keys(r.value.entries) <==> k in Keys(self.entries) || k in OverrideKeys(overrides)
    ensures r.Ok? ==> forall k :: k !in OverrideKeys(overrides) ==> Get(r.value.entries, k) == Get(self.entries, k)
    ensures r.Err? ==> MergeError(r.error)
    decreases Rho(self), Size(overrides), 0
  {
    match overrides
    case Nil => Ok(self)
    case Int(_) => Err(NoMethodError)
    case Str(s) => if s == "" then Ok(self) else Err(NoMethodError)
    case Arr(items) => if items == [] then Ok(self) else Err(UnsupportedOverrides)
    case Hash(es) =>
      if es == [] then Ok(self)
      else
        var entries :- Fold(reg, self, self.entries, es);
        Ok(BlendedHash(self.kind, entries))
    case Wrapped(h) =>
      if h.entries == [] then Ok(self)
      else
        var entries :- Fold(reg, self, self.entries, h.entries);
        Ok(BlendedHash(self.kind, entries))
  }

  /**
   * The `each_with_object` loop of `merge`: store, for each override pair in
   * order, the combined value into the accumulator. The original value is read
   * from the receiver; since a Hash never repeats a key, that is the value the
   * accumulator holds for the key when the pair is reached.
   */
  function Fold(reg: Registry, self: BlendedHash, acc: seq<Entry>, pairs: seq<Entry>): (r: Result<seq<Entry>, Error>)
    ensures r.Ok? ==> Keys(acc) <= Keys(r.value)
    ensures r.Ok? ==> forall k :: k in Keys(r.value) <==> k in Keys(acc) || k in Keys(pairs)
    ensures r.Ok? ==> forall k :: k !in Keys(pairs) ==> Get(r.value, k) == Get(acc, k)
    ensures r.Err? ==> MergeError(r.error)
    decreases Rho(self), SizeEntries(pairs), 0
  {
    if pairs == [] then Ok(acc)
    else
      var key := pairs[0].key;
      var value :- Combine(reg, self.kind, key, Current(self, key), pairs[0].val);
      Fold(reg, self, Put(acc, key, value), pairs[1..])
  }

  /**
   * The value `merge` stores for one key: the incoming value for a key that
   * is not blended, the key's `blend_<key>` method when one is defined, and
   * the default `blend` otherwise.
   */
  function Combine(reg: Registry, kind: KindName, key: Key, original: Value, incoming: Value): (r: Result<Value, Error>)
    ensures r.Err? ==> MergeError(r.error)
    decreases Weight(original), Size(incoming), 2
  {
    var k := reg(kind);
    if key !in k.blendedKeys then Ok(incoming)
    else if key in k.strategies then
      match k.strategies[key]
      case Custom(f) => Ok(f(original, incoming))
      case With(companion) =>
        if companion.None? then Err(NoMethodError)
        else
          var base :- Init(reg, companion.value, original);
          var merged :- Merge(reg, base, incoming);
          Ok(Wrapped(merged))
    else Blend(reg, kind, original, incoming)
  }

  /**
   * The default instance `blend`: a Hash or BlendedHash original is merged
   * with the extra value recursively, an Array original is concatenated with
   * it, flattened, stripped of nils and de-duplicated, and any other original
   * (including `nil`) gives way to the extra value.
   */
  function Blend(reg: Registry, kind: KindName, original: Value, extra: Value): (r: Result<Value, Error>)
    ensures r.Err? ==> MergeError(r.error)
    decreases Weight(original), Size(extra), 1
  {
    match original
    case Hash(_) =>
      var base :- Init(reg, kind, original);
      var merged :- Merge(reg, base, extra);
      Ok(Wrapped(merged))
    case Wrapped(h) =>
      // `init` hands a BlendedHash back as it is
      var merged :- Merge(reg, h, extra);
      Ok(Wrapped(merged))
    case Arr(_) => Ok(Arr(BlendArrays(original, extra)))
    case _ => Ok(extra)
  }

  /** `[original, extra].flatten.compact.uniq` */
  function BlendArrays(original: Value, extra: Value): (r: seq<Value>)
    ensures Distinct(r)
    ensures forall i :: 0 <= i < |r| ==> r[i] != Nil && !r[i].Arr?
    ensures forall x :: x in r <==> x in Flatten([original, extra]) && x != Nil
  {
    var r := Uniq(Compact(Flatten([original, extra])));
    assert forall i :: 0 <= i < |r| ==> r[i] in Compact(Flatten([original, extra]));
    r
  }

  /**
   * `kind.init(source)`: a BlendedHash is returned as it is, anything else is
   * merged into a new empty instance of `kind`.
   */
  function Init(reg: Registry, kind: KindName, source: Value): (r: Result<BlendedHash, Error>)
    ensures source.Wrapped? ==> r == Ok(source.h)
    ensures source == Nil ==> r == Ok(Empty(kind))
    ensures r.Ok? && !source.Wrapped? ==> r.value.kind == kind
    ensures r.Err? ==> MergeError(r.error)
    decreases 0, Size(source), 1
  {
    if source.Wrapped? then Ok(source.h) else Merge(reg, Empty(kind), source)
  }

  // ----- registration -----

  /**
   * The class-level `blend(key, with:, &block)`: defines `blend_<key>` from
   * the block when one is given, and otherwise as a delegation to `with`.
   * Returns the updated class and the name of the method defined.
   */
  function Register(k: Kind, key: Key, block: Option<(Value, Value) -> Value>, with: Option<KindName>): (r: (Kind, string))
    ensures r.0.blendedKeys == k.blendedKeys
    ensures r.0.strategies.Keys == k.strategies.Keys + {key}
    ensures r.0.strategies[key].Custom? <==> block.Some?
    ensures r.0.strategies == k.strategies[key := if block.Some? then Custom(block.value) else With(with)]
    ensures r.1 == "blend_" + key
  {
    var s := if block.Some? then Custom(block.value) else With(with);
    (k.(strategies := k.strategies[key := s]), "blend_" + key)
  }

  /** The registry after class `name` is redefined as `k`. */
  function Define(reg: Registry, name: KindName, k: Kind): Registry
  {
    n => if n == name then k else reg(n)
  }

  // ----- accessors -----

  /** The rule shared by `[]`, `fetch` and `dig`: a plain Hash is returned through `init`. */
  function WrapIfHash(reg: Registry, kind: KindName, v: Value): (r: Result<Value, Error>)
    ensures !v.Hash? ==> r == Ok(v)
    ensures v.Hash? && r.Ok? ==> r.value.Wrapped? && r.value.h.kind == kind
    ensures r.Err? ==> MergeError(r.error)
    ensures v.Hash? && r.Ok? ==> forall k :: k in Keys(r.value.h.entries) <==> k in Keys(v.entries)
  {
    if v.Hash? then
      var h :- Init(reg, kind, v);
      Ok(Wrapped(h))
    else Ok(v)
  }

  /** `self[key]` */
  function Index(reg: Registry, self: BlendedHash, key: Key): (r: Result<Value, Error>)
    ensures !Current(self, key).Hash? ==> r == Ok(Current(self, key))
    ensures key !in Keys(self.entries) ==> r == Ok(Nil)
    ensures Current(self, key).Hash? && r.Ok? ==> r.value.Wrapped? && r.value.h.kind == self.kind
  {
    WrapIfHash(reg, self.kind, Current(self, key))
  }

  /** `self.fetch(key)` and `self.fetch(key, default)` */
  function Fetch(reg: Registry, self: BlendedHash, key: Key, default: Option<Value>): (r: Result<Value, Error>)
    ensures r == Err(KeyError) <==> key !in Keys(self.entries) && default.None?
    ensures key in Keys(self.entries) ==> r == Index(reg, self, key)
  {
    if key in Keys(self.entries) then WrapIfHash(reg, self.kind, Current(self, key))
    else if default.Some? then WrapIfHash(reg, self.kind, default.value)
    else Err(KeyError)
  }

  /** `self.dig(*keys)`: `Hash#dig` on the wrapped hash, then the wrap rule. */
  function Dig(reg: Registry, self: BlendedHash, keys: seq<Key>): (r: Result<Value, Error>)
    ensures keys == [] <==> r == Err(ArgumentError)
    ensures |keys| == 1 ==> r == Index(reg, self, keys[0])
    ensures keys != [] && keys[0] !in Keys(self.entries) ==> r == Ok(Nil)
    ensures r.Ok? ==> !r.value.Hash?
    decreases |keys|, 0
  {
    if keys == [] then Err(ArgumentError)
    else
      var v :- DigFrom(reg, Current(self, keys[0]), keys[1..]);
      WrapIfHash(reg, self.kind, v)
  }

  /**
   * The rest of `Hash#dig` once the first key was looked up: `nil` or the
   * last key ends the walk, a Hash is looked into, a BlendedHash is asked to
   * `dig` itself, and any other value raises TypeError.
   */
  function DigFrom(reg: Registry, v: Value, rest: seq<Key>): (r: Result<Value, Error>)
    ensures rest == [] ==> r == Ok(v)
    ensures r != Err(ArgumentError)
    ensures rest != [] && v == Nil ==> r == Ok(Nil)
    ensures rest != [] && v.Hash? ==> r == DigFrom(reg, Get(v.entries, rest[0]).GetOr(Nil), rest[1..])
    ensures rest != [] && v.Wrapped? ==> r == Dig(reg, v.h, rest)
    ensures rest != [] && (v.Int? || v.Str? || v.Arr?) ==> r == Err(TypeError)
    decreases |rest|, 1
  {
    if rest == [] then Ok(v)
    else
      match v
      case Nil => Ok(Nil)
      case Hash(es) => DigFrom(reg, Get(es, rest[0]).GetOr(Nil), rest[1..])
      case Wrapped(h) => Dig(reg, h, rest)
      case _ => Err(TypeError)
  }
}
