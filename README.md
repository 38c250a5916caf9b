# contours: BlendedHash and StructuredString in Dafny

This project models the two in-memory engines of the Ruby `contours` library, which builds configuration for HTML components, and proves what their code promises.

- **BlendedHash** wraps an insertion-ordered Hash.
  - Its `merge` returns a new instance of the receiver's class.
  - Each override key is either overwritten, combined by a class-registered `blend_<key>` method, or combined by the type-directed default `blend`. Keys are combined only when they are among the class's `blended_keys`.
  - The default `blend` merges hashes recursively, concatenates arrays (flattened, nils removed, de-duplicated), and otherwise lets the incoming value win.
  - `init` turns a value into an instance.
  - `[]`, `fetch` and `dig` hand a plain Hash back as an instance.
- **StructuredString** is a mutable object with four ordered buckets of fragments (`first`, `base`, `other`, `last`) and a separator.
  - `first`, `last` and `<<` append one fragment to one bucket.
  - `to_s` renders the buckets in order, drops empty fragments and joins the rest with the separator.
  - `read` exposes a bucket.
  - `merge` accepts another StructuredString, a `[String, Symbol]` pair or a String, and raises `ArgumentError` or `NameError` otherwise.

Layout:

- `wrappers.dfy` defines `Option` and `Result`.
- `strings.dfy` models `reject(&:empty?)`, `Array#join` and `Integer#to_s`.
- `values.dfy` holds the Ruby values and the Hash and Array operations BlendedHash relies on.
- `blended_hash.dfy` models BlendedHash.
  - `merge` is a fold over the override pairs.
  - `init`, `blend` and the wrap rule are pure functions.
  - A BlendedHash class is a `Kind`: its blended keys and its `blend_<key>` methods.
  - A `Registry` maps every class name to its kind.
- `blended_hash_properties.dfy` holds the general lemmas about `merge`, `blend`, `init` and `dig`.
- `blended_hash_examples.dfy` works the library's own BlendedHash tests through the model.
- `structured_string.dfy` is in two parts.
  - A pure part: `Buckets`, `Render`, `Apply` and `MergeSpec`, with their lemmas.
  - The class `StructuredString`: its four bucket fields are grown in place by methods that are proved against the pure part.

## Model

| member | source | states |
|---|---|---|
| `BlendedHashes.Merge` | lib/contours/blended_hash.rb:60-74 | The result is of the receiver's class. It keeps every receiver key. Its keys are exactly the receiver's keys plus the override keys. Every key the overrides do not name keeps the receiver's value. The only errors are NoMethodError, for overrides that do not answer `empty?`, and UnsupportedOverrides, for a non-empty Array. |
| `BlendedHashes.Fold` | lib/contours/blended_hash.rb:62-73 | The `each_with_object` loop keeps the accumulator's keys. It adds exactly the pairs' keys. It leaves every other key's value as the accumulator had it. |
| `BlendedHashes.Combine` | lib/contours/blended_hash.rb:63-71 | Choosing between overwrite, `blend_<key>` and `blend` raises only merge errors. The per-branch outcomes are the lemmas below. |
| `BlendedHashes.Blend` | lib/contours/blended_hash.rb:114-123 | The default `blend` raises only merge errors. Its per-type outcomes are the `DefaultBlendOf*` lemmas. |
| `BlendedHashes.BlendArrays` | lib/contours/blended_hash.rb:119 | `[original, extra].flatten.compact.uniq` has no repetition, no `nil` and no nested array. It holds exactly the non-`nil` leaves of both values. |
| `BlendedHashes.Current` | lib/contours/blended_hash.rb:65-67 | `hash[key]` is `nil` for an absent key. A non-`nil` value means the key is present. For a present key it is the value stored with that key. |
| `BlendedHashes.Init` | lib/contours/blended_hash.rb:33-39 | An instance is returned as it is. `nil` gives an empty instance of the class. Any other value is merged into a new instance of the class. |
| `BlendedHashes.Register` | lib/contours/blended_hash.rb:47-55 | Class-level `blend` defines exactly one method, `blend_<key>`, and leaves the other methods as they were. That method is the block when one is given, and otherwise the delegation to `with`. The blended keys are not changed. The method name is returned. |
| `BlendedHashes.WrapIfHash` | lib/contours/blended_hash.rb:78-82 | A non-Hash is returned unchanged. A plain Hash comes back as an instance of the receiver's class with the same keys. |
| `BlendedHashes.Index` | lib/contours/blended_hash.rb:77-83 | `[]` gives `nil` for an absent key and the stored value for a non-Hash. A Hash value comes back as an instance of the receiver's class. |
| `BlendedHashes.Fetch` | lib/contours/blended_hash.rb:85-91 | `fetch` raises KeyError exactly when the key is absent and no default is given. For a present key it agrees with `[]`. |
| `BlendedHashes.Dig` | lib/contours/blended_hash.rb:93-99 | `dig` with no keys raises ArgumentError, and only then. With one key it agrees with `[]`. An absent first key gives `nil`. A successful `dig` never returns a plain Hash. |
| `BlendedHashes.DigFrom` | lib/contours/blended_hash.rb:93-99 | The walk of `Hash#dig` after the first key. It returns the value when no keys remain. With keys left, `nil` ends the walk with `nil`, a Hash is looked into with the next key, an instance digs the rest itself, and any other value raises TypeError. It never raises ArgumentError. |
| `Values.Get` | lib/contours/blended_hash.rb:65 | `hash[k]` finds a value exactly when `k` is a key. |
| `Values.GetIsStored` | lib/contours/blended_hash.rb:65 | The value `hash[k]` finds is stored in the hash under `k`. |
| `Values.GetFirst` | lib/contours/blended_hash.rb:65 | `hash[k]` is the value of the first entry with key `k`. |
| `Values.Put` | lib/contours/blended_hash.rb:63 | `hash[k] = v` keeps an existing key in place, or appends a new one. It stores `v` under `k` and changes no other key. |
| `Values.PutKeepsDistinct` | lib/contours/blended_hash.rb:63 | Storing never repeats a key. |
| `Values.Flatten` | lib/contours/blended_hash.rb:119 | `flatten` leaves no nested array. It is the identity on a flat array. |
| `Values.FlattenAppend` | lib/contours/blended_hash.rb:119 | `flatten` distributes over concatenation. |
| `Values.FlattenNested` | lib/contours/blended_hash.rb:119 | A nested array is replaced by its own flattened elements. |
| `Values.Compact` | lib/contours/blended_hash.rb:119 | `compact` keeps exactly the non-`nil` elements and never lengthens. |
| `Values.Uniq` | lib/contours/blended_hash.rb:119 | `uniq` keeps exactly the elements of its input, without repetition. |
| `Values.UniqPrefix` | lib/contours/blended_hash.rb:119 | `uniq` keeps first occurrences. Elements appended later never move the ones already kept. |
| `Values.UniqOfDistinct` | lib/contours/blended_hash.rb:119 | `uniq` is the identity on an array without repetitions. |
| `BlendedHashProperties.MergeSinglePair` | lib/contours/blended_hash.rb:60-74 | Merging a one-pair Hash stores the combined value under its key. |
| `BlendedHashProperties.MergeNothingIsIdentity` | lib/contours/blended_hash.rb:61 | `merge(nil)`, `merge({})` and a merge with an empty instance return the receiver itself. |
| `BlendedHashProperties.FoldSucceeds` | lib/contours/blended_hash.rb:62-73 | The loop succeeds exactly when every pair's value can be computed. |
| `BlendedHashProperties.MergeSucceeds` | lib/contours/blended_hash.rb:60-74 | `merge` of a Hash or an instance succeeds exactly when every override's value can be computed. |
| `BlendedHashProperties.FoldStores` | lib/contours/blended_hash.rb:62-73 | With distinct keys, the loop's result holds, for every pair, that pair's computed value. |
| `BlendedHashProperties.MergeStores` | lib/contours/blended_hash.rb:62-73 | For a Hash or an instance as overrides, the merged instance holds, for every override key, the value computed for it from the receiver's value and the incoming one. |
| `BlendedHashProperties.PlainKeyIsOverwritten` | lib/contours/blended_hash.rb:69-71 | A key outside `blended_keys` takes the override value, whatever the types. |
| `BlendedHashProperties.StrategyIsApplied` | lib/contours/blended_hash.rb:64-65 | A blended key with a block-defined `blend_<key>` takes `block(current, incoming)`. |
| `BlendedHashProperties.WithStrategyIsApplied` | lib/contours/blended_hash.rb:51-53 | A blended key whose `blend_<key>` delegates to class `c` takes `c.init(current).merge(incoming)`, and both calls succeed. |
| `BlendedHashProperties.MissingCompanionFails` | lib/contours/blended_hash.rb:51-53 | A blended key whose `blend_<key>` was defined without a block and without `with:` makes the merge raise. |
| `BlendedHashProperties.DefaultBlendIsApplied` | lib/contours/blended_hash.rb:66-67 | A blended key without such a method takes the default `blend(current, incoming)`. |
| `BlendedHashProperties.FoldKeyOrder` | lib/contours/blended_hash.rb:62-73 | The loop keeps the accumulator's keys in place and appends the pairs' new keys after them, in the pairs' order. |
| `BlendedHashProperties.MergeKeyOrder` | lib/contours/blended_hash.rb:62-73 | The merged keys are the receiver's, in order, followed by the overrides' new keys, in the overrides' order. |
| `BlendedHashProperties.FoldKeepsDistinct` | lib/contours/blended_hash.rb:62-73 | The loop never repeats a key. |
| `BlendedHashProperties.MergeKeepsDistinct` | lib/contours/blended_hash.rb:60-74 | An instance without repeated keys keeps that property through `merge`. |
| `BlendedHashProperties.InitKeepsDistinct` | lib/contours/blended_hash.rb:33-39 | `init` never builds an instance with a repeated key. |
| `BlendedHashProperties.InitKeepsKeys` | lib/contours/blended_hash.rb:33-39 | `init` of a Hash gives an instance of the class with the Hash's keys in the same order. |
| `BlendedHashProperties.InitIdempotent` | lib/contours/blended_hash.rb:33-36 | `init` hands back an instance it produced unchanged. |
| `BlendedHashProperties.DefaultBlendOfHashes` | lib/contours/blended_hash.rb:116-117 | A Hash or instance original is merged recursively with the extra value. The result's keys are the union of both. |
| `BlendedHashProperties.CompactAppend` | lib/contours/blended_hash.rb:119 | `compact` distributes over concatenation. |
| `BlendedHashProperties.DefaultBlendOfArrays` | lib/contours/blended_hash.rb:118-119 | For an array original, the result is an array without `nil`, nested arrays or repetitions. It holds exactly the non-`nil` leaves of both values, and starts with the original's own flattened, compacted, de-duplicated elements. |
| `BlendedHashProperties.BlendOfScalars` | lib/contours/blended_hash.rb:119 | For two strings, `[original, extra].flatten.compact.uniq` is both in order, or one when they are equal. A `nil` original drops out. |
| `BlendedHashProperties.DefaultBlendOtherwiseOverwrites` | lib/contours/blended_hash.rb:120-121 | Any other original, `nil` included, gives way to the extra value. |
| `BlendedHashProperties.RegisteredBlockIsUsed` | lib/contours/blended_hash.rb:47-49 | After `blend(key) { block }`, merging a blended `key` stores `block(current, incoming)`. |
| `BlendedHashProperties.DigWrapsNestedHash` | lib/contours/blended_hash.rb:93-99 | A plain Hash two levels down comes back from `dig` as an instance of the receiver's class. |
| `BlendedHashProperties.DigThroughHash` | lib/contours/blended_hash.rb:93-99 | `dig(k, j)` through a plain Hash gives that Hash's value for `j`, or `nil`, under the wrap rule. |
| `BlendedHashProperties.DigThroughInstance` | lib/contours/blended_hash.rb:93-99 | `dig(k, *rest)` through a nested instance is that instance's own `dig(*rest)`. |
| `BlendedHashExamples.JoinBlend` | test/test_blended_hash.rb:7-9 | The test's `blend_foo` always gives a string. A first string is kept as it is, an equal one is kept once, and two different strings are joined with a space. |
| `BlendedHashExamples.StrategyJoinsValues` | test/test_blended_hash.rb:86-88 | With `blend_foo` joining the values, `{foo: "bar"}` merged with `{foo: "baz"}` gives `"bar baz"`. |
| `BlendedHashExamples.DefaultBlendConcatenatesArrays` | test/test_blended_hash.rb:98-100 | `["baz"]` blended with `["qux"]` gives `["baz", "qux"]`. |
| `BlendedHashExamples.DefaultBlendMergesHashes` | test/test_blended_hash.rb:102-104 | `{one: 1}` blended with `{two: 2}` gives an instance holding `{one: 1, two: 2}`. |
| `BlendedHashExamples.DefaultBlendOverwritesScalars` | test/test_blended_hash.rb:106-108 | `"baz"` blended with `"qux"` gives `"qux"`. |
| `BlendedHashExamples.IndexWrapsOverwrittenHash` | test/test_blended_hash.rb:94-96 | An overwritten Hash value comes back from `[]` as an instance. |
| `BlendedHashExamples.NestedInstanceIsMerged` | test/test_blended_hash.rb:133-141 | An instance stored under a blended key is merged with an incoming Hash. |
| `Strings.NonEmpty` | lib/contours/structured_string.rb:117 | `reject(&:empty?)` keeps exactly the non-empty strings and never lengthens. |
| `Strings.NonEmptyAppend` | lib/contours/structured_string.rb:117 | Dropping empty strings distributes over concatenation. |
| `Strings.NonEmptyKeepsFull` | lib/contours/structured_string.rb:117 | Strings that are all non-empty are kept as they are. |
| `Strings.Join` | lib/contours/structured_string.rb:118 | `join` of nothing is `""` and of one string is that string. Otherwise it starts with the first string. |
| `Strings.JoinLength` | lib/contours/structured_string.rb:118 | The length of `join` is the strings' total length plus one separator per neighbouring pair. |
| `Strings.JoinNonEmptyBlank` | lib/contours/structured_string.rb:117-118 | The non-empty strings, joined, are blank exactly when every string is empty. |
| `Strings.JoinOfNonEmpty` | lib/contours/structured_string.rb:118 | Joining at least one non-empty string gives a non-empty string. |
| `Strings.JoinAppend` | lib/contours/structured_string.rb:118 | `join` of a concatenation puts exactly one separator where two non-empty parts meet. |
| `Strings.Decimal` | test/test_blended_hash.rb:7-9 | `Integer#to_s` of the example strategy gives a non-empty string. It has a leading `-` exactly for negative numbers, followed by the text of the magnitude, and only digits otherwise. A positive number has no leading zero. |
| `Strings.DecimalRoundTrip` | test/test_blended_hash.rb:7-9 | Reading back the text `Integer#to_s` gives for `n` yields `n`. |
| `Strings.DigitsRoundTrip` | test/test_blended_hash.rb:7-9 | Reading back the digits of a non-negative `n` as a decimal number yields `n`. |
| `StructuredStrings.Fresh` | lib/contours/structured_string.rb:31-37 | `new(base)` holds only the base fragment and renders as the base, whatever the separator. |
| `StructuredStrings.Render` | lib/contours/structured_string.rb:112-119 | `to_s` is blank exactly when every fragment is empty. |
| `StructuredStrings.Apply` | lib/contours/structured_string.rb:40-58 | `first`, `last` and `<<` append exactly one fragment to the end of their own bucket and leave the other three unchanged. |
| `StructuredStrings.FragmentsSplit` | lib/contours/structured_string.rb:113-114 | Rendering order is the buckets up to any bucket, followed by those after it. |
| `StructuredStrings.FragmentsApply` | lib/contours/structured_string.rb:112-119 | An appended fragment is rendered right after the fragments of its own and earlier buckets and before all later ones. |
| `StructuredStrings.RenderApply` | lib/contours/structured_string.rb:112-119 | `to_s` after an append joins the non-empty fragments before it, the new one if it is non-empty, and those after it. |
| `StructuredStrings.EmptyFragmentIsInvisible` | lib/contours/structured_string.rb:117 | Appending `""` to any bucket leaves `to_s` unchanged. |
| `StructuredStrings.EmptyRunIsInvisible` | lib/contours/structured_string.rb:117 | Any sequence of appends of `""`, to any buckets, leaves `to_s`, and so `==`, unchanged. |
| `StructuredStrings.LastEndsTheString` | lib/contours/structured_string.rb:112-119 | A non-empty `last(v)` makes `to_s` end in `v`, after one separator when the string was not empty. |
| `StructuredStrings.RunBuckets` | lib/contours/structured_string.rb:40-58 | After any sequence of `first`/`last`/`<<` calls, each bucket holds its old fragments followed by the ones sent to it, in call order. |
| `StructuredStrings.RunExample` | test/test_structured_string.rb:21-28 | The six calls of the test give buckets `[first, more-first]`, `[base-string]`, `[other, middle]` and `[last, more-last]`. |
| `StructuredStrings.RenderFull` | lib/contours/structured_string.rb:112-119 | Without empty fragments, `to_s` joins every fragment in bucket order. |
| `StructuredStrings.RenderOrderExample` | test/test_structured_string.rb:21-29 | Those buckets render as "first more-first base-string other middle last more-last". |
| `StructuredStrings.Combined` | lib/contours/structured_string.rb:91-95 | Merging a StructuredString puts each of its buckets after the matching bucket of the receiver. |
| `StructuredStrings.Arity` | lib/contours/structured_string.rb:97 | `method(name).arity` is 1 for `first`, `last`, `<<`, `read`, `merge` and `==`. It is 0 for `to_s` and its aliases, and -1 for `as_json`, `to_json` and `initialize`. |
| `StructuredStrings.ArgOf` | lib/contours/structured_string.rb:90-106 | The pattern `merge` matches: another StructuredString by its buckets, a String as such, a two-element `[String, Symbol]` array as a named pair, and anything else, Symbols and numbers included, as malformed. |
| `StructuredStrings.MergeSpec` | lib/contours/structured_string.rb:89-109 | A successful `merge` never removes or reorders a fragment of any bucket. It fails exactly for a malformed argument, for a pair naming a method whose arity is not 1, and for `read`. |
| `StructuredStrings.PlainMergeIsAppend` | lib/contours/structured_string.rb:102-103 | `merge(s)` with a String is `<< s`, and so are `merge([s, :<<])` and `merge([s, :merge])`. |
| `StructuredStrings.NamedMergeUsesTheMethod` | lib/contours/structured_string.rb:96-98 | `merge([s, :first])` is `first(s)` and `merge([s, :last])` is `last(s)`. |
| `StructuredStrings.WholeMergeAppendsBuckets` | lib/contours/structured_string.rb:91-95 | Merging a StructuredString always succeeds and appends each of its buckets to the matching one, receiver's fragments first. |
| `StructuredStrings.MergeErrors` | lib/contours/structured_string.rb:96-106 | `merge` raises NameError exactly for a pair naming an unknown method. It raises ArgumentError exactly for any other shape, for a method whose arity is not 1, and for `read`. |
| `StructuredStrings.WholeMergeExample` | test/test_structured_string.rb:72-84 | The test's merge of two StructuredStrings gives the expected buckets, rendered as "first merger-first base-string base-merger other merger-other last merger-last". |
| `StructuredStrings.NamedFirstExample` | test/test_structured_string.rb:92-95 | `merge(["other", :first])` on `new("base-string")` renders "other base-string". |
| `StructuredStrings.NamedLastExample` | test/test_structured_string.rb:96-97 | Then `merge(["end", :last])` renders "other base-string end". |
| `StructuredStrings.StructuredString.constructor` | lib/contours/structured_string.rb:31-37 | `new(base, separator:)` has `base == [base]`, empty other buckets and the given separator. |
| `StructuredStrings.StructuredString.Init` | lib/contours/structured_string.rb:21-27 | `init` returns an existing StructuredString itself. Otherwise it returns a new one holding the base, with separator `" "`. |
| `StructuredStrings.StructuredString.ToS` | lib/contours/structured_string.rb:112-119 | The object renders blank exactly when every fragment it holds is empty. |
| `StructuredStrings.StructuredString.First` | lib/contours/structured_string.rb:40-44 | Appends the value to `first` only and returns the same object. |
| `StructuredStrings.StructuredString.Last` | lib/contours/structured_string.rb:47-51 | Appends the value to `last` only and returns the same object. |
| `StructuredStrings.StructuredString.Append` | lib/contours/structured_string.rb:54-58 | Appends the value to `other` only and returns the same object. |
| `StructuredStrings.StructuredString.Read` | lib/contours/structured_string.rb:61-74 | Returns the bucket named `first`, `base`, `other` or `last`, and raises ArgumentError exactly for any other name. |
| `StructuredStrings.StructuredString.Merge` | lib/contours/structured_string.rb:89-109 | On success the object itself is returned and the new buckets are those `MergeSpec` gives for the old buckets and the argument. On an error the buckets are unchanged. A merged-in other StructuredString is left unchanged. |
| `StructuredStrings.StructuredString.Send` | lib/contours/structured_string.rb:96-101 | The `[String, Symbol]` branch changes the object exactly as `MergeSpec` says for the named method, or leaves it unchanged on an error. |
| `StructuredStrings.StructuredString.Equals` | lib/contours/structured_string.rb:131-133 | `==` holds exactly when the renderings agree. It is reflexive, and two objects with the same separator and the same non-empty fragments are equal, whatever empty fragments either holds. |
| `StructuredStrings.CombinesParts` | test/test_structured_string.rb:21-30 | The `to_s` test run on an object renders "first more-first base-string other middle last more-last". |
| `StructuredStrings.MergeIntoItself` | lib/contours/structured_string.rb:91-95 | `ss.merge(ss)` doubles every bucket: each bucket reads its own old contents before it is reassigned. |

## Left out

- StructuredString delegation to `String` is left out. So is the `__setobj__` refresh after every append. `to_s` is exposed as `ToS` and `Render` instead.
- `as_json`, `to_json`, and the `to_str`/`inspect` aliases are left out. They are coercions over `to_s`, and JSON escaping is not modelled.
- BlendedHash delegation to `Hash` and `to_hash` (an alias of the wrapped hash) are left out. No deep conversion of StructuredString values is modelled, because the code does not perform one.
- `merge` with a non-empty Array of overrides is left out. Ruby would destructure its elements as pairs. The model returns `UnsupportedOverrides` instead.
- A `with:` companion that is not itself a BlendedHash class is left out. The library's own test uses such an object, whose `init`/`merge` are arbitrary user code. The model only admits companions named in the registry. A missing companion (`with: nil`) raises NoMethodError.
- `BlendedHashes.Kind` always holds a set of blended keys. In Ruby, a subclass that never assigns `@blended_keys` has `nil` there, so each of its non-empty merges raises NoMethodError on `nil.include?`. The model gives such a class the empty set, under which every key is overwritten.
- `Values.Key`: keys are modelled as names. Ruby tells the Symbol key `:a` from the String key `"a"`; the model does not, so a Hash using both would be read as repeating a key.
- `fetch` with a block, and `dig` into Arrays or Structs, are left out. Only the Hash and BlendedHash cases of `Hash#dig` are modelled. Any other intermediate value raises TypeError.
- `Values.Uniq`: Ruby's `uniq` compares with `hash`/`eql?`. Under `eql?` two Hashes with the same pairs in a different order are equal, and an instance can be equal to a plain Hash. The model compares entries in order, and instances by class and entries. So blending `[{a: 1, b: 2}]` with `[{b: 2, a: 1}]` keeps one element in Ruby and two here. For strings, integers and arrays of them the two agree.
- `BlendedHashExamples.Text` gives `""` for arrays, hashes and instances, where Ruby's `to_s` would give their inspection. The example strategy is only ever applied to strings.
- `StructuredStrings.Arity` lists only the methods StructuredString defines itself, with `initialize`. The methods delegated to String all have arity -1 in Ruby, so naming one in `merge` raises ArgumentError in Ruby and NameError here. Methods inherited from Object and Kernel are not in the table either; Ruby calls those among them that take one argument, such as `instance_variable_get`, while the model raises NameError.
- `StructuredStrings.StructuredString.First`, `Last` and `Append` take a `string` and do not model `value.to_s` of other objects.
- `StructuredStrings.StructuredString.constructor` takes a string base. A non-string base, which `to_s` would flatten, compact and convert, is not modelled. Neither is the default separator of `new` apart from `init`.
- `StructuredStrings.StructuredString.Read` returns the bucket's contents, not the bucket itself. In Ruby `read` hands out the live Array, so a caller's `<<` on it changes the object's `to_s`. Aliasing between a returned bucket and the object is not modelled.
- `StructuredStrings.StructuredString.Equals` compares with another StructuredString only. Ruby's `==` accepts any object and compares with its `to_s`.
- `BlendedHashes.Fold` reads each key's original value from the receiver, not from the accumulator. The two agree because a Ruby Hash never repeats a key, and this order gives the fold a termination measure.
- `BlendedHashes.Merge` works on values. "Returns a new instance and never mutates the receiver" holds by construction. Object identity is not modelled, so "returns the receiver itself" means an equal value.
- Array blending drops only `nil`, as `compact` does. Empty strings are kept. Nested arrays, empty ones included, are flattened away.
