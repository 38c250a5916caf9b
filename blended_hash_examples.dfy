/**
 * The BlendedHash scenarios of the library's tests, worked out on the model.
 * `TestBlend` blends `foo`, `other` and `more`, and defines `blend_foo` as
 * `[original, extras].flatten.compact.uniq.join(" ")`.
 */
module BlendedHashExamples {
  import opened Wrappers
  import opened Values
  import opened Strings
  import opened BlendedHashes
  import opened BlendedHashProperties

  /** `to_s` of the scalar values the example strategy joins. */
  function Text(v: Value): string
  {
    match v
    case Str(s) => s
    case Int(i) => Decimal(i)
    case _ => ""
  }

  /** `map(&:to_s)` */
  function Texts(xs: seq<Value>): (r: seq<string>)
    ensures |r| == |xs|
    ensures forall i :: 0 <= i < |xs| ==> r[i] == Text(xs[i])
  {
    if xs == [] then [] else [Text(xs[0])] + Texts(xs[1..])
  }

  /**
   * `blend_foo` of `TestBlend`: a first string is kept as it is, a repeated
   * one is kept once, and two different strings are joined with a space.
   */
  function JoinBlend(original: Value, extras: Value): (r: Value)
    ensures r.Str?
    ensures original == Nil && extras.Str? ==> r == extras
    ensures original.Str? && extras == original ==> r == original
    ensures original.Str? && extras.Str? && extras != original ==> r == Str(original.s + " " + extras.s)
  {
    BlendOfScalars(original, extras);
    Str(Join(Texts(BlendArrays(original, extras)), " "))
  }

  function TestBlend(): Kind
  {
    Kind({"foo", "other", "more"}, map["foo" := Custom(JoinBlend)])
  }

  /** `TestBlend` and the plain `BlendedHash` class. */
  function Reg(): Registry
  {
    n => if n == "TestBlend" then TestBlend() else BaseKind()
  }

  /** `TestBlend.new(entries)` */
  function New(entries: seq<Entry>): BlendedHash
  {
    BlendedHash("TestBlend", entries)
  }

  /** `blend_foo` of `"bar"` and `"baz"`. */
  lemma JoinBlendOfTwoStrings()
    ensures JoinBlend(Str("bar"), Str("baz")) == Str("bar baz")
  {
    SpacedLiteral();
  }

  /** The text of the joined strings, spelled out. */
  lemma SpacedLiteral()
    ensures "bar" + " " + "baz" == "bar baz"
  {
  }

  /** `blend_foo` joins the two strings: `"bar"` merged with `"baz"` gives `"bar baz"`. */
  lemma StrategyJoinsValues()
    ensures Merge(Reg(), New([Entry("foo", Str("bar"))]), Hash([Entry("foo", Str("baz"))]))
         == Ok(New([Entry("foo", Str("bar baz"))]))
  {
    var self := New([Entry("foo", Str("bar"))]);
    JoinBlendOfTwoStrings();
    assert Reg()("TestBlend") == TestBlend();
    assert Outcome(Reg(), self, Entry("foo", Str("baz"))) == Ok(Str("bar baz"));
    MergeSinglePair(Reg(), self, "foo", Str("baz"));
    assert Put(self.entries, "foo", Str("bar baz")) == [Entry("foo", Str("bar baz"))];
  }

  /** `[["baz"], ["qux"]].flatten.compact.uniq` */
  lemma SingletonArraysBlend()
    ensures BlendArrays(Arr([Str("baz")]), Arr([Str("qux")])) == [Str("baz"), Str("qux")]
  {
    var xs := [Str("baz"), Str("qux")];
    assert Flatten([Arr([Str("baz")]), Arr([Str("qux")])]) == xs by {
      FlattenAppend([Arr([Str("baz")])], [Arr([Str("qux")])]);
      FlattenNested([Str("baz")]);
      FlattenNested([Str("qux")]);
      assert [Arr([Str("baz")])] + [Arr([Str("qux")])] == [Arr([Str("baz")]), Arr([Str("qux")])];
    }
    BlendOfScalars(Str("baz"), Str("qux"));
    assert Flatten([Str("baz"), Str("qux")]) == xs;
  }

  /** The default blend concatenates arrays: `["baz"]` merged with `["qux"]` gives `["baz", "qux"]`. */
  lemma DefaultBlendConcatenatesArrays()
    ensures Merge(Reg(), New([Entry("other", Arr([Str("baz")]))]), Hash([Entry("other", Arr([Str("qux")]))]))
         == Ok(New([Entry("other", Arr([Str("baz"), Str("qux")]))]))
  {
    var self := New([Entry("other", Arr([Str("baz")]))]);
    var xs := [Str("baz"), Str("qux")];
    SingletonArraysBlend();
    assert Reg()("TestBlend") == TestBlend();
    assert Outcome(Reg(), self, Entry("other", Arr([Str("qux")]))) == Ok(Arr(xs));
    MergeSinglePair(Reg(), self, "other", Arr([Str("qux")]));
    assert Put(self.entries, "other", Arr(xs)) == [Entry("other", Arr(xs))];
  }

  /** `TestBlend.init({one: 1})` */
  lemma InitOfOnePair()
    ensures Init(Reg(), "TestBlend", Hash([Entry("one", Int(1))])) == Ok(New([Entry("one", Int(1))]))
  {
    assert Reg()("TestBlend") == TestBlend();
    assert Outcome(Reg(), Empty("TestBlend"), Entry("one", Int(1))) == Ok(Int(1));
    MergeSinglePair(Reg(), Empty("TestBlend"), "one", Int(1));
    assert Put([], "one", Int(1)) == [Entry("one", Int(1))];
  }

  /** `TestBlend.new({one: 1}).merge({two: 2})` */
  lemma MergeOfSecondPair()
    ensures Merge(Reg(), New([Entry("one", Int(1))]), Hash([Entry("two", Int(2))]))
         == Ok(New([Entry("one", Int(1)), Entry("two", Int(2))]))
  {
    assert Reg()("TestBlend") == TestBlend();
    assert Outcome(Reg(), New([Entry("one", Int(1))]), Entry("two", Int(2))) == Ok(Int(2));
    MergeSinglePair(Reg(), New([Entry("one", Int(1))]), "two", Int(2));
    assert Put([Entry("one", Int(1))], "two", Int(2)) == [Entry("one", Int(1)), Entry("two", Int(2))];
  }

  /** The default blend merges hashes: `{one: 1}` merged with `{two: 2}` gives `{one: 1, two: 2}`. */
  lemma DefaultBlendMergesHashes()
    ensures Merge(Reg(), New([Entry("other", Hash([Entry("one", Int(1))]))]), Hash([Entry("other", Hash([Entry("two", Int(2))]))]))
         == Ok(New([Entry("other", Wrapped(New([Entry("one", Int(1)), Entry("two", Int(2))])))]))
  {
    var self := New([Entry("other", Hash([Entry("one", Int(1))]))]);
    assert Reg()("TestBlend") == TestBlend();
    InitOfOnePair();
    MergeOfSecondPair();
    var merged := New([Entry("one", Int(1)), Entry("two", Int(2))]);
    assert Blend(Reg(), "TestBlend", Hash([Entry("one", Int(1))]), Hash([Entry("two", Int(2))])) == Ok(Wrapped(merged));
    assert Outcome(Reg(), self, Entry("other", Hash([Entry("two", Int(2))]))) == Ok(Wrapped(merged));
    MergeSinglePair(Reg(), self, "other", Hash([Entry("two", Int(2))]));
    assert Put(self.entries, "other", Wrapped(merged)) == [Entry("other", Wrapped(merged))];
  }

  /** A blended key whose original is a string is overwritten: `"baz"` merged with `"qux"` gives `"qux"`. */
  lemma DefaultBlendOverwritesScalars()
    ensures Merge(Reg(), New([Entry("other", Str("baz"))]), Hash([Entry("other", Str("qux"))]))
         == Ok(New([Entry("other", Str("qux"))]))
  {
    var self := New([Entry("other", Str("baz"))]);
    assert Reg()("TestBlend") == TestBlend();
    assert Outcome(Reg(), self, Entry("other", Str("qux"))) == Ok(Str("qux"));
    MergeSinglePair(Reg(), self, "other", Str("qux"));
    assert Put(self.entries, "other", Str("qux")) == [Entry("other", Str("qux"))];
  }

  /**
   * A key `TestBlend` does not blend is overwritten, and `[]` hands the plain
   * Hash it holds back as a `TestBlend`.
   */
  lemma IndexWrapsOverwrittenHash()
    ensures Merge(Reg(), New([Entry("one", Hash([Entry("two", Str("baz"))]))]), Hash([Entry("one", Hash([Entry("two", Str("qux"))]))]))
         == Ok(New([Entry("one", Hash([Entry("two", Str("qux"))]))]))
    ensures Index(Reg(), New([Entry("one", Hash([Entry("two", Str("qux"))]))]), "one")
         == Ok(Wrapped(New([Entry("two", Str("qux"))])))
  {
    var self := New([Entry("one", Hash([Entry("two", Str("baz"))]))]);
    assert Reg()("TestBlend") == TestBlend();
    assert Outcome(Reg(), self, Entry("one", Hash([Entry("two", Str("qux"))]))) == Ok(Hash([Entry("two", Str("qux"))]));
    MergeSinglePair(Reg(), self, "one", Hash([Entry("two", Str("qux"))]));
    assert Put(self.entries, "one", Hash([Entry("two", Str("qux"))])) == [Entry("one", Hash([Entry("two", Str("qux"))]))];
    assert Outcome(Reg(), Empty("TestBlend"), Entry("two", Str("qux"))) == Ok(Str("qux"));
    MergeSinglePair(Reg(), Empty("TestBlend"), "two", Str("qux"));
    assert Put([], "two", Str("qux")) == [Entry("two", Str("qux"))];
    assert Init(Reg(), "TestBlend", Hash([Entry("two", Str("qux"))])) == Ok(New([Entry("two", Str("qux"))]));
  }

  /** A BlendedHash held under a blended key is merged with an incoming Hash. */
  lemma NestedInstanceIsMerged()
    ensures Merge(Reg(), New([Entry("other", Wrapped(New([Entry("begin", Str("start"))])))]),
                  Hash([Entry("other", Hash([Entry("adding", Str("more"))]))]))
         == Ok(New([Entry("other", Wrapped(New([Entry("begin", Str("start")), Entry("adding", Str("more"))])))]))
  {
    var inner := New([Entry("begin", Str("start"))]);
    var self := New([Entry("other", Wrapped(inner))]);
    var extra := Hash([Entry("adding", Str("more"))]);
    assert Reg()("TestBlend") == TestBlend();
    assert Outcome(Reg(), inner, Entry("adding", Str("more"))) == Ok(Str("more"));
    MergeSinglePair(Reg(), inner, "adding", Str("more"));
    assert Put(inner.entries, "adding", Str("more")) == [Entry("begin", Str("start")), Entry("adding", Str("more"))];
    var merged := New([Entry("begin", Str("start")), Entry("adding", Str("more"))]);
    assert Blend(Reg(), "TestBlend", Wrapped(inner), extra) == Ok(Wrapped(merged));
    assert Outcome(Reg(), self, Entry("other", extra)) == Ok(Wrapped(merged));
    MergeSinglePair(Reg(), self, "other", extra);
    assert Put(self.entries, "other", Wrapped(merged)) == [Entry("other", Wrapped(merged))];
  }
}
