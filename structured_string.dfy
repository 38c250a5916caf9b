/**
 * StructuredString: a string built from four ordered buckets of fragments,
 * `first`, `base`, `other` and `last`, rendered in that order with the empty
 * fragments dropped and a separator between the rest.
 *
 * The pure part (`Buckets`, `Render`, `Apply`, `MergeSpec`) says what the
 * object's state means; the class `StructuredString` grows its buckets in
 * place and is proved against it.
 */
module StructuredStrings {
  import opened Wrappers
  import opened Strings

  /** The exception classes `read` and `merge` raise. */
  datatype Error =
    | ArgumentError  // an unknown bucket, a wrong argument shape or a method of the wrong arity
    | NameError      // `merge` naming a method the object does not have

  /** The four buckets of a StructuredString, each in insertion order. */
  datatype Buckets = Buckets(first: seq<string>, base: seq<string>, other: seq<string>, last: seq<string>)

  /** The names `read` accepts, one per bucket. */
  datatype Part = FirstPart | BasePart | OtherPart | LastPart

  /** The bucket `p` of `b`. */
  function Bucket(b: Buckets, p: Part): seq<string>
  {
    match p
    case FirstPart => b.first
    case BasePart => b.base
    case OtherPart => b.other
    case LastPart => b.last
  }

  /** The state of `StructuredString.new(base)`: only the base, which is also the whole rendering. */
  function Fresh(base: string): (r: Buckets)
    ensures Fragments(r) == [base]
    ensures forall sep :: Render(r, sep) == base
  {
    var r := Buckets([], [base], [], []);
    assert Fragments(r) == [base];
    assert NonEmpty([base]) == if base == "" then [] else [base];
    r
  }

  // ----- rendering -----

  /** `[@first, @base, @other, @last].flatten`: every fragment, in rendering order. */
  function Fragments(b: Buckets): seq<string>
  {
    b.first + b.base + b.other + b.last
  }

  /** `to_s`: the non-empty fragments joined with the separator; blank exactly when every fragment is. */
  function Render(b: Buckets, sep: string): (r: string)
    ensures r == "" <==> forall f :: f in Fragments(b) ==> f == ""
  {
    JoinNonEmptyBlank(Fragments(b), sep);
    Join(NonEmpty(Fragments(b)), sep)
  }

  /** The fragments of the buckets up to and including `p`. */
  function Upto(b: Buckets, p: Part): seq<string>
  {
    match p
    case FirstPart => b.first
    case BasePart => b.first + b.base
    case OtherPart => b.first + b.base + b.other
    case LastPart => Fragments(b)
  }

  /** The fragments of the buckets after `p`. */
  function After(b: Buckets, p: Part): seq<string>
  {
    match p
    case FirstPart => b.base + b.other + b.last
    case BasePart => b.other + b.last
    case OtherPart => b.last
    case LastPart => []
  }

  lemma FragmentsSplit(b: Buckets, p: Part)
    ensures Fragments(b) == Upto(b, p) + After(b, p)
  {
    match p
    case FirstPart =>
      assert Fragments(b) == b.first + (b.base + b.other + b.last);
    case BasePart =>
      assert Fragments(b) == (b.first + b.base) + (b.other + b.last);
    case OtherPart =>
    case LastPart =>
  }

  // ----- `first`, `last` and `<<` -----

  /** One append of `value` to the end of bucket `p` (`first`, `<<` or `last`). */
  function Apply(b: Buckets, p: Part, value: string): (r: Buckets)
    ensures Bucket(r, p) == Bucket(b, p) + [value]
    ensures forall q :: q != p ==> Bucket(r, q) == Bucket(b, q)
  {
    match p
    case FirstPart => b.(first := b.first + [value])
    case BasePart => b.(base := b.base + [value])
    case OtherPart => b.(other := b.other + [value])
    case LastPart => b.(last := b.last + [value])
  }

  /** An append puts its fragment between the buckets up to `p` and those after it. */
  lemma {:induction false} FragmentsApply(b: Buckets, p: Part, value: string)
    ensures Fragments(Apply(b, p, value)) == Upto(b, p) + [value] + After(b, p)
  {
    var r := Apply(b, p, value);
    match p
    case FirstPart =>
      assert Fragments(r) == (b.first + [value]) + b.base + b.other + b.last;
    case BasePart =>
      assert Fragments(r) == b.first + (b.base + [value]) + b.other + b.last;
    case OtherPart =>
      assert Fragments(r) == b.first + b.base + (b.other + [value]) + b.last;
    case LastPart =>
      assert Fragments(r) == b.first + b.base + b.other + (b.last + [value]);
  }

  /** The rendering after an append, in terms of the fragments around the new one. */
  lemma {:induction false} RenderApply(b: Buckets, p: Part, value: string, sep: string)
    ensures Render(Apply(b, p, value), sep)
         == Join(NonEmpty(Upto(b, p)) + NonEmpty([value]) + NonEmpty(After(b, p)), sep)
  {
    FragmentsApply(b, p, value);
    NonEmptyAppend(Upto(b, p) + [value], After(b, p));
    NonEmptyAppend(Upto(b, p), [value]);
  }

  /** Appending an empty fragment does not change the rendering. */
  lemma {:induction false} EmptyFragmentIsInvisible(b: Buckets, p: Part, sep: string)
    ensures Render(Apply(b, p, ""), sep) == Render(b, sep)
  {
    RenderApply(b, p, "", sep);
    assert NonEmpty([""]) == [];
    FragmentsSplit(b, p);
    NonEmptyAppend(Upto(b, p), After(b, p));
    assert NonEmpty(Upto(b, p)) + [] == NonEmpty(Upto(b, p));
  }

  /** Any run of appends of empty fragments leaves the rendering as it was. */
  lemma {:induction false} EmptyRunIsInvisible(b: Buckets, ops: seq<(Part, string)>, sep: string)
    requires forall i :: 0 <= i < |ops| ==> ops[i].1 == ""
    ensures Render(Run(b, ops), sep) == Render(b, sep)
  {
    if ops != [] {
      var init := ops[..|ops| - 1];
      EmptyRunIsInvisible(b, init, sep);
      EmptyFragmentIsInvisible(Run(b, init), ops[|ops| - 1].0, sep);
    }
  }

  /** A non-empty `last(value)` ends the string, after one separator when there was text. */
  lemma {:induction false} LastEndsTheString(b: Buckets, value: string, sep: string)
    requires value != ""
    ensures Render(Apply(b, LastPart, value), sep)
         == if Render(b, sep) == "" then value
            else Render(b, sep) + sep + value
  {
    RenderApply(b, LastPart, value, sep);
    assert NonEmpty([value]) == [value];
    assert NonEmpty(After(b, LastPart)) == [];
    var xs := NonEmpty(Fragments(b));
    assert xs + [value] + [] == xs + [value];
    JoinAppend(xs, [value], sep);
    if xs != [] {
      JoinOfNonEmpty(xs, sep);
    }
  }

  /** A run of appends: each pair is the bucket and the fragment. */
  function Run(b: Buckets, ops: seq<(Part, string)>): Buckets
  {
    if ops == [] then b
    else Apply(Run(b, ops[..|ops| - 1]), ops[|ops| - 1].0, ops[|ops| - 1].1)
  }

  /** The fragments of `ops` that go to bucket `p`, in order. */
  function Sent(ops: seq<(Part, string)>, p: Part): seq<string>
  {
    if ops == [] then []
    else
      var last := ops[|ops| - 1];
      Sent(ops[..|ops| - 1], p) + (if last.0 == p then [last.1] else [])
  }

  /** After any run of appends every bucket holds its old fragments followed by those sent to it, in order. */
  lemma {:induction false} RunBuckets(b: Buckets, ops: seq<(Part, string)>, p: Part)
    ensures Bucket(Run(b, ops), p) == Bucket(b, p) + Sent(ops, p)
  {
    if ops != [] {
      var init := ops[..|ops| - 1];
      var last := ops[|ops| - 1];
      RunBuckets(b, init, p);
      if last.0 == p {
        assert Bucket(Run(b, ops), p) == Bucket(b, p) + Sent(init, p) + [last.1];
      } else {
        assert Sent(ops, p) == Sent(init, p) + [];
      }
    }
  }

  /** The appends of the test of `to_s`: six appends to `new("base-string")` in mixed order. */
  lemma RunExample()
    ensures Run(Fresh("base-string"),
                [(FirstPart, "first"), (LastPart, "last"), (OtherPart, "other"),
                 (FirstPart, "more-first"), (LastPart, "more-last"), (OtherPart, "middle")])
         == Buckets(["first", "more-first"], ["base-string"], ["other", "middle"], ["last", "more-last"])
  {
    var f := Fresh("base-string");
    var o1 := [(FirstPart, "first")];
    var o2 := o1 + [(LastPart, "last")];
    var o3 := o2 + [(OtherPart, "other")];
    var o4 := o3 + [(FirstPart, "more-first")];
    var o5 := o4 + [(LastPart, "more-last")];
    var o6 := o5 + [(OtherPart, "middle")];
    assert o1[..0] == [];
    assert Run(f, o1) == Buckets(["first"], ["base-string"], [], []);
    assert o2[..1] == o1;
    assert Run(f, o2) == Buckets(["first"], ["base-string"], [], ["last"]);
    assert o3[..2] == o2;
    assert Run(f, o3) == Buckets(["first"], ["base-string"], ["other"], ["last"]);
    assert o4[..3] == o3;
    assert Run(f, o4) == Buckets(["first", "more-first"], ["base-string"], ["other"], ["last"]);
    assert o5[..4] == o4;
    assert Run(f, o5) == Buckets(["first", "more-first"], ["base-string"], ["other"], ["last", "more-last"]);
    assert o6[..5] == o5;
    assert o6 == [(FirstPart, "first"), (LastPart, "last"), (OtherPart, "other"),
                  (FirstPart, "more-first"), (LastPart, "more-last"), (OtherPart, "middle")];
  }

  /** With no empty fragment, the rendering joins every fragment. */
  lemma RenderFull(b: Buckets, sep: string)
    requires forall i :: 0 <= i < |Fragments(b)| ==> Fragments(b)[i] != ""
    ensures Render(b, sep) == Join(Fragments(b), sep)
  {
    NonEmptyKeepsFull(Fragments(b));
  }

  /** The rendering the test of `to_s` expects. */
  lemma RenderOrderExample()
    ensures Render(Buckets(["first", "more-first"], ["base-string"], ["other", "middle"], ["last", "more-last"]), " ")
         == "first" + " " + ("more-first" + " " + ("base-string" + " " + ("other" + " " + ("middle" + " " + ("last" + " " + "more-last")))))
  {
    var b := Buckets(["first", "more-first"], ["base-string"], ["other", "middle"], ["last", "more-last"]);
    var fs := ["first", "more-first", "base-string", "other", "middle", "last", "more-last"];
    assert Fragments(b) == fs;
    RenderFull(b, " ");
  }

  // ----- `merge` -----

  /** `@first += data.read :first` and so on: every bucket of `o` after the receiver's. */
  function Combined(b: Buckets, o: Buckets): (r: Buckets)
    ensures forall p :: Bucket(r, p) == Bucket(b, p) + Bucket(o, p)
  {
    Buckets(b.first + o.first, b.base + o.base, b.other + o.other, b.last + o.last)
  }

  /**
   * The arity of each method a StructuredString answers to by name, as
   * `method(name).arity` reports it; `None` when `method` raises NameError.
   */
  function Arity(name: string): (r: Option<int>)
    ensures r == Some(1) <==> name in {"first", "last", "<<", "read", "merge", "=="}
    ensures r == Some(0) <==> name in {"to_s", "to_str", "inspect"}
    ensures r == Some(-1) <==> name in {"as_json", "to_json", "initialize"}
  {
    if name in {"first", "last", "<<", "read", "merge", "=="} then Some(1)
    else if name in {"to_s", "to_str", "inspect"} then Some(0)
    else if name in {"as_json", "to_json", "initialize"} then Some(-1)
    else None
  }

  /** The argument of `merge`, by the pattern it matches. */
  datatype Arg =
    | Whole(o: Buckets)             // another StructuredString
    | Plain(s: string)              // a String
    | Named(s: string, name: string) // a `[String, Symbol]` pair
    | Malformed                     // anything else

  /**
   * `merge(data)` on buckets `b`: the new buckets, or the error raised, in
   * which case the object is left as it was.
   */
  function MergeSpec(b: Buckets, arg: Arg): (r: Result<Buckets, Error>)
    ensures r.Ok? ==> forall p :: Bucket(b, p) <= Bucket(r.value, p)
    ensures r.Err? <==> arg.Malformed? || (arg.Named? && (Arity(arg.name) != Some(1) || arg.name == "read"))
    decreases if arg.Named? then 1 else 0
  {
    match arg
    case Whole(o) => Ok(Combined(b, o))
    case Plain(s) => Ok(Apply(b, OtherPart, s))
    case Named(s, name) =>
      if Arity(name).None? then Err(NameError)
      else if Arity(name) != Some(1) then Err(ArgumentError)
        else if name == "first" then Ok(Apply(b, FirstPart, s))
        else if name == "last" then Ok(Apply(b, LastPart, s))
        else if name == "<<" then Ok(Apply(b, OtherPart, s))
        else if name == "merge" then MergeSpec(b, Plain(s))
        // `read` with a String never names a bucket
        else if name == "read" then Err(ArgumentError)
        // `==` only compares
        else Ok(b)
    case Malformed => Err(ArgumentError)
  }

  /** Merging a String is `<<`, whether it comes alone or named by `<<` or `merge`. */
  lemma PlainMergeIsAppend(b: Buckets, s: string)
    ensures MergeSpec(b, Plain(s)) == Ok(Apply(b, OtherPart, s))
    ensures MergeSpec(b, Named(s, "<<")) == MergeSpec(b, Plain(s))
    ensures MergeSpec(b, Named(s, "merge")) == MergeSpec(b, Plain(s))
  {
  }

  /** A pair naming `first` or `last` sends the string to that bucket. */
  lemma NamedMergeUsesTheMethod(b: Buckets, s: string)
    ensures MergeSpec(b, Named(s, "first")) == Ok(Apply(b, FirstPart, s))
    ensures MergeSpec(b, Named(s, "last")) == Ok(Apply(b, LastPart, s))
  {
  }

  /** Merging another StructuredString appends each of its buckets to the matching one. */
  lemma WholeMergeAppendsBuckets(b: Buckets, o: Buckets, sep: string)
    ensures MergeSpec(b, Whole(o)).Ok?
    ensures forall p :: Bucket(MergeSpec(b, Whole(o)).value, p) == Bucket(b, p) + Bucket(o, p)
  {
  }

  /**
   * The errors of `merge`: NameError exactly for a pair naming an unknown
   * method, ArgumentError exactly for any other shape, for a method whose
   * arity is not 1, and for `read`.
   */
  lemma {:induction false} MergeErrors(b: Buckets, arg: Arg)
    ensures MergeSpec(b, arg) == Err(NameError) <==> arg.Named? && Arity(arg.name).None?
    ensures MergeSpec(b, arg) == Err(ArgumentError) <==>
      arg.Malformed? || (arg.Named? && Arity(arg.name).Some? && (Arity(arg.name) != Some(1) || arg.name == "read"))
  {
    if arg.Named? && arg.name == "merge" {
      assert MergeSpec(b, arg) == MergeSpec(b, Plain(arg.s));
    }
  }

  /** The test of merging a StructuredString. */
  lemma WholeMergeExample()
    ensures MergeSpec(Buckets(["first"], ["base-string"], ["other"], ["last"]),
                      Whole(Buckets(["merger-first"], ["base-merger"], ["merger-other"], ["merger-last"])))
         == Ok(Buckets(["first", "merger-first"], ["base-string", "base-merger"], ["other", "merger-other"], ["last", "merger-last"]))
    ensures Render(Buckets(["first", "merger-first"], ["base-string", "base-merger"], ["other", "merger-other"], ["last", "merger-last"]), " ")
         == "first" + " " + ("merger-first" + " " + ("base-string" + " " + ("base-merger" + " " + ("other" + " " + ("merger-other" + " " + ("last" + " " + "merger-last"))))))
  {
    var b := Buckets(["first", "merger-first"], ["base-string", "base-merger"], ["other", "merger-other"], ["last", "merger-last"]);
    var a := Buckets(["first"], ["base-string"], ["other"], ["last"]);
    var o := Buckets(["merger-first"], ["base-merger"], ["merger-other"], ["merger-last"]);
    assert MergeSpec(a, Whole(o)) == Ok(Combined(a, o));
    assert Combined(a, o) == b;
    var fs := ["first", "merger-first", "base-string", "base-merger", "other", "merger-other", "last", "merger-last"];
    assert Fragments(b) == fs;
    RenderFull(b, " ");
  }

  /** The test of a pair naming `first`. */
  lemma NamedFirstExample()
    ensures MergeSpec(Fresh("base-string"), Named("other", "first")) == Ok(Buckets(["other"], ["base-string"], [], []))
    ensures Render(Buckets(["other"], ["base-string"], [], []), " ") == "other base-string"
  {
    assert Arity("first") == Some(1);
    assert MergeSpec(Fresh("base-string"), Named("other", "first")) == Ok(Apply(Fresh("base-string"), FirstPart, "other"));
    assert Apply(Fresh("base-string"), FirstPart, "other") == Buckets(["other"], ["base-string"], [], []);
    var b := Buckets(["other"], ["base-string"], [], []);
    assert Fragments(b) == ["other", "base-string"];
    RenderFull(b, " ");
  }

  /** The test of a pair naming `last`, after the one naming `first`. */
  lemma NamedLastExample()
    ensures MergeSpec(Buckets(["other"], ["base-string"], [], []), Named("end", "last"))
         == Ok(Buckets(["other"], ["base-string"], [], ["end"]))
    ensures Render(Buckets(["other"], ["base-string"], [], ["end"]), " ") == "other" + " " + ("base-string" + " " + "end")
  {
    var a := Buckets(["other"], ["base-string"], [], []);
    assert Arity("last") == Some(1);
    assert MergeSpec(a, Named("end", "last")) == Ok(Apply(a, LastPart, "end"));
    assert Apply(a, LastPart, "end") == Buckets(["other"], ["base-string"], [], ["end"]);
    var b := Buckets(["other"], ["base-string"], [], ["end"]);
    assert Fragments(b) == ["other", "base-string", "end"];
    RenderFull(b, " ");
  }

  // ----- the object -----

  /** A Ruby object `merge` may be handed. */
  datatype Datum =
    | Text(s: string)
    | Sym(name: string)
    | Number(i: int)
    | List(items: seq<Datum>)
    | Composed(ss: StructuredString)

  /** The pattern `data` matches in `merge`, with another StructuredString read as its buckets. */
  function ArgOf(data: Datum): (r: Arg)
    reads if data.Composed? then {data.ss} else {}
    ensures data.Composed? ==> r == Whole(data.ss.View())
    ensures data.Text? ==> r == Plain(data.s)
    ensures r.Named? <==> data.List? && |data.items| == 2 && data.items[0].Text? && data.items[1].Sym?
    ensures data.Sym? || data.Number? ==> r == Malformed
  {
    match data
    case Composed(ss) => Whole(ss.View())
    case Text(s) => Plain(s)
    case List(items) =>
      if |items| == 2 && items[0].Text? && items[1].Sym? then Named(items[0].s, items[1].name)
      else Malformed
    case _ => Malformed
  }

  /** The argument of `init`: an existing StructuredString or the base string of a new one. */
  datatype Source = Existing(ss: StructuredString) | Base(s: string)

  class StructuredString {
    var first: seq<string>
    var base: seq<string>
    var other: seq<string>
    var last: seq<string>
    const separator: string

    /** The buckets this object holds. */
    function View(): Buckets
      reads this
    {
      Buckets(first, base, other, last)
    }

    /** `new(base, separator:)` */
    constructor (base: string, separator: string)
      ensures View() == Fresh(base)
      ensures this.separator == separator
    {
      this.first := [];
      this.base := [base];
      this.other := [];
      this.last := [];
      this.separator := separator;
    }

    /** `StructuredString.init(source)`: an existing object as it is, otherwise `new(source)`. */
    static method Init(source: Source) returns (r: StructuredString)
      ensures source.Existing? ==> r == source.ss
      ensures source.Base? ==> fresh(r) && r.View() == Fresh(source.s) && r.separator == " "
    {
      match source
      case Existing(ss) => r := ss;
      case Base(s) => r := new StructuredString(s, " ");
    }

    /** `to_s` */
    function ToS(): (r: string)
      reads this
      ensures r == "" <==> forall f :: f in Fragments(View()) ==> f == ""
    {
      Render(View(), separator)
    }

    /** `first(value)`: append to the first bucket; the object is returned. */
    method First(value: string) returns (r: StructuredString)
      modifies this
      ensures r == this
      ensures View() == Apply(old(View()), FirstPart, value)
    {
      first := first + [value];
      r := this;
    }

    /** `last(value)`: append to the last bucket; the object is returned. */
    method Last(value: string) returns (r: StructuredString)
      modifies this
      ensures r == this
      ensures View() == Apply(old(View()), LastPart, value)
    {
      last := last + [value];
      r := this;
    }

    /** `<<(value)`: append to the middle bucket; the object is returned. */
    method Append(value: string) returns (r: StructuredString)
      modifies this
      ensures r == this
      ensures View() == Apply(old(View()), OtherPart, value)
    {
      other := other + [value];
      r := this;
    }

    /** `read(key)`: the bucket named by `key`, or ArgumentError. */
    function Read(key: string): (r: Result<seq<string>, Error>)
      reads this
      ensures r.Ok? <==> key == "first" || key == "base" || key == "other" || key == "last"
      ensures r.Err? ==> r.error == ArgumentError
      ensures key == "first" ==> r == Ok(first)
      ensures key == "base" ==> r == Ok(base)
      ensures key == "other" ==> r == Ok(other)
      ensures key == "last" ==> r == Ok(last)
    {
      if key == "first" then Ok(first)
      else if key == "base" then Ok(base)
      else if key == "other" then Ok(other)
      else if key == "last" then Ok(last)
      else Err(ArgumentError)
    }

    /**
     * `merge(data)`: the object itself on success, with its buckets as
     * `MergeSpec` says; on an error the buckets are left as they were.
     */
    method Merge(data: Datum) returns (r: Result<StructuredString, Error>)
      modifies this
      ensures MergeSpec(old(View()), old(ArgOf(data))).Ok? ==>
        r == Ok(this) && View() == MergeSpec(old(View()), old(ArgOf(data))).value
      ensures MergeSpec(old(View()), old(ArgOf(data))).Err? ==>
        r == Err(MergeSpec(old(View()), old(ArgOf(data))).error) && View() == old(View())
      ensures data.Composed? && data.ss != this ==> data.ss.View() == old(data.ss.View())
      decreases if data.List? then 2 else 0
    {
      match data
      case Composed(ss) =>
        first := first + ss.first;
        base := base + ss.base;
        other := other + ss.other;
        last := last + ss.last;
        r := Ok(this);
      case Text(s) =>
        var _ := Append(s);
        r := Ok(this);
      case List(items) =>
        if |items| == 2 && items[0].Text? && items[1].Sym? {
          r := Send(items[1].name, items[0].s);
        } else {
          r := Err(ArgumentError);
        }
      case Sym(_) =>
        r := Err(ArgumentError);
      case Number(_) =>
        r := Err(ArgumentError);
    }

    /** The `[String, Symbol]` branch of `merge`: call the named method when it takes one argument. */
    method Send(name: string, s: string) returns (r: Result<StructuredString, Error>)
      modifies this
      ensures MergeSpec(old(View()), Named(s, name)).Ok? ==>
        r == Ok(this) && View() == MergeSpec(old(View()), Named(s, name)).value
      ensures MergeSpec(old(View()), Named(s, name)).Err? ==>
        r == Err(MergeSpec(old(View()), Named(s, name)).error) && View() == old(View())
      decreases 1
    {
      var arity := Arity(name);
      if arity.None? {
        r := Err(NameError);
      } else if arity.value != 1 {
        r := Err(ArgumentError);
      } else if name == "first" {
        var _ := First(s);
        r := Ok(this);
      } else if name == "last" {
        var _ := Last(s);
        r := Ok(this);
      } else if name == "<<" {
        var _ := Append(s);
        r := Ok(this);
      } else if name == "merge" {
        var inner := Merge(Text(s));
        r := Ok(this);
      } else if name == "read" {
        // `read` matches Symbols, and a String is never one
        r := Err(ArgumentError);
      } else {
        // `==` only compares
        r := Ok(this);
      }
    }

    /**
     * `==(other)`: the renderings agree. Two objects with the same separator
     * and the same non-empty fragments are equal, whatever empty fragments
     * either holds.
     */
    function Equals(other: StructuredString): (r: bool)
      reads this, other
      ensures r <==> ToS() == other.ToS()
      ensures separator == other.separator && NonEmpty(Fragments(View())) == NonEmpty(Fragments(other.View())) ==> r
      ensures other == this ==> r
    {
      ToS() == other.ToS()
    }
  }

  /** The test of `to_s`, run on an object. */
  method CombinesParts() returns (s: string)
    ensures s
         == "first" + " " + ("more-first" + " " + ("base-string" + " " + ("other" + " " + ("middle" + " " + ("last" + " " + "more-last")))))
  {
    var ss := new StructuredString("base-string", " ");
    var _ := ss.First("first");
    var _ := ss.Last("last");
    var _ := ss.Append("other");
    var _ := ss.First("more-first");
    var _ := ss.Last("more-last");
    var _ := ss.Append("middle");
    assert ss.View() == Buckets(["first", "more-first"], ["base-string"], ["other", "middle"], ["last", "more-last"]);
    RenderOrderExample();
    s := ss.ToS();
  }

  /** Merging an object into itself doubles every bucket. */
  method MergeIntoItself(ss: StructuredString) returns (r: Result<StructuredString, Error>)
    modifies ss
    ensures r == Ok(ss)
    ensures ss.View() == Combined(old(ss.View()), old(ss.View()))
  {
    r := ss.Merge(Composed(ss));
  }
}
