/**
 * The eight cases of the package's test table, stated as contracts of methods
 * that call the binder with a fresh registrar that never fails, tag name
 * "config" and separator "_"; and two cases of its own (a nil binder, a
 * failing registrar).
 */
module EchisScenarios {
  import opened Shapes
  import opened Echis
  import opened EchisProperties

  const Config := Options("_", "config")

  /** A field tagged `config:"<tag>"`. */
  function Tagged(tag: string, v: Value): Field
  {
    Field(map["config" := tag], v)
  }

  /** The walk over a struct of one field is that field's part. */
  lemma WalkSingle(a: Field, o: Options, path: seq<string>)
    ensures WalkFields([a], o, path) == Then(Done, FieldStep(a, o, path))
  {
    assert [a][..0] == [];
  }

  /** The walk over a struct of two fields is the two fields' parts in order. */
  lemma WalkPair(a: Field, c: Field, o: Options, path: seq<string>)
    ensures WalkFields([a, c], o, path) == Then(Then(Done, FieldStep(a, o, path)), FieldStep(c, o, path))
  {
    assert [a, c][..1] == [a];
    WalkSingle(a, o, path);
  }

  /** The part of the walk for a field tagged tag, under tag name "config" and the separator sep. */
  lemma TaggedStep(sep: string, tag: string, v: Value, path: seq<string>)
    ensures FieldStep(Tagged(tag, v), Options(sep, "config"), path)
              == Then(if IsContainer(v) then Walk(v, Options(sep, "config"), path + [tag]) else Done,
                      Trace([Join(path + [tag], sep)], false))
  {
  }

  /** Binds v from the root with the test options and reports what the registrar saw. */
  method BindFresh(v: Value) returns (keys: seq<string>, err: Maybe<ErrorValue>)
    ensures var t := Walk(v, Config, []);
            keys == t.keys && err == (if t.invalid then Some(EchisError(ErrInvalidType)) else None)
  {
    var b := new Registrar({});
    err := BindAt(b, v, Config, []);
    ReplayWithoutFailures(Walk(v, Config, []), 0);
    keys := b.log;
  }

  /** "non struct type should error": a string source registers nothing and fails. */
  method NonStruct() returns (keys: seq<string>, err: Maybe<ErrorValue>)
    ensures keys == [] && err == Some(EchisError(ErrInvalidType))
  {
    keys, err := BindFresh(Prim);
  }

  /** "nil nested struct": a nil pointer field is walked as its zero struct. */
  method NilNestedStruct() returns (keys: seq<string>, err: Maybe<ErrorValue>)
    ensures keys == ["foo_bar", "foo"] && err == None
  {
    var inner := StructT([FieldType(map["config" := "bar"], PrimT)]);
    var bar := Tagged("bar", Prim);
    assert Zero(inner) == Struct([bar]);
    assert ["foo"] + ["bar"] == ["foo", "bar"];
    assert Join(["foo", "bar"], "_") == "foo_bar";
    TaggedStep("_", "bar", Prim, ["foo"]);
    WalkSingle(bar, Config, ["foo"]);
    TaggedStep("_", "foo", NilPtr(inner), []);
    WalkSingle(Tagged("foo", NilPtr(inner)), Config, []);
    keys, err := BindFresh(Struct([Tagged("foo", NilPtr(inner))]));
  }

  /** "binds from struct": a struct source. */
  method FromStruct() returns (keys: seq<string>, err: Maybe<ErrorValue>)
    ensures keys == ["foo"] && err == None
  {
    keys, err := BindFresh(Struct([Tagged("foo", Prim)]));
  }

  /** "binds from pointer to struct": the pointer is followed. */
  method PointerToStruct() returns (keys: seq<string>, err: Maybe<ErrorValue>)
    ensures keys == ["foo"] && err == None
  {
    keys, err := BindFresh(Ptr(Struct([Tagged("foo", Prim)])));
  }

  /** The section `struct { Baz string `config:"baz"` }` of several cases. */
  const BazSection := Struct([Tagged("baz", Prim)])

  lemma BazSectionWalk(sep: string)
    ensures Walk(BazSection, Options(sep, "config"), ["bar"]) == Trace(["bar" + sep + "baz"], false)
    ensures Walk(Ptr(BazSection), Options(sep, "config"), ["bar"]) == Walk(BazSection, Options(sep, "config"), ["bar"])
  {
    assert ["bar"] + ["baz"] == ["bar", "baz"];
    assert Join(["bar", "baz"], sep) == "bar" + sep + "baz";
    TaggedStep(sep, "baz", Prim, ["bar"]);
    WalkSingle(Tagged("baz", Prim), Options(sep, "config"), ["bar"]);
  }

  /** The section of "deep nested": a field baz and a struct field fizz holding buzz. */
  const FizzSection := Struct([Tagged("buzz", Prim)])
  const DeepSection := Struct([Tagged("baz", Prim), Tagged("fizz", FizzSection)])

  lemma FizzSectionWalk()
    ensures Walk(FizzSection, Config, ["bar", "fizz"]) == Trace(["bar_fizz_buzz"], false)
  {
    assert ["bar", "fizz"] + ["buzz"] == ["bar", "fizz", "buzz"];
    assert Join(["bar", "fizz", "buzz"], "_") == "bar_fizz_buzz";
    TaggedStep("_", "buzz", Prim, ["bar", "fizz"]);
    WalkSingle(Tagged("buzz", Prim), Config, ["bar", "fizz"]);
  }

  lemma DeepSectionWalk()
    ensures Walk(DeepSection, Config, ["bar"]) == Trace(["bar_baz", "bar_fizz_buzz", "bar_fizz"], false)
  {
    assert ["bar"] + ["baz"] == ["bar", "baz"];
    assert ["bar"] + ["fizz"] == ["bar", "fizz"];
    assert Join(["bar", "baz"], "_") == "bar_baz";
    assert Join(["bar", "fizz"], "_") == "bar_fizz";
    FizzSectionWalk();
    TaggedStep("_", "baz", Prim, ["bar"]);
    TaggedStep("_", "fizz", FizzSection, ["bar"]);
    WalkPair(Tagged("baz", Prim), Tagged("fizz", FizzSection), Config, ["bar"]);
  }

  /**
   * A root with a plain field foo and a field bar whose walk below "bar"
   * completes with keys, under tag name "config" and the separator sep.
   */
  lemma FooBarWalk(sep: string, bar: Value, keys: seq<string>)
    requires IsContainer(bar) && Walk(bar, Options(sep, "config"), ["bar"]) == Trace(keys, false)
    ensures WalkFields([Tagged("foo", Prim), Tagged("bar", bar)], Options(sep, "config"), [])
              == Trace(["foo"] + keys + ["bar"], false)
  {
    var root: seq<string> := [];
    assert root + ["bar"] == ["bar"];
    assert root + ["foo"] == ["foo"];
    TaggedStep(sep, "foo", Prim, []);
    TaggedStep(sep, "bar", bar, []);
    WalkPair(Tagged("foo", Prim), Tagged("bar", bar), Options(sep, "config"), []);
  }

  /** "nested struct": the nested key is registered before its parent's. */
  method NestedStruct() returns (keys: seq<string>, err: Maybe<ErrorValue>)
    ensures keys == ["foo", "bar_baz", "bar"] && err == None
  {
    BazSectionWalk("_");
    assert "bar" + "_" + "baz" == "bar_baz";
    FooBarWalk("_", BazSection, ["bar_baz"]);
    keys, err := BindFresh(Struct([Tagged("foo", Prim), Tagged("bar", BazSection)]));
  }

  /** "nested pointer struct": the same through a pointer field. */
  method NestedPointerStruct() returns (keys: seq<string>, err: Maybe<ErrorValue>)
    ensures keys == ["foo", "bar_baz", "bar"] && err == None
  {
    BazSectionWalk("_");
    assert "bar" + "_" + "baz" == "bar_baz";
    FooBarWalk("_", Ptr(BazSection), ["bar_baz"]);
    keys, err := BindFresh(Struct([Tagged("foo", Prim), Tagged("bar", Ptr(BazSection))]));
  }

  /** "pointer pointer": a pointer root with a pointer field. */
  method PointerPointer() returns (keys: seq<string>, err: Maybe<ErrorValue>)
    ensures keys == ["foo", "bar_baz", "bar"] && err == None
  {
    BazSectionWalk("_");
    assert "bar" + "_" + "baz" == "bar_baz";
    FooBarWalk("_", Ptr(BazSection), ["bar_baz"]);
    keys, err := BindFresh(Ptr(Struct([Tagged("foo", Prim), Tagged("bar", Ptr(BazSection))])));
  }

  /** "deep nested": segments accumulate down two levels. */
  method DeepNested() returns (keys: seq<string>, err: Maybe<ErrorValue>)
    ensures keys == ["foo", "bar_baz", "bar_fizz_buzz", "bar_fizz", "bar"] && err == None
  {
    DeepSectionWalk();
    FooBarWalk("_", Ptr(DeepSection), ["bar_baz", "bar_fizz_buzz", "bar_fizz"]);
    keys, err := BindFresh(Ptr(Struct([Tagged("foo", Prim), Tagged("bar", Ptr(DeepSection))])));
  }

  /** A nil binder is refused before the source is looked at. */
  method NilBinder(v: Value) returns (err: Maybe<ErrorValue>)
    ensures err == Some(EchisError(ErrNilBinder))
  {
    err := Bind(null, v, []);
  }

  /** The root of the failing-registrar case, walked with tag name "config" and the separator ".". */
  lemma DottedRootWalk()
    ensures Walk(Struct([Tagged("foo", Prim), Tagged("bar", Ptr(BazSection))]), Options(".", "config"), [])
              == Trace(["foo", "bar.baz", "bar"], false)
  {
    BazSectionWalk(".");
    assert "bar" + "." + "baz" == "bar.baz";
    FooBarWalk(".", Ptr(BazSection), ["bar.baz"]);
    assert ["foo"] + ["bar.baz"] + ["bar"] == ["foo", "bar.baz", "bar"];
  }

  /** Against a registrar failing its second call, that walk stops after two calls. */
  lemma SecondCallFails()
    ensures Replay(Trace(["foo", "bar.baz", "bar"], false), 0, {1})
              == Run(["foo", "bar.baz"], Some(BinderError(1)))
  {
    assert FirstFailure(["foo", "bar.baz", "bar"], 0, {1}) == 1;
    assert ["foo", "bar.baz", "bar"][..2] == ["foo", "bar.baz"];
  }

  /**
   * Options given to Bind, and a registrar that fails its second call: the
   * walk stops there and returns the registrar's error unchanged.
   */
  method FailingRegistrar() returns (keys: seq<string>, err: Maybe<ErrorValue>)
    ensures keys == ["foo", "bar.baz"] && err == Some(BinderError(1))
  {
    var ms := [WithTagName("config"), WithSeparator(".")];
    assert ms[..1] == [WithTagName("config")];
    assert Resolve(ms) == Options(".", "config");
    DottedRootWalk();
    SecondCallFails();
    var b := new Registrar({1});
    err := Bind(b, Struct([Tagged("foo", Prim), Tagged("bar", Ptr(BazSection))]), ms);
    keys := b.log;
  }
}
