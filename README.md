# echis, modelled in Dafny

echis (krak3n/echis, Go) walks a struct value and builds a configuration lookup key for every
field that carries a given struct tag. The tag name is `mapstructure` by default, so these are the
same paths viper would use to unmarshal the struct. Each key is handed to a registrar, viper's
`BindEnv`. A key is made of the tag values on the way from the root to the field, joined by a
separator (`_` by default). Struct and pointer fields are walked before their own key is
registered. A nil pointer is walked as the zero value of its element type, so an unset
configuration section still gets its keys. A source that is not a struct, or a pointer to one,
fails with `ErrInvalidType`. A nil registrar fails with `ErrNilBinder`. The first error, whether
the walk's own or one the registrar returned, ends the walk and is returned unchanged.

The project is four modules:

- `Shapes` (shapes.dfy): the part of Go's reflection the walk observes.
  - A `Value` is a primitive, a struct with ordered, tagged fields, a nil pointer that knows its
    element `Type`, or a pointer to a value.
  - `Zero` is `reflect.New(t).Elem()`.
  - `Deref` follows pointers.
  - `Rank` is the walk's termination measure. A nil pointer ranks one more than its zero value.
- `Echis` (echis.dfy): the package.
  - Error codes and `Message`.
  - `Options` and the two option constructors, as the `Modifier` datatype.
  - `Join`.
  - The recording, optionally failing registrar: the class `Registrar`.
  - The imperative `Bind` and `bind`.
    - `BindAt` is `bind` down to the field loop.
    - `BindFields` is the loop.
    - `BindField` is one turn of the loop.
  - Every method's log and error are proved equal to `Replay(Walk(...))`.
    - `Walk` is a pure function. It gives the keys a never-failing registrar would receive and
      whether the walk ends in `ErrInvalidType`.
    - `Replay` plays such a trace against a registrar that fails on given call numbers.
- `EchisProperties` (properties.dfy): what the walk promises, proved about `Walk` and `Replay`.
- `EchisScenarios` (scenarios.dfy): all eight cases of the package's test table, and two more
  cases. Each is the contract of a method that calls the binder methods; the contracts are
  verified, not executed.

Modelling notes:

- The path of segments is a value (`seq<string>`). Go builds it with `append(parts, tv)`, which can
  share a backing array between siblings. A child only writes past the end of its parent's slice,
  and each slice is joined before a sibling overwrites it. So the keys are those of the value
  semantics used here.
- The options are a parameter of every method and of `Walk`, and every recursive call passes them
  on unchanged, as `bind` does.
- The Go spellings `DefaultSeperator` and `WithSeperator` are written `DefaultSeparator` and
  `WithSeparator` here.
- `Maybe` is the model's optional value (`None` or `Some`). It is not Go's `Option`, which is the
  type of the modifier closures, modelled here as `Modifier`.
- A registrar error is modelled as `BinderError(call)`, where `call` is the number of the failing
  `BindEnv` call in the registrar's whole life. The registrar's `failOn` set says which calls
  fail.

## Model

| member | source | states |
|---|---|---|
| Shapes.Zero | echis.go:88-89 | the zero value of a struct type is a struct with as many fields; of a pointer type, a nil pointer of that element type; primitive exactly for a primitive type |
| Shapes.TypeOfZero | echis.go:89 | `reflect.New(t).Elem()` is a value of type t |
| Shapes.Deref | echis.go:86-91 | following pointers (a nil one to its zero value) ends at a non-pointer, leaves a non-pointer unchanged, and never grows the value |
| Shapes.DerefKindByType | echis.go:86-95 | whether a value reaches a struct through its pointers depends only on its type |
| Echis.Message | echis.go:21-30 | each code's text, and the text identifies the code: ErrInvalidType iff the invalid-type text, ErrNilBinder iff "nil binder", every other code iff "unknown error" |
| Echis.Apply | echis.go:47-58 | a modifier sets its own field to its argument and leaves the other field as it was |
| Echis.Resolve | echis.go:66-73 | the resolved separator is the default "_" or the argument of some WithSeparator in the list, and likewise the tag name is "mapstructure" or some WithTagName's argument (which one: LastSeparatorWins, LastTagNameWins) |
| Echis.Join | echis.go:117 | a joined key starts with the first segment, followed by the separator when there are more segments (JoinSnoc gives the end) |
| Echis.Walk | echis.go:86-95 | the keys a never-failing registrar receives from bind at v and whether it ends in ErrInvalidType; a value that is not a struct after its pointers gives ErrInvalidType with no key |
| Echis.WalkFields | echis.go:99-122 | the walk over a struct's fields in declaration order; it can end in ErrInvalidType only if some tagged field is a struct or pointer |
| Echis.FieldStep | echis.go:100-119 | an untagged field contributes nothing; only a tagged struct or pointer field can end in ErrInvalidType |
| Echis.Replay | echis.go:111-119 | a walk against a failing registrar: the calls made are a prefix of the walk's keys, and a run without error made every call of a completed walk |
| Echis.FirstFailure | echis.go:117-119 | the index of the first registration that fails: no call before it fails, and the call at it does |
| Echis.Registrar.constructor | echis.go:33-35 | a fresh registrar has seen no call |
| Echis.Registrar.BindEnv | echis.go:33-35 | appends the key to the log; fails exactly when this call's number is one it fails on |
| Echis.Bind | echis.go:65-76 | options start at "_"/"mapstructure" and the modifiers apply left to right; a nil registrar gives ErrNilBinder with no call; otherwise the log grows by, and the error equals, the replay of the walk from the root |
| Echis.BindAt | echis.go:78-95 | nil registrar gives ErrNilBinder; pointers are followed, a nil one to its zero value; a non-struct gives ErrInvalidType; a struct's fields are bound; log and error follow the replay of the walk |
| Echis.BindFields | echis.go:99-122 | fields are bound in declaration order, stopping at the first error, which is returned; log and error follow the replay of the walk over the fields |
| Echis.BindField | echis.go:100-119 | an untagged field makes no call; a tagged one extends the path by its tag, binds below a struct or pointer field first, then registers the joined path; the first error is returned |
| EchisProperties.ReplayMeaning | echis.go:111-119 | fail-fast: the registrar sees a prefix of the walk's keys; a registrar error is returned unchanged from the last call made, the first that failed; success exactly when the walk completes and no call fails; ErrInvalidType exactly when the walk stops on a non-struct and no earlier call failed; never ErrNilBinder |
| EchisProperties.ReplayWithoutFailures | echis.go:117-122 | against a registrar that never fails, every key of the walk is registered whatever the registrar saw before, so binding twice registers the keys twice |
| EchisProperties.WalkDeref | echis.go:86-95 | the walk from a value is the walk over the fields of the struct reached through its pointers, or an immediate ErrInvalidType |
| EchisProperties.NonStructRejected | echis.go:92-95 | a source that is not a struct after following its pointers yields ErrInvalidType with no registration |
| EchisProperties.NonStructPointerFieldAborts | echis.go:110-114 | a tagged pointer field to a non-struct (a `*string`) ends the whole walk in ErrInvalidType; neither its own key nor any later key is registered |
| EchisProperties.UntaggedFieldInvisible | echis.go:102-105 | removing a field without the tag changes neither the keys nor the outcome |
| EchisProperties.AllUntaggedIsNoOp | echis.go:99-122 | a struct none of whose fields carries the tag registers nothing and succeeds |
| EchisProperties.KeysAreTagPaths | echis.go:107-117 | every registered key is the path so far plus the tag values down to one tagged field, joined by the separator |
| EchisProperties.FieldsKeysAreTagPaths | echis.go:99-117 | the same for the walk over a struct's fields |
| EchisProperties.FieldKeysAreTagPaths | echis.go:102-117 | the same for one field: every key of its part is the path so far plus its own tag value, and the tag values below it, joined |
| EchisProperties.TagPathsAreKeys | echis.go:99-122 | a walk that completes registers the joined key of every tagged field below the value, nested ones included |
| EchisProperties.FieldsTagPathsAreKeys | echis.go:99-122 | the same for the walk over a struct's fields |
| EchisProperties.FieldTagPathsAreKeys | echis.go:102-119 | the same for one field whose part completes: its own joined key and every tagged field's below it are registered |
| EchisProperties.OneKeyPerTaggedField | echis.go:99-122 | a walk that completes registers exactly as many keys as there are tagged fields below the value |
| EchisProperties.FieldsOneKeyPerTaggedField | echis.go:99-122 | the same for the walk over a struct's fields |
| EchisProperties.FieldKeyLast | echis.go:107-119 | when a tagged field's part completes, its last key is the field's own joined path, registered after everything below it |
| EchisProperties.FieldOrder | echis.go:107-119 | the keys are those of the fields before a tagged field, then those below it, then its own joined key, then those of the fields after it |
| EchisProperties.WalkDependsOnlyOnType | echis.go:86-91 | values of the same type, nil pointers or set ones, register the same keys with the same outcome |
| EchisProperties.FieldsDependOnlyOnTypes | echis.go:99-114 | fields with the same tags and types give the same walk |
| EchisProperties.NilPointerAsSetPointer | echis.go:87-91 | a nil pointer is walked exactly as a set pointer of its type |
| EchisProperties.LastSeparatorWins | echis.go:47-51 | the separator is the one given by the last WithSeparator |
| EchisProperties.DefaultSeparatorKept | echis.go:66-69 | without WithSeparator the separator is "_" |
| EchisProperties.LastTagNameWins | echis.go:53-58 | the tag name is the one given by the last WithTagName |
| EchisProperties.DefaultTagNameKept | echis.go:66-69 | without WithTagName the tag name is "mapstructure" |
| EchisProperties.JoinSnoc | echis.go:117 | joining one more segment puts exactly one separator before it |
| EchisScenarios.BindFresh | echis_test.go:204-218 | binding from the root with tag "config" and separator "_" against a fresh, never-failing registrar registers the walk's keys and fails only on a non-struct |
| EchisScenarios.NonStruct | echis_test.go:21-25 | a string source registers nothing and gives ErrInvalidType |
| EchisScenarios.NilNestedStruct | echis_test.go:26-38 | a nil pointer field registers "foo_bar" then "foo" and succeeds |
| EchisScenarios.FromStruct | echis_test.go:39-57 | a struct source registers "foo" |
| EchisScenarios.NestedStruct | echis_test.go:77-103 | a nested struct field registers "foo", "bar_baz", "bar" in that order |
| EchisScenarios.PointerPointer | echis_test.go:131-159 | a pointer root with a pointer field registers "foo", "bar_baz", "bar" in that order |
| EchisScenarios.PointerToStruct | echis_test.go:58-76 | a pointer to a struct registers "foo" |
| EchisScenarios.NestedPointerStruct | echis_test.go:104-130 | registers "foo", "bar_baz", "bar" in that order |
| EchisScenarios.DeepNested | echis_test.go:160-201 | registers "foo", "bar_baz", "bar_fizz_buzz", "bar_fizz", "bar" in that order |
| EchisScenarios.NilBinder | echis.go:79-81 | Bind with a nil registrar gives ErrNilBinder for any source |
| EchisScenarios.FailingRegistrar | echis.go:65-76 | with WithTagName("config") and WithSeparator(".") and a registrar failing its second call, "foo" and "bar.baz" are registered and that call's error is returned |

## Left out

- Go reflection mechanics and struct-tag parsing (`Tag.Lookup`). A field's tags are a
  `map<string, string>` looked up by the tag name.
- The panic `fv.Interface()` raises on an unexported field. Every field is treated as readable.
- A typed-nil registrar, which compares non-nil as an interface and would be called. The model's
  nil registrar is the `null` reference.
- Interface-kind fields and every other kind but struct and pointer are `Prim`. A tagged one is
  registered as a leaf: the code's kind test sees the field's static kind, never the dynamic value
  inside an interface, so it does not recurse into it.
- A pointer to an interface (`*interface{}`) as the source or reached through pointers.
  `v.Elem().Interface()` unwraps the interface, and `bind` goes on with its dynamic value, which
  may be a struct (then walked) or a pointer to one. The model has no dynamic values: the
  interface is `Prim`, so the pointer gives `ErrInvalidType`. That is what the code does for a nil
  pointer and for an interface holding nil or a value that does not reach a struct through its
  pointers. It is not what the code does for an interface holding a struct, or a pointer (nil or
  set) to a struct type.
  WalkDependsOnlyOnType and DerefKindByType hold only under this reading: two set `*interface{}`
  values of the same type can hold different dynamic values and walk differently.
- Arbitrary `Option` closures. Only the package's two constructors are modelled, as `Modifier`
  values.
- Viper and the real environment binding. The registrar records keys and fails on chosen call
  numbers. It receives the one already-joined key the code passes to the variadic `BindEnv`, never
  the separate segments.
- Self-referential pointer types (a struct with a field of type pointer to itself). The code
  recurses into such a field without end only when it carries the configured tag
  (echis.go:110-111), a nil pointer being walked as its zero value; an untagged one is skipped
  (echis.go:102-105). The types cannot be written as finite `Type` values, so neither case is
  modelled.
- Echis.Registrar.BindEnv: a registrar's error is `BinderError(call)`, which is never one of the
  package's own codes. A Binder that returns `ErrInvalidType` or `ErrNilBinder` itself, which
  `bind` would pass on unchanged, is not modelled. ReplayMeaning's "ErrInvalidType exactly when
  the walk stops on a non-struct" and "never ErrNilBinder" hold only for such registrars.
