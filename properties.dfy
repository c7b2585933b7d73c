/**
 * What the echis walk promises, proved about the pure walk (Walk, WalkFields)
 * and about its run against a registrar (Replay), which the methods of module
 * Echis are proved to follow.
 */
module EchisProperties {
  import opened Shapes
  import opened Echis

  // ------------------------------------------------------------ registrar

  /**
   * Fail-fast: the registrar sees a prefix of the walk's keys; a registrar
   * error is the last call made and the first one that failed; the run ends
   * without error exactly when the walk completes and no call fails.
   */
  lemma ReplayMeaning(t: Trace, n: nat, failOn: set<nat>)
    ensures var r := Replay(t, n, failOn);
            && r.calls <= t.keys
            && (r.err == None <==> !t.invalid && forall c :: n <= c < n + |t.keys| ==> c !in failOn)
            && (r.err == Some(EchisError(ErrInvalidType)) <==>
                  t.invalid && forall c :: n <= c < n + |t.keys| ==> c !in failOn)
            && (r.err == None || r.err == Some(EchisError(ErrInvalidType)) ==> r.calls == t.keys)
            && (r.err.Some? && r.err.value.BinderError? ==>
                  && |r.calls| > 0
                  && r.err.value.call == n + |r.calls| - 1
                  && r.err.value.call in failOn
                  && forall c :: n <= c < r.err.value.call ==> c !in failOn)
            && r.err != Some(EchisError(ErrNilBinder))
  {
    var j := FirstFailure(t.keys, n, failOn);
    if j < |t.keys| {
      assert n + j in failOn;
    }
  }

  /**
   * A registrar that never fails receives every key of the walk, whatever it
   * received before: binding the same value twice registers the same keys twice.
   */
  lemma ReplayWithoutFailures(t: Trace, n: nat)
    ensures Replay(t, n, {}) == Run(t.keys, if t.invalid then Some(EchisError(ErrInvalidType)) else None)
  {
    ReplayMeaning(t, n, {});
  }

  // -------------------------------------------------------- invalid type

  /** The walk is decided by what v is after following its pointers. */
  lemma {:induction false} WalkDeref(v: Value, o: Options, path: seq<string>)
    ensures Walk(v, o, path) ==
              if Deref(v).Struct? then WalkFields(Deref(v).fields, o, path) else Trace([], true)
    decreases Rank(v)
  {
    match v
    case Prim =>
    case Struct(_) =>
    case NilPtr(e) =>
      RankZero(e);
      WalkDeref(Zero(e), o, path);
    case Ptr(x) =>
      WalkDeref(x, o, path);
  }

  /**
   * A source that is not a struct after following any number of pointers is
   * rejected with ErrInvalidType before a single key is registered.
   */
  lemma NonStructRejected(v: Value, o: Options, path: seq<string>, n: nat, failOn: set<nat>)
    requires !Deref(v).Struct?
    ensures Replay(Walk(v, o, path), n, failOn) == Run([], Some(EchisError(ErrInvalidType)))
  {
    WalkDeref(v, o, path);
  }

  /**
   * A tagged pointer field whose target is not a struct (a *string, say) is
   * recursed into, and the ErrInvalidType it yields ends the whole walk: no key
   * of that field or of any later one is registered.
   */
  lemma NonStructPointerFieldAborts(fs: seq<Field>, i: nat, o: Options, path: seq<string>)
    requires i < |fs| && o.tagName in fs[i].tags
    requires (fs[i].val.Ptr? || fs[i].val.NilPtr?) && !Deref(fs[i].val).Struct?
    ensures WalkFields(fs, o, path).invalid
    ensures WalkFields(fs, o, path).keys == WalkFields(fs[..i], o, path).keys
  {
    var p := path + [fs[i].tags[o.tagName]];
    SplitFields(fs, i, o, path);
    WalkDeref(fs[i].val, o, p);
    assert FieldStep(fs[i], o, path) == Trace([], true);
  }

  // ------------------------------------------------------ untagged fields

  /**
   * A field without the configured tag is invisible: removing it changes
   * neither the keys nor the outcome of the walk.
   */
  lemma UntaggedFieldInvisible(fs: seq<Field>, i: nat, o: Options, path: seq<string>)
    requires i < |fs| && o.tagName !in fs[i].tags
    ensures WalkFields(fs[..i] + fs[i + 1..], o, path) == WalkFields(fs, o, path)
  {
    var done := WalkFields(fs[..i], o, path);
    SplitFields(fs, i, o, path);
    assert done.keys + [] == done.keys;
    WalkFieldsConcat(fs[..i], fs[i + 1..], o, path);
  }

  /** A struct none of whose fields carries the tag is a successful no-op. */
  lemma {:induction false} AllUntaggedIsNoOp(fs: seq<Field>, o: Options, path: seq<string>)
    requires forall i :: 0 <= i < |fs| ==> o.tagName !in fs[i].tags
    ensures WalkFields(fs, o, path) == Done
    decreases |fs|
  {
    if fs != [] {
      AllUntaggedIsNoOp(fs[..|fs| - 1], o, path);
    }
  }

  // ------------------------------------------------------- key structure

  /**
   * s is the sequence of tag values on a way down from v to a tagged field:
   * s[0] tags a field of the struct v points to, and each further value tags
   * a field of the struct the previous field holds or points to.
   */
  ghost predicate TagPath(v: Value, tagName: string, s: seq<string>)
    decreases |s|, 2
  {
    Deref(v).Struct? && FieldsTagPath(Deref(v).fields, tagName, s)
  }

  ghost predicate FieldsTagPath(fs: seq<Field>, tagName: string, s: seq<string>)
    decreases |s|, 1
  {
    |s| >= 1 && exists i :: 0 <= i < |fs| && FieldTagPath(fs[i], tagName, s)
  }

  ghost predicate FieldTagPath(f: Field, tagName: string, s: seq<string>)
    requires |s| >= 1
    decreases |s|, 0
  {
    && tagName in f.tags && f.tags[tagName] == s[0]
    && (|s| == 1 || (IsContainer(f.val) && TagPath(f.val, tagName, s[1..])))
  }

  /** Every key of the walk is path and the tag values down to one tagged field, joined. */
  lemma {:induction false} KeysAreTagPaths(v: Value, o: Options, path: seq<string>)
    ensures forall k :: k in Walk(v, o, path).keys ==>
              exists s :: TagPath(v, o.tagName, s) && k == Join(path + s, o.separator)
    decreases Rank(v), 0
  {
    WalkDeref(v, o, path);
    if Deref(v).Struct? {
      var fs := Deref(v).fields;
      RankStruct(fs);
      FieldsKeysAreTagPaths(fs, o, path);
    }
  }

  lemma {:induction false} FieldsKeysAreTagPaths(fs: seq<Field>, o: Options, path: seq<string>)
    ensures forall k :: k in WalkFields(fs, o, path).keys ==>
              exists s :: FieldsTagPath(fs, o.tagName, s) && k == Join(path + s, o.separator)
    decreases FieldsRank(fs), 2
  {
    if fs != [] {
      var pre := fs[..|fs| - 1];
      var f := fs[|fs| - 1];
      FieldRankBound(fs, |fs| - 1);
      FieldsKeysAreTagPaths(pre, o, path);
      FieldKeysAreTagPaths(f, o, path);
      forall k | k in WalkFields(fs, o, path).keys
        ensures exists s :: FieldsTagPath(fs, o.tagName, s) && k == Join(path + s, o.separator)
      {
        if k in WalkFields(pre, o, path).keys {
          var s :| FieldsTagPath(pre, o.tagName, s) && k == Join(path + s, o.separator);
          var i :| 0 <= i < |pre| && FieldTagPath(pre[i], o.tagName, s);
          assert fs[i] == pre[i];
        } else {
          assert k in FieldStep(f, o, path).keys;
          var s :| |s| >= 1 && FieldTagPath(f, o.tagName, s) && k == Join(path + s, o.separator);
          assert FieldTagPath(fs[|fs| - 1], o.tagName, s);
        }
      }
    }
  }

  lemma {:induction false} FieldKeysAreTagPaths(f: Field, o: Options, path: seq<string>)
    ensures forall k :: k in FieldStep(f, o, path).keys ==>
              exists s :: |s| >= 1 && FieldTagPath(f, o.tagName, s) && k == Join(path + s, o.separator)
    decreases Rank(f.val), 1
  {
    forall k | k in FieldStep(f, o, path).keys
      ensures exists s :: |s| >= 1 && FieldTagPath(f, o.tagName, s) && k == Join(path + s, o.separator)
    {
      var tag := f.tags[o.tagName];
      var p := path + [tag];
      if k == Join(p, o.separator) {
        assert FieldTagPath(f, o.tagName, [tag]);
      } else {
        assert IsContainer(f.val) && k in Walk(f.val, o, p).keys;
        KeysAreTagPaths(f.val, o, p);
        var s' :| TagPath(f.val, o.tagName, s') && k == Join(p + s', o.separator);
        var s := [tag] + s';
        assert s[1..] == s';
        assert p + s' == path + s;
        assert FieldTagPath(f, o.tagName, s);
      }
    }
  }

  /** Conversely, a walk that completes registers the key of every tagged field below v. */
  lemma {:induction false} TagPathsAreKeys(v: Value, o: Options, path: seq<string>)
    requires !Walk(v, o, path).invalid
    ensures forall s :: TagPath(v, o.tagName, s) ==> Join(path + s, o.separator) in Walk(v, o, path).keys
    decreases Rank(v), 0
  {
    WalkDeref(v, o, path);
    if Deref(v).Struct? {
      var fs := Deref(v).fields;
      RankStruct(fs);
      FieldsTagPathsAreKeys(fs, o, path);
    }
  }

  lemma {:induction false} FieldsTagPathsAreKeys(fs: seq<Field>, o: Options, path: seq<string>)
    requires !WalkFields(fs, o, path).invalid
    ensures forall s :: FieldsTagPath(fs, o.tagName, s) ==>
              Join(path + s, o.separator) in WalkFields(fs, o, path).keys
    decreases FieldsRank(fs), 2
  {
    if fs != [] {
      var pre := fs[..|fs| - 1];
      var f := fs[|fs| - 1];
      FieldRankBound(fs, |fs| - 1);
      FieldsTagPathsAreKeys(pre, o, path);
      FieldTagPathsAreKeys(f, o, path);
      assert WalkFields(fs, o, path).keys == WalkFields(pre, o, path).keys + FieldStep(f, o, path).keys;
      forall s | FieldsTagPath(fs, o.tagName, s)
        ensures Join(path + s, o.separator) in WalkFields(fs, o, path).keys
      {
        var i :| 0 <= i < |fs| && FieldTagPath(fs[i], o.tagName, s);
        if i < |pre| {
          assert pre[i] == fs[i];
          assert FieldsTagPath(pre, o.tagName, s);
          assert Join(path + s, o.separator) in WalkFields(pre, o, path).keys;
        } else {
          assert i == |fs| - 1;
          assert |s| >= 1 && FieldTagPath(f, o.tagName, s);
          assert Join(path + s, o.separator) in FieldStep(f, o, path).keys;
        }
      }
    }
  }

  lemma {:induction false} FieldTagPathsAreKeys(f: Field, o: Options, path: seq<string>)
    requires !FieldStep(f, o, path).invalid
    ensures forall s :: |s| >= 1 && FieldTagPath(f, o.tagName, s) ==>
              Join(path + s, o.separator) in FieldStep(f, o, path).keys
    decreases Rank(f.val), 1
  {
    forall s | |s| >= 1 && FieldTagPath(f, o.tagName, s)
      ensures Join(path + s, o.separator) in FieldStep(f, o, path).keys
    {
      var p := path + [s[0]];
      var sub := if IsContainer(f.val) then Walk(f.val, o, p) else Done;
      assert FieldStep(f, o, path).keys == sub.keys + [Join(p, o.separator)];
      if |s| > 1 {
        TagPathsAreKeys(f.val, o, p);
        assert p + s[1..] == path + s;
      } else {
        assert p == path + s;
      }
    }
  }

  /** The number of keys a completed walk registers: one per tagged field, nested ones included. */
  ghost function TaggedCount(v: Value, tagName: string): nat
    decreases Rank(v), 1
  {
    var d := Deref(v);
    if d.Struct? then RankStruct(d.fields); FieldsTaggedCount(d.fields, tagName) else 0
  }

  ghost function FieldsTaggedCount(fs: seq<Field>, tagName: string): nat
    decreases FieldsRank(fs), 2
  {
    if fs == [] then 0
    else
      var f := fs[|fs| - 1];
      FieldsTaggedCount(fs[..|fs| - 1], tagName)
        + if tagName !in f.tags then 0
          else 1 + if IsContainer(f.val) then TaggedCount(f.val, tagName) else 0
  }

  /** A walk that completes calls BindEnv exactly once per tagged field. */
  lemma {:induction false} OneKeyPerTaggedField(v: Value, o: Options, path: seq<string>)
    requires !Walk(v, o, path).invalid
    ensures |Walk(v, o, path).keys| == TaggedCount(v, o.tagName)
    decreases Rank(v), 0
  {
    WalkDeref(v, o, path);
    var d := Deref(v);
    RankStruct(d.fields);
    FieldsOneKeyPerTaggedField(d.fields, o, path);
  }

  lemma {:induction false} FieldsOneKeyPerTaggedField(fs: seq<Field>, o: Options, path: seq<string>)
    requires !WalkFields(fs, o, path).invalid
    ensures |WalkFields(fs, o, path).keys| == FieldsTaggedCount(fs, o.tagName)
    decreases FieldsRank(fs), 1
  {
    if fs != [] {
      var f := fs[|fs| - 1];
      FieldsOneKeyPerTaggedField(fs[..|fs| - 1], o, path);
      if o.tagName in f.tags && IsContainer(f.val) {
        OneKeyPerTaggedField(f.val, o, path + [f.tags[o.tagName]]);
      }
    }
  }

  /**
   * Order: the keys of the fields before a tagged field come first, then the
   * keys below that field (if it is a struct or pointer), then its own key,
   * then the keys of the fields after it.
   */
  lemma FieldOrder(fs: seq<Field>, i: nat, o: Options, path: seq<string>)
    requires i < |fs| && o.tagName in fs[i].tags
    requires !WalkFields(fs, o, path).invalid
    ensures var p := path + [fs[i].tags[o.tagName]];
            var below := if IsContainer(fs[i].val) then Walk(fs[i].val, o, p).keys else [];
            WalkFields(fs, o, path).keys
              == WalkFields(fs[..i], o, path).keys + below + [Join(p, o.separator)]
                 + WalkFields(fs[i + 1..], o, path).keys
  {
    SplitFields(fs, i, o, path);
  }

  /**
   * A tagged field's own key comes after everything below it: when its step
   * completes, the last key is its joined path.
   */
  lemma FieldKeyLast(f: Field, o: Options, path: seq<string>)
    requires o.tagName in f.tags && !FieldStep(f, o, path).invalid
    ensures var t := FieldStep(f, o, path);
            |t.keys| > 0 && t.keys[|t.keys| - 1] == Join(path + [f.tags[o.tagName]], o.separator)
  {
  }

  // ------------------------------------------------------- nil pointers

  /**
   * The walk sees only the type of the source: values of the same type
   * (a nil pointer and a set one, zero and non-zero fields) register the
   * same keys with the same outcome.
   */
  lemma {:induction false} WalkDependsOnlyOnType(v1: Value, v2: Value, o: Options, path: seq<string>)
    requires TypeOf(v1) == TypeOf(v2)
    ensures Walk(v1, o, path) == Walk(v2, o, path)
    decreases Rank(v1) + Rank(v2), 0
  {
    match v1
    case Prim =>
    case Struct(fs1) =>
      var fs2 := v2.fields;
      RankStruct(fs1);
      RankStruct(fs2);
      forall i | 0 <= i < |fs1|
        ensures fs1[i].tags == fs2[i].tags && TypeOf(fs1[i].val) == TypeOf(fs2[i].val)
      {
        assert TypeOf(v1).fields[i] == TypeOf(v2).fields[i];
      }
      FieldsDependOnlyOnTypes(fs1, fs2, o, path);
    case NilPtr(e) =>
      RankZero(e);
      TypeOfZero(e);
      if v2.Ptr? {
        WalkDependsOnlyOnType(Zero(e), v2.target, o, path);
      }
    case Ptr(x1) =>
      if v2.NilPtr? {
        RankZero(v2.elem);
        TypeOfZero(v2.elem);
        WalkDependsOnlyOnType(x1, Zero(v2.elem), o, path);
      } else {
        WalkDependsOnlyOnType(x1, v2.target, o, path);
      }
  }

  lemma {:induction false} FieldsDependOnlyOnTypes(fs1: seq<Field>, fs2: seq<Field>, o: Options, path: seq<string>)
    requires |fs1| == |fs2|
    requires forall i :: 0 <= i < |fs1| ==> fs1[i].tags == fs2[i].tags && TypeOf(fs1[i].val) == TypeOf(fs2[i].val)
    ensures WalkFields(fs1, o, path) == WalkFields(fs2, o, path)
    decreases FieldsRank(fs1) + FieldsRank(fs2), 1
  {
    if fs1 != [] {
      var n := |fs1| - 1;
      FieldsDependOnlyOnTypes(fs1[..n], fs2[..n], o, path);
      var f1, f2 := fs1[n], fs2[n];
      if o.tagName in f1.tags && IsContainer(f1.val) {
        WalkDependsOnlyOnType(f1.val, f2.val, o, path + [f1.tags[o.tagName]]);
      }
    }
  }

  /** A nil pointer is walked as the zero value of its element type: exactly like a set pointer. */
  lemma NilPointerAsSetPointer(x: Value, o: Options, path: seq<string>)
    ensures Walk(NilPtr(TypeOf(x)), o, path) == Walk(Ptr(x), o, path)
  {
    WalkDependsOnlyOnType(NilPtr(TypeOf(x)), Ptr(x), o, path);
  }

  // ------------------------------------------------------------- options

  /** The separator is the one set by the last WithSeparator, left to right. */
  lemma {:induction false} LastSeparatorWins(ms: seq<Modifier>, i: nat)
    requires i < |ms| && ms[i].WithSeparator?
    requires forall j :: i < j < |ms| ==> !ms[j].WithSeparator?
    ensures Resolve(ms).separator == ms[i].s
    decreases |ms|
  {
    if i < |ms| - 1 {
      LastSeparatorWins(ms[..|ms| - 1], i);
    }
  }

  /** Without a WithSeparator the separator stays "_". */
  lemma {:induction false} DefaultSeparatorKept(ms: seq<Modifier>)
    requires forall j :: 0 <= j < |ms| ==> !ms[j].WithSeparator?
    ensures Resolve(ms).separator == "_"
    decreases |ms|
  {
    if ms != [] {
      DefaultSeparatorKept(ms[..|ms| - 1]);
    }
  }

  /** The tag name is the one set by the last WithTagName, left to right. */
  lemma {:induction false} LastTagNameWins(ms: seq<Modifier>, i: nat)
    requires i < |ms| && ms[i].WithTagName?
    requires forall j :: i < j < |ms| ==> !ms[j].WithTagName?
    ensures Resolve(ms).tagName == ms[i].n
    decreases |ms|
  {
    if i < |ms| - 1 {
      LastTagNameWins(ms[..|ms| - 1], i);
    }
  }

  /** Without a WithTagName the tag name stays "mapstructure". */
  lemma {:induction false} DefaultTagNameKept(ms: seq<Modifier>)
    requires forall j :: 0 <= j < |ms| ==> !ms[j].WithTagName?
    ensures Resolve(ms).tagName == "mapstructure"
    decreases |ms|
  {
    if ms != [] {
      DefaultTagNameKept(ms[..|ms| - 1]);
    }
  }

  // ---------------------------------------------------------------- join

  /** Joining one more segment puts the separator before it. */
  lemma {:induction false} JoinSnoc(parts: seq<string>, x: string, sep: string)
    ensures Join(parts + [x], sep) == if parts == [] then x else Join(parts, sep) + sep + x
    decreases |parts|
  {
    if |parts| > 1 {
      assert (parts + [x])[1..] == parts[1..] + [x];
      JoinSnoc(parts[1..], x, sep);
    } else if |parts| == 1 {
      assert (parts + [x])[1..] == [x];
    }
  }
}
