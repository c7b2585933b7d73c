/**
 * The echis path binder: walks a (pointer to a) struct and registers, for
 * every field carrying the configured struct tag, the lookup key made of the
 * tag values from the root down to that field, joined by the separator.
 */
module Echis {
  import opened Shapes

  /** An optional value (not to be confused with Go's Option, the modifier closure). */
  datatype Maybe<T> = None | Some(value: T)

  // ---------------------------------------------------------------- errors

  /** The package's own error type, an unsigned 8-bit code. */
  newtype Error = x: int | 0 <= x < 256

  const ErrInvalidType: Error := 1
  const ErrNilBinder: Error := 2

  const InvalidTypeMessage := "invalid type: must be struct or pointer to a struct"
  const NilBinderMessage := "nil binder"
  const UnknownMessage := "unknown error"

  /** Error.Error: the text of an error code. */
  function Message(e: Error): (m: string)
    ensures e == ErrInvalidType <==> m == InvalidTypeMessage
    ensures e == ErrNilBinder <==> m == NilBinderMessage
    ensures e != ErrInvalidType && e != ErrNilBinder <==> m == UnknownMessage
  {
    if e == ErrInvalidType then InvalidTypeMessage
    else if e == ErrNilBinder then NilBinderMessage
    else UnknownMessage
  }

  /**
   * A non-nil Go error as the walk can return it: one of the package's codes,
   * or the error the registrar returned from the call with the given index
   * (counted over the registrar's whole life, from 0).
   */
  datatype ErrorValue = EchisError(code: Error) | BinderError(call: nat)

  // --------------------------------------------------------------- options

  /** How keys are built: the separator between segments and the struct tag to read. */
  datatype Options = Options(separator: string, tagName: string)

  const DefaultSeparator := "_"
  const DefaultTagName := "mapstructure"

  /** The two option constructors of the package (Go's WithSeperator and WithTagName). */
  datatype Modifier = WithSeparator(s: string) | WithTagName(n: string)

  /** What one option does to the options it is applied to: it sets its own field and no other. */
  function Apply(o: Options, m: Modifier): (r: Options)
    ensures m.WithSeparator? ==> r.separator == m.s && r.tagName == o.tagName
    ensures m.WithTagName? ==> r.tagName == m.n && r.separator == o.separator
  {
    match m
    case WithSeparator(s) => o.(separator := s)
    case WithTagName(n) => o.(tagName := n)
  }

  /** The options after applying the modifiers to the defaults, from left to right. */
  function Resolve(ms: seq<Modifier>): (r: Options)
    ensures r.separator == DefaultSeparator || exists i :: 0 <= i < |ms| && ms[i] == WithSeparator(r.separator)
    ensures r.tagName == DefaultTagName || exists i :: 0 <= i < |ms| && ms[i] == WithTagName(r.tagName)
  {
    if ms == [] then Options(DefaultSeparator, DefaultTagName)
    else Apply(Resolve(ms[..|ms| - 1]), ms[|ms| - 1])
  }

  // ------------------------------------------------------------------ keys

  /** strings.Join: the parts with the separator between neighbours. */
  function Join(parts: seq<string>, sep: string): (j: string)
    ensures parts != [] ==> parts[0] <= j
    ensures |parts| > 1 ==> parts[0] + sep <= j
  {
    if parts == [] then ""
    else if |parts| == 1 then parts[0]
    else parts[0] + sep + Join(parts[1..], sep)
  }

  // ------------------------------------------------------ the walk, purely

  /**
   * What a walk does when the registrar never fails: the keys it registers,
   * in order, and whether it stops with ErrInvalidType after them.
   */
  datatype Trace = Trace(keys: seq<string>, invalid: bool)

  const Done := Trace([], false)

  /** One part of a walk followed by another; a part that failed ends the walk. */
  function Then(t1: Trace, t2: Trace): Trace
  {
    if t1.invalid then t1 else Trace(t1.keys + t2.keys, t2.invalid)
  }

  /** The walk of bind from the value v, below the segments path. */
  function Walk(v: Value, o: Options, path: seq<string>): (t: Trace)
    ensures !Deref(v).Struct? ==> t == Trace([], true)
    decreases Rank(v), 0
  {
    match v
    case Prim => Trace([], true)
    case Struct(fs) => RankStruct(fs); WalkFields(fs, o, path)
    case NilPtr(e) => RankZero(e); Walk(Zero(e), o, path)
    case Ptr(x) => Walk(x, o, path)
  }

  /** The walk over the fields of a struct, in declaration order. */
  function WalkFields(fs: seq<Field>, o: Options, path: seq<string>): (t: Trace)
    ensures t.invalid ==> exists i :: 0 <= i < |fs| && o.tagName in fs[i].tags && IsContainer(fs[i].val)
    decreases FieldsRank(fs), 2
  {
    if fs == [] then Done
    else Then(WalkFields(fs[..|fs| - 1], o, path), FieldStep(fs[|fs| - 1], o, path))
  }

  /**
   * The part of the walk for one field: nothing for an untagged field;
   * otherwise the walk below a struct or pointer field, then the field's own key.
   */
  function FieldStep(f: Field, o: Options, path: seq<string>): (t: Trace)
    ensures o.tagName !in f.tags ==> t == Done
    ensures t.invalid ==> o.tagName in f.tags && IsContainer(f.val)
    decreases Rank(f.val), 1
  {
    if o.tagName !in f.tags then Done
    else
      var p := path + [f.tags[o.tagName]];
      Then(if IsContainer(f.val) then Walk(f.val, o, p) else Done, Trace([Join(p, o.separator)], false))
  }

  // ------------------------------------------- the walk against a registrar

  /** What the registrar saw and what the walk returned. */
  datatype Run = Run(calls: seq<string>, err: Maybe<ErrorValue>)

  /**
   * The index, within ks, of the first key whose registration fails when the
   * registrar has already taken n calls and fails the calls numbered in
   * failOn; |ks| when none fails.
   */
  function FirstFailure(ks: seq<string>, n: nat, failOn: set<nat>): (j: nat)
    ensures j <= |ks|
    ensures forall c :: n <= c < n + j ==> c !in failOn
    ensures j < |ks| ==> n + j in failOn
    decreases |ks|
  {
    if ks == [] || n in failOn then 0
    else 1 + FirstFailure(ks[1..], n + 1, failOn)
  }

  /**
   * A walk played against a registrar that has taken n calls and fails those
   * numbered in failOn: the registrations stop at the first failing one,
   * whose error is returned unchanged.
   */
  function Replay(t: Trace, n: nat, failOn: set<nat>): (r: Run)
    ensures r.calls <= t.keys
    ensures r.err == None ==> !t.invalid && r.calls == t.keys
  {
    var j := FirstFailure(t.keys, n, failOn);
    if j < |t.keys| then Run(t.keys[..j + 1], Some(BinderError(n + j)))
    else Run(t.keys, if t.invalid then Some(EchisError(ErrInvalidType)) else None)
  }

  // ------------------------------------------------------------- the binder

  /**
   * A Binder that records every BindEnv call it receives and fails the calls
   * whose index (from 0) is in failOn.
   */
  class Registrar {
    var log: seq<string>
    const failOn: set<nat>

    constructor (failOn: set<nat>)
      ensures log == [] && this.failOn == failOn
    {
      log := [];
      this.failOn := failOn;
    }

    /** BindEnv with one, already joined, key. */
    method BindEnv(key: string) returns (err: Maybe<ErrorValue>)
      modifies this
      ensures log == old(log) + [key]
      ensures err == if |old(log)| in failOn then Some(BinderError(|old(log)|)) else None
    {
      err := if |log| in failOn then Some(BinderError(|log|)) else None;
      log := log + [key];
    }
  }

  // --------------------------------------------------------------- binding

  /**
   * Bind: resolves the options from the defaults and the modifiers, then
   * walks v from the root.
   */
  method Bind(b: Registrar?, v: Value, ms: seq<Modifier>) returns (err: Maybe<ErrorValue>)
    modifies b
    ensures b == null ==> err == Some(EchisError(ErrNilBinder))
    ensures b != null ==>
              var r := Replay(Walk(v, Resolve(ms), []), |old(b.log)|, b.failOn);
              b.log == old(b.log) + r.calls && err == r.err
  {
    var o := Options(DefaultSeparator, DefaultTagName);
    for i := 0 to |ms|
      invariant o == Resolve(ms[..i])
    {
      assert ms[..i + 1][..i] == ms[..i];
      o := Apply(o, ms[i]);
    }
    assert ms[..|ms|] == ms;
    err := BindAt(b, v, o, []);
  }

  /**
   * bind: registers the keys below v, each prefixed by path; stops at the
   * first error, which it returns unchanged.
   */
  method BindAt(b: Registrar?, v: Value, o: Options, path: seq<string>) returns (err: Maybe<ErrorValue>)
    modifies b
    ensures b == null ==> err == Some(EchisError(ErrNilBinder))
    ensures b != null ==>
              var r := Replay(Walk(v, o, path), |old(b.log)|, b.failOn);
              b.log == old(b.log) + r.calls && err == r.err
    decreases Rank(v), 0
  {
    if b == null {
      return Some(EchisError(ErrNilBinder));
    }
    match v
    case NilPtr(e) =>
      RankZero(e);
      err := BindAt(b, Zero(e), o, path);
    case Ptr(x) =>
      err := BindAt(b, x, o, path);
    case Prim =>
      err := Some(EchisError(ErrInvalidType));
    case Struct(fs) =>
      RankStruct(fs);
      err := BindFields(b, fs, o, path);
  }

  /** The loop of bind over the fields of a struct, in declaration order. */
  method BindFields(b: Registrar, fs: seq<Field>, o: Options, path: seq<string>) returns (err: Maybe<ErrorValue>)
    modifies b
    ensures var r := Replay(WalkFields(fs, o, path), |old(b.log)|, b.failOn);
            b.log == old(b.log) + r.calls && err == r.err
    decreases FieldsRank(fs), 2
  {
    ghost var log0 := b.log;
    ghost var n0 := |log0|;
    for i := 0 to |fs|
      invariant b.log == log0 + WalkFields(fs[..i], o, path).keys
      invariant Replay(WalkFields(fs[..i], o, path), n0, b.failOn).err == None
    {
      ghost var done := WalkFields(fs[..i], o, path);
      ghost var before := b.log;
      ghost var r := Replay(FieldStep(fs[i], o, path), |before|, b.failOn);
      FieldRankBound(fs, i);
      err := BindField(b, fs[i], o, path);
      FieldAdvance(fs, i, o, path, n0, |before|, b.failOn);
      Associative(log0, done.keys, r.calls);
      if err != None {
        return;
      }
    }
    assert fs[..|fs|] == fs;
    ReplayCompletes(WalkFields(fs, o, path), n0, b.failOn);
    err := None;
  }

  /**
   * One turn of bind's loop: skips an untagged field; otherwise binds what
   * lies below a struct or pointer field, then the field's own key.
   */
  method BindField(b: Registrar, f: Field, o: Options, path: seq<string>) returns (err: Maybe<ErrorValue>)
    modifies b
    ensures var r := Replay(FieldStep(f, o, path), |old(b.log)|, b.failOn);
            b.log == old(b.log) + r.calls && err == r.err
    decreases Rank(f.val), 1
  {
    if o.tagName !in f.tags {
      return None;
    }
    var p := path + [f.tags[o.tagName]];
    var key := Join(p, o.separator);
    ghost var log0 := b.log;
    ghost var sub := if IsContainer(f.val) then Walk(f.val, o, p) else Done;
    if IsContainer(f.val) {
      err := BindAt(b, f.val, o, p);
      if err != None {
        StopsIn(sub, Trace([key], false), |log0|, b.failOn);
        return;
      }
    }
    ReplayCompletes(sub, |log0|, b.failOn);
    err := b.BindEnv(key);
    ReplayOne(key, |log0| + |sub.keys|, b.failOn);
    PassesThrough(sub, Trace([key], false), |log0|, b.failOn);
    Associative(log0, sub.keys, [key]);
  }

  // ------------------------------------------- facts the method relies on

  /** Sequencing parts of a walk regroups. */
  lemma ThenAssoc(t1: Trace, t2: Trace, t3: Trace)
    ensures Then(Then(t1, t2), t3) == Then(t1, Then(t2, t3))
  {
    assert t1.keys + t2.keys + t3.keys == t1.keys + (t2.keys + t3.keys);
  }

  /** The walk over a concatenation of fields is the walk over each part, in turn. */
  lemma {:induction false} WalkFieldsConcat(a: seq<Field>, c: seq<Field>, o: Options, path: seq<string>)
    ensures WalkFields(a + c, o, path) == Then(WalkFields(a, o, path), WalkFields(c, o, path))
    decreases |c|
  {
    if c == [] {
      assert a + c == a;
    } else {
      var c' := c[..|c| - 1];
      assert (a + c)[..|a + c| - 1] == a + c';
      WalkFieldsConcat(a, c', o, path);
      ThenAssoc(WalkFields(a, o, path), WalkFields(c', o, path), FieldStep(c[|c| - 1], o, path));
    }
  }

  /** Failures in a concatenation: the first in the front part, else the first in the back part. */
  lemma {:induction false} FirstFailureConcat(a: seq<string>, c: seq<string>, n: nat, failOn: set<nat>)
    ensures FirstFailure(a + c, n, failOn) ==
              if FirstFailure(a, n, failOn) < |a| then FirstFailure(a, n, failOn)
              else |a| + FirstFailure(c, n + |a|, failOn)
    decreases |a|
  {
    if a != [] && n !in failOn {
      assert (a + c)[1..] == a[1..] + c;
      FirstFailureConcat(a[1..], c, n + 1, failOn);
    } else if a == [] {
      assert a + c == c;
    }
  }

  /** A part of a walk that stops the run stops the run of anything it is followed by. */
  lemma StopsIn(t1: Trace, t2: Trace, n: nat, failOn: set<nat>)
    requires Replay(t1, n, failOn).err.Some?
    ensures Replay(Then(t1, t2), n, failOn) == Replay(t1, n, failOn)
  {
    FirstFailureConcat(t1.keys, t2.keys, n, failOn);
    var j := FirstFailure(t1.keys, n, failOn);
    if !t1.invalid {
      assert (t1.keys + t2.keys)[..j + 1] == t1.keys[..j + 1];
    }
  }

  /** A part of a walk that completes registers all its keys, and the run goes on after it. */
  lemma PassesThrough(t1: Trace, t2: Trace, n: nat, failOn: set<nat>)
    requires Replay(t1, n, failOn).err == None
    ensures Replay(t1, n, failOn).calls == t1.keys
    ensures Replay(Then(t1, t2), n, failOn)
         == Run(t1.keys + Replay(t2, n + |t1.keys|, failOn).calls, Replay(t2, n + |t1.keys|, failOn).err)
  {
    FirstFailureConcat(t1.keys, t2.keys, n, failOn);
    var j2 := FirstFailure(t2.keys, n + |t1.keys|, failOn);
    if j2 < |t2.keys| {
      assert (t1.keys + t2.keys)[..|t1.keys| + j2 + 1] == t1.keys + t2.keys[..j2 + 1];
    }
  }

  /** Sequence concatenation regroups. */
  lemma Associative<T>(a: seq<T>, b: seq<T>, c: seq<T>)
    ensures a + b + c == a + (b + c)
  {
  }

  /** A run that returns no error made every registration of its walk. */
  lemma ReplayCompletes(t: Trace, n: nat, failOn: set<nat>)
    requires Replay(t, n, failOn).err == None
    ensures Replay(t, n, failOn).calls == t.keys
  {
  }

  /** One field's part of the walk failed: nothing after it runs. */
  lemma StepFails(done: Trace, step: Trace, rest: Trace, n: nat, failOn: set<nat>)
    requires Replay(done, n, failOn).err == None
    requires Replay(step, n + |done.keys|, failOn).err.Some?
    ensures var r := Replay(step, n + |done.keys|, failOn);
            Replay(Then(Then(done, step), rest), n, failOn) == Run(done.keys + r.calls, r.err)
  {
    ThenAssoc(done, step, rest);
    PassesThrough(done, Then(step, rest), n, failOn);
    StopsIn(step, rest, n + |done.keys|, failOn);
  }

  /** One field's part of the walk completed: so did the walk up to and including it. */
  lemma StepPasses(done: Trace, step: Trace, n: nat, failOn: set<nat>)
    requires Replay(done, n, failOn).err == None
    requires Replay(step, n + |done.keys|, failOn).err == None
    ensures Replay(Then(done, step), n, failOn).err == None
    ensures Then(done, step).keys == done.keys + step.keys
  {
    PassesThrough(done, step, n, failOn);
  }

  /** A single registration against the registrar. */
  lemma ReplayOne(key: string, n: nat, failOn: set<nat>)
    ensures Replay(Trace([key], false), n, failOn)
         == Run([key], if n in failOn then Some(BinderError(n)) else None)
  {
    assert [key][..1] == [key];
  }

  /**
   * One turn of the field loop, on the walk: when field i's part, run from
   * call number m, stops the run, it is the run over all the fields; when it
   * completes, the run reaches the next field without error.
   */
  lemma FieldAdvance(fs: seq<Field>, i: nat, o: Options, path: seq<string>, n: nat, m: nat, failOn: set<nat>)
    requires i < |fs|
    requires Replay(WalkFields(fs[..i], o, path), n, failOn).err == None
    requires m == n + |WalkFields(fs[..i], o, path).keys|
    ensures Replay(FieldStep(fs[i], o, path), m, failOn).err != None ==>
              Replay(WalkFields(fs, o, path), n, failOn)
                == Run(WalkFields(fs[..i], o, path).keys + Replay(FieldStep(fs[i], o, path), m, failOn).calls,
                       Replay(FieldStep(fs[i], o, path), m, failOn).err)
    ensures Replay(FieldStep(fs[i], o, path), m, failOn).err == None ==>
              Replay(WalkFields(fs[..i + 1], o, path), n, failOn).err == None
              && WalkFields(fs[..i + 1], o, path).keys
                   == WalkFields(fs[..i], o, path).keys + Replay(FieldStep(fs[i], o, path), m, failOn).calls
  {
    var done := WalkFields(fs[..i], o, path);
    var step := FieldStep(fs[i], o, path);
    SplitFields(fs, i, o, path);
    if Replay(step, m, failOn).err != None {
      StepFails(done, step, WalkFields(fs[i + 1..], o, path), n, failOn);
    } else {
      ReplayCompletes(step, m, failOn);
      StepPasses(done, step, n, failOn);
    }
  }

  /** The walk over the fields, cut before and after field i. */
  lemma SplitFields(fs: seq<Field>, i: nat, o: Options, path: seq<string>)
    requires i < |fs|
    ensures WalkFields(fs[..i + 1], o, path) == Then(WalkFields(fs[..i], o, path), FieldStep(fs[i], o, path))
    ensures WalkFields(fs, o, path) == Then(WalkFields(fs[..i + 1], o, path), WalkFields(fs[i + 1..], o, path))
  {
    assert fs == fs[..i + 1] + fs[i + 1..];
    assert fs[..i + 1][..i] == fs[..i];
    WalkFieldsConcat(fs[..i + 1], fs[i + 1..], o, path);
  }
}
