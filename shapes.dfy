/**
 * The part of Go's reflection that the echis walker observes: the kind of a
 * value (struct, pointer, anything else), the ordered fields of a struct with
 * their struct tags, and the element type of a pointer, so that a nil pointer
 * can be replaced by a fresh zero value of that type (reflect.New).
 */
module Shapes {

  /** A Go type as far as the walker can tell types apart. */
  datatype Type =
    | PrimT                          // any kind other than struct or pointer
    | StructT(fields: seq<FieldType>)
    | PtrT(elem: Type)

  /** A struct field's declaration: its tags (key -> value) and its type. */
  datatype FieldType = FieldType(tags: map<string, string>, typ: Type)

  /** A Go value. A pointer is either nil (and knows only its element type) or points at a value. */
  datatype Value =
    | Prim
    | Struct(fields: seq<Field>)
    | NilPtr(elem: Type)
    | Ptr(target: Value)

  /** A struct field's tags, which come from its declaration, and its current value. */
  datatype Field = Field(tags: map<string, string>, val: Value)

  /** Whether the walker recurses into a field of this value (struct or pointer kind). */
  predicate IsContainer(v: Value)
  {
    v.Struct? || v.NilPtr? || v.Ptr?
  }

  /** The zero value of a type: primitives are zero, structs hold zero fields, pointers are nil. */
  function Zero(t: Type): (z: Value)
    ensures z.Prim? <==> t.PrimT?
    ensures t.StructT? ==> z.Struct? && |z.fields| == |t.fields|
    ensures t.PtrT? ==> z == NilPtr(t.elem)
  {
    match t
    case PrimT => Prim
    case StructT(fs) => Struct(seq(|fs|, i requires 0 <= i < |fs| => Field(fs[i].tags, Zero(fs[i].typ))))
    case PtrT(e) => NilPtr(e)
  }

  /** The static type of a value; a pointer's element type is its target's type. */
  function TypeOf(v: Value): (t: Type)
    ensures t.PrimT? <==> v.Prim?
    ensures v.Struct? ==> t.StructT? && |t.fields| == |v.fields|
    ensures t.PtrT? <==> v.NilPtr? || v.Ptr?
  {
    match v
    case Prim => PrimT
    case Struct(fs) => StructT(seq(|fs|, i requires 0 <= i < |fs| => FieldType(fs[i].tags, TypeOf(fs[i].val))))
    case NilPtr(e) => PtrT(e)
    case Ptr(x) => PtrT(TypeOf(x))
  }

  /** The sum of a sequence of naturals, added up from the front. */
  function Sum(s: seq<nat>): nat
  {
    if s == [] then 0 else Sum(s[..|s| - 1]) + s[|s| - 1]
  }

  /** The size of a type: the number of type constructors in it. */
  function TypeRank(t: Type): (r: nat)
    ensures r >= 1
  {
    match t
    case PrimT => 1
    case StructT(fs) => 1 + Sum(seq(|fs|, i requires 0 <= i < |fs| => TypeRank(fs[i].typ)))
    case PtrT(e) => 1 + TypeRank(e)
  }

  /**
   * The termination measure of the walk. A nil pointer ranks one more than the
   * zero value it is replaced by, so following it makes progress although
   * Zero(elem) is not a sub-term of NilPtr(elem).
   */
  function Rank(v: Value): (r: nat)
    ensures r >= 1
  {
    match v
    case Prim => 1
    case Struct(fs) => 1 + Sum(seq(|fs|, i requires 0 <= i < |fs| => Rank(fs[i].val)))
    case NilPtr(e) => 1 + TypeRank(e)
    case Ptr(x) => 1 + Rank(x)
  }

  /** The ranks of the values of a struct's fields, in order. */
  function FieldRanks(fs: seq<Field>): (rs: seq<nat>)
    ensures |rs| == |fs|
    ensures forall i :: 0 <= i < |fs| ==> rs[i] == Rank(fs[i].val)
  {
    seq(|fs|, i requires 0 <= i < |fs| => Rank(fs[i].val))
  }

  /** The rank of a struct's fields, added up from the front. */
  function FieldsRank(fs: seq<Field>): nat
  {
    if fs == [] then 0 else FieldsRank(fs[..|fs| - 1]) + Rank(fs[|fs| - 1].val)
  }

  /** A struct is one larger than its fields together. */
  lemma {:induction false} RankStruct(fs: seq<Field>)
    ensures Rank(Struct(fs)) == 1 + FieldsRank(fs)
  {
    RanksSum(fs);
  }

  lemma {:induction false} RanksSum(fs: seq<Field>)
    ensures Sum(FieldRanks(fs)) == FieldsRank(fs)
  {
    if fs != [] {
      assert FieldRanks(fs)[..|fs| - 1] == FieldRanks(fs[..|fs| - 1]);
      RanksSum(fs[..|fs| - 1]);
    }
  }

  /** Each field's value is smaller than the struct holding it. */
  lemma {:induction false} FieldRankBound(fs: seq<Field>, i: nat)
    requires i < |fs|
    ensures Rank(fs[i].val) <= FieldsRank(fs)
    decreases |fs|
  {
    if i < |fs| - 1 {
      FieldRankBound(fs[..|fs| - 1], i);
    }
  }

  /** The zero value of a type is exactly as large as the type. */
  lemma {:induction false} RankZero(t: Type)
    ensures Rank(Zero(t)) == TypeRank(t)
  {
    match t
    case PrimT =>
    case StructT(fs) =>
      forall i | 0 <= i < |fs| {
        RankZero(fs[i].typ);
      }
      var zs := Zero(t).fields;
      assert seq(|zs|, i requires 0 <= i < |zs| => Rank(zs[i].val))
          == seq(|fs|, i requires 0 <= i < |fs| => TypeRank(fs[i].typ));
    case PtrT(e) =>
  }

  /** reflect.New(t).Elem() has type t: the zero value of a type is a value of that type. */
  lemma {:induction false} TypeOfZero(t: Type)
    ensures TypeOf(Zero(t)) == t
  {
    match t
    case PrimT =>
    case StructT(fs) =>
      forall i | 0 <= i < |fs| {
        TypeOfZero(fs[i].typ);
      }
      var zs := Zero(t).fields;
      assert TypeOf(Zero(t)).fields == fs;
    case PtrT(e) =>
  }

  /**
   * Follows pointers until a non-pointer value is reached; a nil pointer is
   * followed to the zero value of its element type.
   */
  function Deref(v: Value): (d: Value)
    ensures !d.NilPtr? && !d.Ptr?
    ensures !v.NilPtr? && !v.Ptr? ==> d == v
    ensures Rank(d) <= Rank(v)
    decreases Rank(v)
  {
    match v
    case NilPtr(e) => RankZero(e); Deref(Zero(e))
    case Ptr(x) => Deref(x)
    case _ => v
  }

  /** Dereferencing sees only the type: values of one type reach the same kind. */
  lemma {:induction false} DerefKindByType(v1: Value, v2: Value)
    requires TypeOf(v1) == TypeOf(v2)
    ensures Deref(v1).Struct? <==> Deref(v2).Struct?
    decreases Rank(v1) + Rank(v2)
  {
    match v1
    case Prim =>
    case Struct(_) =>
    case NilPtr(e) =>
      RankZero(e);
      TypeOfZero(e);
      if v2.Ptr? {
        DerefKindByType(Zero(e), v2.target);
      }
    case Ptr(x1) =>
      if v2.NilPtr? {
        RankZero(v2.elem);
        TypeOfZero(v2.elem);
        DerefKindByType(x1, Zero(v2.elem));
      } else {
        DerefKindByType(x1, v2.target);
      }
  }
}
