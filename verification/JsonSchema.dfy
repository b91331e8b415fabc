/** JSON documents, the types that the mapper can serialize, and the values of those types. */
module JsonSchema {
  import opened Option

  /** A document tree. Numbers that are not integers are told apart from integers only. */
  datatype Json =
    | Null
    | Boolean(bit: bool)
    | Integer(number: int)
    | Fraction
    | Text(text: string)
    | Array(elements: seq<Json>)
    | Object(members: seq<Member>)

  datatype Member = Member(name: string, value: Json)

  /** The value of the first member called `name`. */
  function Lookup(members: seq<Member>, name: string): Option<Json> {
    if members == [] then None
    else if members[0].name == name then Some(members[0].value)
    else Lookup(members[1..], name)
  }

  /** The C++ types that are mapped: the field lists of the message structs are `Struct`s. */
  datatype Schema =
    | Int64
    | Bool
    | String
    | Vector(item: Schema)
    | Struct(fields: seq<Field>)
    | Optional(of: Schema)

  datatype Field = Field(name: string, of: Schema)

  /** `is_native_type`: numbers, strings, and vectors of native types. */
  predicate IsNative(schema: Schema) {
    match schema
    case Vector(item) => IsNative(item)
    case Struct(_) => false
    case Optional(_) => false
    case _ => true
  }

  predicate DistinctNames(fields: seq<Field>) {
    forall i, j :: 0 <= i < j < |fields| ==> fields[i].name != fields[j].name
  }

  /** The types for which the mapper compiles and whose members can be told apart. */
  predicate IsProper(schema: Schema) {
    match schema
    case Vector(item) => IsProper(item) && (IsNative(item) || item.Struct?)
    case Struct(fields) => DistinctNames(fields) && forall i :: 0 <= i < |fields| ==> IsProper(fields[i].of)
    case Optional(of) => IsProper(of) && !of.Optional?
    case _ => true
  }

  datatype Value =
    | IntValue(number: int)
    | BoolValue(bit: bool)
    | StringValue(text: string)
    | List(items: seq<Value>)
    | Record(values: seq<Value>)
    | Absent
    | Present(value: Value)

  predicate IsInt64(n: int) {
    -0x8000_0000_0000_0000 <= n < 0x8000_0000_0000_0000
  }

  /** `v` is a value of the type. */
  predicate Fits(schema: Schema, v: Value) {
    match schema
    case Int64 => v.IntValue? && IsInt64(v.number)
    case Bool => v.BoolValue?
    case String => v.StringValue?
    case Vector(item) => v.List? && forall i :: 0 <= i < |v.items| ==> Fits(item, v.items[i])
    case Struct(fields) =>
      v.Record? && |v.values| == |fields| && forall i :: 0 <= i < |fields| ==> Fits(fields[i].of, v.values[i])
    case Optional(of) => v.Absent? || (v.Present? && Fits(of, v.value))
  }

  /** A default-constructed value. */
  function Default(schema: Schema): (v: Value)
    ensures Fits(schema, v)
  {
    match schema
    case Int64 => IntValue(0)
    case Bool => BoolValue(false)
    case String => StringValue("")
    case Vector(_) => List([])
    case Struct(fields) => Record(seq(|fields|, i requires 0 <= i < |fields| => Default(fields[i].of)))
    case Optional(_) => Absent
  }

  // ---------- members by name ----------

  lemma {:induction false} LookupOfConcat(a: seq<Member>, b: seq<Member>, name: string)
    ensures Lookup(a + b, name) == if Lookup(a, name).Some? then Lookup(a, name) else Lookup(b, name)
  {
    if a == [] {
      assert a + b == b;
    } else {
      assert (a + b)[1..] == a[1..] + b;
      LookupOfConcat(a[1..], b, name);
    }
  }

  /** Where names repeat the first one counts. */
  lemma {:induction false} FirstMemberCounts(members: seq<Member>, name: string, i: nat)
    requires i < |members| && members[i].name == name && forall j :: 0 <= j < i ==> members[j].name != name
    ensures Lookup(members, name) == Some(members[i].value)
  {
    if i > 0 {
      FirstMemberCounts(members[1..], name, i - 1);
    }
  }

  predicate DistinctMembers(members: seq<Member>) {
    forall i, j :: 0 <= i < j < |members| ==> members[i].name != members[j].name
  }

  /** Where names do not repeat, a lookup finds a value exactly if there is such a member. */
  lemma {:induction false} LookupFinds(members: seq<Member>, name: string, value: Json)
    requires DistinctMembers(members)
    ensures Lookup(members, name) == Some(value) <==> Member(name, value) in members
  {
    if members != [] {
      LookupFinds(members[1..], name, value);
      assert members == [members[0]] + members[1..];
    }
  }

  /** The order of members does not matter where names do not repeat. */
  lemma LookupIgnoresOrder(a: seq<Member>, b: seq<Member>, name: string)
    requires DistinctMembers(a) && DistinctMembers(b) && multiset(a) == multiset(b)
    ensures Lookup(a, name) == Lookup(b, name)
  {
    forall value ensures Lookup(a, name) == Some(value) <==> Lookup(b, name) == Some(value) {
      LookupFinds(a, name, value);
      LookupFinds(b, name, value);
      assert Member(name, value) in multiset(a) <==> Member(name, value) in multiset(b);
    }
    assert Lookup(a, name).Some? ==> Lookup(b, name) == Some(Lookup(a, name).value);
    assert Lookup(b, name).Some? ==> Lookup(a, name) == Some(Lookup(b, name).value);
  }
}
