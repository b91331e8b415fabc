/** The mapper between values and documents: its specification, and what the two directions have to do with each
    other. */
module JsonCodec {
  import opened JsonSchema
  import opened Option

  datatype Error = MissingKey(name: string) | TypeMismatch(name: string) | NotAnObject

  datatype Result<+T> = Ok(value: T) | Err(error: Error)

  // ---------- values to documents ----------

  /** The document of a value; an optional value has none of its own. */
  function Encode(schema: Schema, v: Value): Json
    requires IsProper(schema) && Fits(schema, v) && !schema.Optional?
    decreases schema, 0
  {
    match schema
    case Int64 => Integer(v.number)
    case Bool => Boolean(v.bit)
    case String => Text(v.text)
    case Vector(item) => Array(seq(|v.items|, i requires 0 <= i < |v.items| => Encode(item, v.items[i])))
    case Struct(fields) => Object(EncodeFields(schema, v.values, |fields|))
  }

  /** The members of the first `n` fields. */
  function EncodeFields(schema: Schema, values: seq<Value>, n: nat): seq<Member>
    requires schema.Struct? && IsProper(schema) && Fits(schema, Record(values)) && n <= |schema.fields|
    decreases schema, -1, n
  {
    if n == 0 then []
    else
      var field := schema.fields[n - 1];
      EncodeFields(schema, values, n - 1) + EncodeField(field.name, field.of, values[n - 1])
  }

  /** The member for one field; an absent value has none. */
  function EncodeField(name: string, schema: Schema, v: Value): (members: seq<Member>)
    requires IsProper(schema) && Fits(schema, v)
    ensures |members| <= 1 && (members != [] ==> members[0].name == name)
    decreases schema, 1
  {
    match schema
    case Optional(of) => if v.Absent? then [] else [Member(name, Encode(of, v.value))]
    case _ => [Member(name, Encode(schema, v))]
  }

  // ---------- documents to values ----------

  /** A C string ends at its first NUL. */
  function CString(s: string): (r: string)
    ensures r <= s && '\0' !in r
    ensures |r| < |s| ==> s[|r|] == '\0'
  {
    if s == [] || s[0] == '\0' then [] else [s[0]] + CString(s[1..])
  }

  /** `JsonValueAdapter`: a document read as a native value. */
  function Adapt(schema: Schema, name: string, json: Json): Result<Value>
    requires IsNative(schema)
    decreases schema, 0
  {
    match schema
    case Int64 => if json.Integer? && IsInt64(json.number) then Ok(IntValue(json.number)) else Err(TypeMismatch(name))
    case Bool => if json.Boolean? then Ok(BoolValue(json.bit)) else Err(TypeMismatch(name))
    case String => if json.Text? then Ok(StringValue(CString(json.text))) else Err(TypeMismatch(name))
    case Vector(item) =>
      if !json.Array? then Err(TypeMismatch(name))
      else ToList(AdaptAll(schema, name, json.elements, |json.elements|))
  }

  function ToList(items: Result<seq<Value>>): Result<Value> {
    match items
    case Ok(values) => Ok(List(values))
    case Err(e) => Err(e)
  }

  function ToRecord(values: Result<seq<Value>>): Result<Value> {
    match values
    case Ok(vs) => Ok(Record(vs))
    case Err(e) => Err(e)
  }

  function ToPresent(v: Result<Value>): Result<Value> {
    match v
    case Ok(value) => Ok(Present(value))
    case Err(e) => Err(e)
  }

  /** One more value behind those read so far; the first error stays. */
  function Then(values: Result<seq<Value>>, next: Result<Value>): Result<seq<Value>> {
    match (values, next)
    case (Err(e), _) => Err(e)
    case (Ok(_), Err(e)) => Err(e)
    case (Ok(vs), Ok(v)) => Ok(vs + [v])
  }

  /** The first `n` elements read as items of a vector of native values. */
  function AdaptAll(schema: Schema, name: string, elements: seq<Json>, n: nat): Result<seq<Value>>
    requires schema.Vector? && IsNative(schema) && n <= |elements|
    decreases schema, -1, n
  {
    if n == 0 then Ok([])
    else Then(AdaptAll(schema, name, elements, n - 1), Adapt(schema.item, name, elements[n - 1]))
  }

  /** `backward`: field `name` of type `schema`, read from an object into a value that is there already. */
  function DecodeField(name: string, schema: Schema, json: Json, target: Value): Result<Value>
    requires IsProper(schema) && Fits(schema, target)
    decreases schema, 1
  {
    if IsNative(schema) then
      if !json.Object? then Err(NotAnObject)
      else if Lookup(json.members, name).None? then Err(MissingKey(name))
      else Adapt(schema, name, Lookup(json.members, name).value)
    else
      match schema
      case Struct(_) =>
        if !json.Object? then Err(TypeMismatch(name))
        else if Lookup(json.members, name).None? then Err(MissingKey(name))
        else DecodeStruct(schema, Lookup(json.members, name).value, target)
      case Vector(item) =>
        if !json.Object? then Err(NotAnObject)
        else (match Lookup(json.members, name)
              case None => Ok(List([]))
              case Some(Array(elements)) => ToList(DecodeAll(schema, elements, |elements|))
              case Some(_) => Err(TypeMismatch(name)))
      case Optional(of) =>
        if !json.Object? then Err(TypeMismatch(name))
        else if Lookup(json.members, name).None? || Lookup(json.members, name).value.Null? then Ok(target)
        else ToPresent(DecodeField(name, of, json, Default(of)))
  }

  /** `jdeserialize`: the fields of a struct, one after the other. */
  function DecodeStruct(schema: Schema, json: Json, target: Value): Result<Value>
    requires schema.Struct? && IsProper(schema) && Fits(schema, target)
    decreases schema, 0
  {
    ToRecord(DecodeFields(schema, json, target.values, |schema.fields|))
  }

  function DecodeFields(schema: Schema, json: Json, targets: seq<Value>, n: nat): Result<seq<Value>>
    requires schema.Struct? && IsProper(schema) && Fits(schema, Record(targets)) && n <= |schema.fields|
    decreases schema, -1, n
  {
    if n == 0 then Ok([])
    else
      var field := schema.fields[n - 1];
      Then(DecodeFields(schema, json, targets, n - 1), DecodeField(field.name, field.of, json, targets[n - 1]))
  }

  /** The first `n` elements read as structs. */
  function DecodeAll(schema: Schema, elements: seq<Json>, n: nat): Result<seq<Value>>
    requires schema.Vector? && schema.item.Struct? && IsProper(schema) && n <= |elements|
    decreases schema, -1, n
  {
    if n == 0 then Ok([])
    else Then(DecodeAll(schema, elements, n - 1), DecodeStruct(schema.item, elements[n - 1], Default(schema.item)))
  }

  // ---------- the round trip ----------

  /** What is left of `v` once it has been written and read back into `target`: strings end at a NUL, and what is
      absent leaves the target as it was. */
  function Overlaid(schema: Schema, v: Value, target: Value): Value
    requires IsProper(schema) && Fits(schema, v) && Fits(schema, target)
    decreases schema, 0
  {
    match schema
    case String => StringValue(CString(v.text))
    case Vector(_) => List(OverlaidItems(schema, v.items, |v.items|))
    case Struct(fields) => Record(OverlaidFields(schema, v.values, target.values, |fields|))
    case Optional(of) => if v.Absent? then target else Present(Overlaid(of, v.value, Default(of)))
    case _ => v
  }

  function OverlaidItems(schema: Schema, items: seq<Value>, n: nat): seq<Value>
    requires schema.Vector? && IsProper(schema) && Fits(schema, List(items)) && n <= |items|
    decreases schema, -1, n
  {
    if n == 0 then []
    else OverlaidItems(schema, items, n - 1) + [Overlaid(schema.item, items[n - 1], Default(schema.item))]
  }

  function OverlaidFields(schema: Schema, values: seq<Value>, targets: seq<Value>, n: nat): seq<Value>
    requires schema.Struct? && IsProper(schema) && Fits(schema, Record(values)) && Fits(schema, Record(targets))
    requires n <= |schema.fields|
    decreases schema, -1, n
  {
    if n == 0 then []
    else
      var last := Overlaid(schema.fields[n - 1].of, values[n - 1], targets[n - 1]);
      OverlaidFields(schema, values, targets, n - 1) + [last]
  }

  lemma {:induction false} MembersByName(schema: Schema, values: seq<Value>, n: nat, i: nat)
    requires schema.Struct? && IsProper(schema) && Fits(schema, Record(values)) && n <= |schema.fields|
    requires i < |schema.fields|
    ensures Lookup(EncodeFields(schema, values, n), schema.fields[i].name) ==
            if i >= n then None
            else Lookup(EncodeField(schema.fields[i].name, schema.fields[i].of, values[i]), schema.fields[i].name)
  {
    if n > 0 {
      var last := schema.fields[n - 1];
      MembersByName(schema, values, n - 1, i);
      LookupOfConcat(EncodeFields(schema, values, n - 1), EncodeField(last.name, last.of, values[n - 1]),
          schema.fields[i].name);
    }
  }

  /** A native value is read back up to the NULs in its strings. */
  lemma {:induction false} NativeRoundTrip(schema: Schema, name: string, v: Value, target: Value)
    requires IsNative(schema) && IsProper(schema) && Fits(schema, v) && Fits(schema, target)
    ensures Adapt(schema, name, Encode(schema, v)) == Ok(Overlaid(schema, v, target))
    decreases schema, 0
  {
    if schema.Vector? {
      NativesRoundTrip(schema, name, v, |v.items|);
    }
  }

  lemma {:induction false} NativesRoundTrip(schema: Schema, name: string, v: Value, n: nat)
    requires schema.Vector? && IsNative(schema) && IsProper(schema) && Fits(schema, v) && n <= |v.items|
    ensures AdaptAll(schema, name, Encode(schema, v).elements, n) == Ok(OverlaidItems(schema, v.items, n))
    decreases schema, -1, n
  {
    if n > 0 {
      NativesRoundTrip(schema, name, v, n - 1);
      NativeRoundTrip(schema.item, name, v.items[n - 1], Default(schema.item));
    }
  }

  /** Reading back, out of any object that has the member that was written, what was written there. */
  lemma {:induction false} FieldRoundTrip(name: string, schema: Schema, v: Value, target: Value, members: seq<Member>)
    requires IsProper(schema) && Fits(schema, v) && Fits(schema, target)
    requires Lookup(members, name) == Lookup(EncodeField(name, schema, v), name)
    ensures DecodeField(name, schema, Object(members), target) == Ok(Overlaid(schema, v, target))
    decreases schema, 1
  {
    if IsNative(schema) {
      NativeRoundTrip(schema, name, v, target);
    } else {
      match schema {
        case Struct(_) => StructRoundTrip(schema, v, target);
        case Vector(_) => StructsRoundTrip(schema, v, |v.items|);
        case Optional(of) =>
          if v.Present? {
            FieldRoundTrip(name, of, v.value, Default(of), members);
          }
      }
    }
  }

  /** A struct of any depth is read back from its document, over any struct of its type. */
  lemma {:induction false} StructRoundTrip(schema: Schema, v: Value, target: Value)
    requires schema.Struct? && IsProper(schema) && Fits(schema, v) && Fits(schema, target)
    ensures DecodeStruct(schema, Encode(schema, v), target) == Ok(Overlaid(schema, v, target))
    decreases schema, 0
  {
    FieldsRoundTrip(schema, v.values, target.values, |schema.fields|);
  }

  lemma {:induction false} FieldsRoundTrip(schema: Schema, values: seq<Value>, targets: seq<Value>, n: nat)
    requires schema.Struct? && IsProper(schema) && Fits(schema, Record(values)) && Fits(schema, Record(targets))
    requires n <= |schema.fields|
    ensures DecodeFields(schema, Encode(schema, Record(values)), targets, n) ==
        Ok(OverlaidFields(schema, values, targets, n))
    decreases schema, -1, n
  {
    if n > 0 {
      var field := schema.fields[n - 1];
      FieldsRoundTrip(schema, values, targets, n - 1);
      MembersByName(schema, values, |schema.fields|, n - 1);
      var members := EncodeFields(schema, values, |schema.fields|);
      FieldRoundTrip(field.name, field.of, values[n - 1], targets[n - 1], members);
    }
  }

  lemma {:induction false} StructsRoundTrip(schema: Schema, v: Value, n: nat)
    requires schema.Vector? && schema.item.Struct? && IsProper(schema) && Fits(schema, v) && n <= |v.items|
    ensures DecodeAll(schema, Encode(schema, v).elements, n) == Ok(OverlaidItems(schema, v.items, n))
    decreases schema, -1, n
  {
    if n > 0 {
      StructsRoundTrip(schema, v, n - 1);
      StructRoundTrip(schema.item, v.items[n - 1], Default(schema.item));
    }
  }

  // ---------- into a fresh object ----------

  /** No string anywhere in the value has a NUL. */
  predicate NulFree(schema: Schema, v: Value)
    requires Fits(schema, v)
    decreases schema, 0
  {
    match schema
    case String => '\0' !in v.text
    case Vector(_) => NulFreeItems(schema, v.items, |v.items|)
    case Struct(fields) => NulFreeFields(schema, v.values, |fields|)
    case Optional(of) => v.Present? ==> NulFree(of, v.value)
    case _ => true
  }

  predicate NulFreeItems(schema: Schema, items: seq<Value>, n: nat)
    requires schema.Vector? && Fits(schema, List(items)) && n <= |items|
    decreases schema, -1, n
  {
    n == 0 || (NulFreeItems(schema, items, n - 1) && NulFree(schema.item, items[n - 1]))
  }

  predicate NulFreeFields(schema: Schema, values: seq<Value>, n: nat)
    requires schema.Struct? && Fits(schema, Record(values)) && n <= |values|
    decreases schema, -1, n
  {
    n == 0 || (NulFreeFields(schema, values, n - 1) && NulFree(schema.fields[n - 1].of, values[n - 1]))
  }

  lemma {:induction false} CStringIsWhole(s: string)
    ensures CString(s) == s <==> '\0' !in s
  {
    if s != [] {
      CStringIsWhole(s[1..]);
      assert s == [s[0]] + s[1..];
    }
  }

  lemma {:induction false} WholeIffNulFree(schema: Schema, v: Value)
    requires IsProper(schema) && Fits(schema, v)
    ensures Overlaid(schema, v, Default(schema)) == v <==> NulFree(schema, v)
    decreases schema, 0
  {
    match schema {
      case String => CStringIsWhole(v.text);
      case Vector(_) =>
        WholeItems(schema, v.items, |v.items|);
        assert v.items[..|v.items|] == v.items;
      case Struct(_) =>
        WholeFields(schema, v.values, |v.values|);
        assert v.values[..|v.values|] == v.values;
      case Optional(of) =>
        if v.Present? {
          WholeIffNulFree(of, v.value);
        }
      case _ =>
    }
  }

  lemma {:induction false} WholeItems(schema: Schema, items: seq<Value>, n: nat)
    requires schema.Vector? && IsProper(schema) && Fits(schema, List(items)) && n <= |items|
    ensures OverlaidItems(schema, items, n) == items[..n] <==> NulFreeItems(schema, items, n)
    ensures |OverlaidItems(schema, items, n)| == n
    decreases schema, -1, n
  {
    if n > 0 {
      WholeItems(schema, items, n - 1);
      var item, last := schema.item, items[n - 1];
      WholeIffNulFree(item, last);
      OneMore(OverlaidItems(schema, items, n - 1), Overlaid(item, last, Default(item)), items, n);
    }
  }

  lemma OneMore(some: seq<Value>, next: Value, all: seq<Value>, n: nat)
    requires 0 < n <= |all| && |some| == n - 1
    ensures some + [next] == all[..n] <==> some == all[..n - 1] && next == all[n - 1]
  {
    assert all[..n] == all[..n - 1] + [all[n - 1]];
    if some + [next] == all[..n] {
      assert (some + [next])[..n - 1] == some && (some + [next])[n - 1] == next;
    }
  }

  lemma {:induction false} WholeFields(schema: Schema, values: seq<Value>, n: nat)
    requires schema.Struct? && IsProper(schema) && Fits(schema, Record(values)) && n <= |values|
    ensures OverlaidFields(schema, values, Default(schema).values, n) == values[..n] <==>
            NulFreeFields(schema, values, n)
    ensures |OverlaidFields(schema, values, Default(schema).values, n)| == n
    decreases schema, -1, n
  {
    if n > 0 {
      WholeFields(schema, values, n - 1);
      var of, last, targets := schema.fields[n - 1].of, values[n - 1], Default(schema).values;
      assert targets[n - 1] == Default(of);
      WholeIffNulFree(of, last);
      OneMore(OverlaidFields(schema, values, targets, n - 1), Overlaid(of, last, Default(of)), values, n);
    }
  }

  /** The round trip: a struct of any depth, written and read into a fresh object, comes back as it was, exactly if
      none of its strings has a NUL. It is always read without an error. */
  lemma RoundTrip(schema: Schema, v: Value)
    requires schema.Struct? && IsProper(schema) && Fits(schema, v)
    ensures DecodeStruct(schema, Encode(schema, v), Default(schema)).Ok?
    ensures DecodeStruct(schema, Encode(schema, v), Default(schema)) == Ok(v) <==> NulFree(schema, v)
  {
    StructRoundTrip(schema, v, Default(schema));
    WholeIffNulFree(schema, v);
  }
}
