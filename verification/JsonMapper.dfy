/** The two directions of the mapper as they run: members are added to a document one by one, and fields are read
    one by one until the first error. */
module JsonMapper {
  import opened JsonCodec
  import opened JsonSchema
  import opened JsonTarget
  import opened Option

  // ---------- forward ----------

  class Document {
    var members: seq<Member>

    constructor ()
      ensures members == []
    {
      members := [];
    }

    method AddMember(name: string, value: Json)
      modifies this
      ensures members == old(members) + [Member(name, value)]
    {
      members := members + [Member(name, value)];
    }
  }

  /** `JsonValueAdapter::set`. */
  method SetValue(schema: Schema, v: Value) returns (json: Json)
    requires IsNative(schema) && IsProper(schema) && Fits(schema, v)
    ensures json == Encode(schema, v)
    decreases schema
  {
    match schema {
      case Int64 => json := Integer(v.number);
      case Bool => json := Boolean(v.bit);
      case String => json := Text(v.text);
      case Vector(item) =>
        var elements: seq<Json> := [];
        for i := 0 to |v.items|
          invariant |elements| == i && forall j :: 0 <= j < i ==> elements[j] == Encode(item, v.items[j])
        {
          var element := SetValue(item, v.items[i]);
          elements := elements + [element];
        }
        json := Array(elements);
    }
  }

  /** `forward`: one field is added to the document, or none if it is absent. */
  method SerializeField(document: Document, name: string, schema: Schema, v: Value)
    requires IsProper(schema) && Fits(schema, v)
    modifies document
    ensures document.members == old(document.members) + EncodeField(name, schema, v)
    decreases schema, 1
  {
    if IsNative(schema) {
      var json := SetValue(schema, v);
      document.AddMember(name, json);
    } else {
      match schema {
        case Struct(_) =>
          var json := Serialize(schema, v);
          document.AddMember(name, json);
        case Vector(item) =>
          var elements: seq<Json> := [];
          for i := 0 to |v.items|
            invariant |elements| == i && forall j :: 0 <= j < i ==> elements[j] == Encode(item, v.items[j])
            invariant document.members == old(document.members)
          {
            var element := Serialize(item, v.items[i]);
            elements := elements + [element];
          }
          assert elements == Encode(schema, v).elements;
          document.AddMember(name, Array(elements));
        case Optional(of) =>
          if v.Present? {
            SerializeField(document, name, of, v.value);
          }
      }
    }
  }

  /** `jserialize`: the document of a struct, field by field. */
  method Serialize(schema: Schema, v: Value) returns (json: Json)
    requires schema.Struct? && IsProper(schema) && Fits(schema, v)
    ensures json == Encode(schema, v)
    decreases schema, 0
  {
    var document := new Document();
    for i := 0 to |schema.fields|
      invariant document.members == EncodeFields(schema, v.values, i)
    {
      SerializeField(document, schema.fields[i].name, schema.fields[i].of, v.values[i]);
    }
    json := Object(document.members);
  }

  // ---------- backward ----------

  /** `JsonValueAdapter::operator()`; `left` is the target afterwards. */
  method GetValue(schema: Schema, name: string, json: Json, given: Value) returns (r: Result<Value>, left: Value)
    requires IsNative(schema)
    ensures r == Adapt(schema, name, json)
    ensures left == AdaptLeft(schema, name, json, given)
    decreases schema
  {
    left := given;
    match schema {
      case Int64 =>
        if !json.Integer? || !IsInt64(json.number) {
          return Err(TypeMismatch(name)), left;
        }
        left := IntValue(json.number);
      case Bool =>
        if !json.Boolean? {
          return Err(TypeMismatch(name)), left;
        }
        left := BoolValue(json.bit);
      case String =>
        if !json.Text? {
          return Err(TypeMismatch(name)), left;
        }
        left := StringValue(CString(json.text));
      case Vector(item) =>
        if !json.Array? {
          return Err(TypeMismatch(name)), left;
        }
        r, left := GetItems(schema, name, json.elements);
        return;
    }
    r := Ok(left);
  }

  /** The vector is cleared, and then gets one element after the other. */
  method GetItems(schema: Schema, name: string, elements: seq<Json>) returns (r: Result<Value>, left: Value)
    requires schema.Vector? && IsNative(schema)
    ensures r == ToList(AdaptAll(schema, name, elements, |elements|))
    ensures left == List(AdaptedFirst(schema, name, elements, |elements|))
    decreases schema, 0
  {
    var items: seq<Value> := [];
    for i := 0 to |elements|
      invariant AdaptAll(schema, name, elements, i) == Ok(items)
      invariant AdaptedFirst(schema, name, elements, i) == items
    {
      var v, _ := GetValue(schema.item, name, elements[i], Default(schema.item));
      if v.Err? {
        AdaptErrorStays(schema, name, elements, i + 1, |elements|);
        return v, List(items);
      }
      items := items + [v.value];
    }
    return Ok(List(items)), List(items);
  }

  /** The position of the first member called `name`; the number of members if there is none. */
  method FindMember(members: seq<Member>, name: string) returns (at: nat)
    ensures at <= |members|
    ensures Lookup(members, name) == if at < |members| then Some(members[at].value) else None
  {
    at := 0;
    while at < |members| && members[at].name != name
      invariant at <= |members| && Lookup(members, name) == Lookup(members[at..], name)
    {
      at := at + 1;
    }
  }

  /** `backward`: one field is read over the value that is there; `left` is the field afterwards. */
  method DeserializeField(name: string, schema: Schema, json: Json, given: Value)
    returns (r: Result<Value>, left: Value)
    requires IsProper(schema) && Fits(schema, given)
    ensures r == DecodeField(name, schema, json, given)
    ensures left == FieldLeft(name, schema, json, given)
    decreases schema, 1
  {
    left := given;
    if schema.Vector? && !IsNative(schema) {
      r, left := DeserializeVector(name, schema, json);
      return;
    }
    if !json.Object? {
      return Err(if IsNative(schema) then NotAnObject else TypeMismatch(name)), left;
    }
    var at := FindMember(json.members, name);
    var missing := at == |json.members|;
    if IsNative(schema) {
      if missing {
        return Err(MissingKey(name)), left;
      }
      r, left := GetValue(schema, name, json.members[at].value, given);
    } else if schema.Struct? {
      if missing {
        return Err(MissingKey(name)), left;
      }
      r, left := Deserialize(schema, json.members[at].value, given);
    } else {
      if missing || json.members[at].value.Null? {
        return Ok(given), left;
      }
      var v, _ := DeserializeField(name, schema.of, json, Default(schema.of));
      r := ToPresent(v);
      if r.Ok? {
        left := r.value;
      }
    }
  }

  /** The vector is cleared before the member is looked for. */
  method DeserializeVector(name: string, schema: Schema, json: Json) returns (r: Result<Value>, left: Value)
    requires schema.Vector? && !IsNative(schema) && IsProper(schema)
    ensures r == DecodeField(name, schema, json, Default(schema))
    ensures left == FieldLeft(name, schema, json, Default(schema))
    decreases schema, 0
  {
    left := List([]);
    if !json.Object? {
      return Err(NotAnObject), left;
    }
    var at := FindMember(json.members, name);
    if at == |json.members| {
      return Ok(left), left;
    }
    r, left := DeserializeItems(name, schema, json.members[at].value);
  }

  /** The elements of an array are read into fresh structs. */
  method DeserializeItems(name: string, schema: Schema, json: Json) returns (r: Result<Value>, left: Value)
    requires schema.Vector? && schema.item.Struct? && IsProper(schema)
    ensures r == if json.Array? then ToList(DecodeAll(schema, json.elements, |json.elements|))
                 else Err(TypeMismatch(name))
    ensures left == List(if json.Array? then DecodedFirst(schema, json.elements, |json.elements|) else [])
    decreases schema, -1
  {
    if !json.Array? {
      return Err(TypeMismatch(name)), List([]);
    }
    var items: seq<Value> := [];
    for i := 0 to |json.elements|
      invariant DecodeAll(schema, json.elements, i) == Ok(items)
      invariant DecodedFirst(schema, json.elements, i) == items
    {
      var v, _ := Deserialize(schema.item, json.elements[i], Default(schema.item));
      if v.Err? {
        ElementErrorStays(schema, json.elements, i + 1, |json.elements|);
        return v, List(items);
      }
      items := items + [v.value];
    }
    return Ok(List(items)), List(items);
  }

  /** `jdeserialize`: the fields are read in order over the struct that is there; `left` is the struct afterwards. */
  method Deserialize(schema: Schema, json: Json, given: Value) returns (r: Result<Value>, left: Value)
    requires schema.Struct? && IsProper(schema) && Fits(schema, given)
    ensures r == DecodeStruct(schema, json, given)
    ensures left == StructLeft(schema, json, given)
    ensures r.Ok? ==> left == r.value
    decreases schema, 0
  {
    var values := given.values;
    for i := 0 to |schema.fields|
      invariant values == FieldsLeft(schema, json, given.values, i)
      invariant DecodeFields(schema, json, given.values, i).Ok?
    {
      UntouchedBefore(schema, json, given.values, i, i);
      var v, field := DeserializeField(schema.fields[i].name, schema.fields[i].of, json, values[i]);
      values := values[i := field];
      if v.Err? {
        FieldErrorStays(schema, json, given.values, i + 1, |schema.fields|);
        return Err(v.error), Record(values);
      }
    }
    left := Record(values);
    StructLeftIsRead(schema, json, given);
    r := Ok(left);
  }
}
