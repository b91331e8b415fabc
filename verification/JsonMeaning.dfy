/** What a document means as a value: which documents can be read, what is read, and which error is reported, without
    the order in which the mapper goes about it. */
module JsonMeaning {
  import opened JsonCodec
  import opened JsonSchema
  import opened Option

  /** The document, read over `target`, says `v`. */
  ghost predicate Means(schema: Schema, json: Json, target: Value, v: Value)
    requires IsProper(schema) && Fits(schema, target) && !schema.Optional?
    decreases schema, 0
  {
    match schema
    case Int64 => json.Integer? && IsInt64(json.number) && v == IntValue(json.number)
    case Bool => json.Boolean? && v == BoolValue(json.bit)
    case String => json.Text? && v == StringValue(CString(json.text))
    case Vector(_) => json.Array? && v.List? && ItemsMean(schema, json.elements, |json.elements|, v.items)
    case Struct(fields) => v.Record? && FieldsMean(schema, json, target.values, |fields|, v.values)
  }

  /** The first `n` elements of an array say `vs`. */
  ghost predicate ItemsMean(schema: Schema, elements: seq<Json>, n: nat, vs: seq<Value>)
    requires schema.Vector? && IsProper(schema) && n <= |elements|
    decreases schema, -1
  {
    |vs| == n && forall i :: 0 <= i < n ==> Means(schema.item, elements[i], Default(schema.item), vs[i])
  }

  /** The members of the first `n` fields say `vs`. */
  ghost predicate FieldsMean(schema: Schema, json: Json, targets: seq<Value>, n: nat, vs: seq<Value>)
    requires schema.Struct? && IsProper(schema) && Fits(schema, Record(targets)) && n <= |schema.fields|
    decreases schema, -1
  {
    && |vs| == n
    && forall i :: 0 <= i < n ==>
                     FieldMeans(schema.fields[i].name, schema.fields[i].of, json, targets[i], vs[i])
  }

  /** The member of a field says `v`. A field that is optional stays as it was if it has no member or a null one; a
      vector of structs without a member is empty; any other field must have one. */
  ghost predicate FieldMeans(name: string, schema: Schema, json: Json, target: Value, v: Value)
    requires IsProper(schema) && Fits(schema, target)
    decreases schema, 1
  {
    && json.Object?
    && var member := Lookup(json.members, name);
       match schema
       case Optional(of) =>
         if member.None? || member.value == Json.Null then v == target
         else v.Present? && FieldMeans(name, of, json, Default(of), v.value)
       case Vector(item) =>
         if member.None? && item.Struct? then v == List([]) else member.Some? && Means(schema, member.value, target, v)
       case _ => member.Some? && Means(schema, member.value, target, v)
  }

  lemma ThenIsOk(values: Result<seq<Value>>, next: Result<Value>, vs: seq<Value>)
    ensures Then(values, next) == Ok(vs) <==>
            vs != [] && values == Ok(vs[..|vs| - 1]) && next == Ok(vs[|vs| - 1])
  {
    if vs != [] {
      assert vs == vs[..|vs| - 1] + [vs[|vs| - 1]];
    }
    if Then(values, next) == Ok(vs) {
      assert vs[..|vs| - 1] == values.value && vs[|vs| - 1] == next.value;
    }
  }

  lemma OneMoreItem(schema: Schema, elements: seq<Json>, n: nat, vs: seq<Value>)
    requires schema.Vector? && IsProper(schema) && 0 < n <= |elements|
    ensures ItemsMean(schema, elements, n, vs) <==>
            && vs != [] && ItemsMean(schema, elements, n - 1, vs[..|vs| - 1])
            && Means(schema.item, elements[n - 1], Default(schema.item), vs[|vs| - 1])
  {
    if vs != [] {
      assert forall i :: 0 <= i < |vs| - 1 ==> vs[..|vs| - 1][i] == vs[i];
    }
  }

  lemma OneMoreField(schema: Schema, json: Json, targets: seq<Value>, n: nat, vs: seq<Value>)
    requires schema.Struct? && IsProper(schema) && Fits(schema, Record(targets)) && 0 < n <= |schema.fields|
    ensures FieldsMean(schema, json, targets, n, vs) <==>
            && vs != [] && FieldsMean(schema, json, targets, n - 1, vs[..|vs| - 1])
            && FieldMeans(schema.fields[n - 1].name, schema.fields[n - 1].of, json, targets[n - 1], vs[|vs| - 1])
  {
    if vs != [] {
      assert forall i :: 0 <= i < |vs| - 1 ==> vs[..|vs| - 1][i] == vs[i];
    }
  }

  /** Native values are read exactly as they mean. */
  lemma {:induction false} AdaptsWhen(schema: Schema, name: string, json: Json, target: Value, v: Value)
    requires IsNative(schema) && IsProper(schema) && Fits(schema, target)
    ensures Adapt(schema, name, json) == Ok(v) <==> Means(schema, json, target, v)
    decreases schema, 0
  {
    if schema.Vector? && json.Array? && v.List? {
      AdaptsAllWhen(schema, name, json.elements, |json.elements|, v.items);
    }
  }

  lemma {:induction false} AdaptsAllWhen(schema: Schema, name: string, elements: seq<Json>, n: nat, vs: seq<Value>)
    requires schema.Vector? && IsNative(schema) && IsProper(schema) && n <= |elements|
    ensures AdaptAll(schema, name, elements, n) == Ok(vs) <==> ItemsMean(schema, elements, n, vs)
    decreases schema, -1, n
  {
    if n > 0 {
      OneMoreItem(schema, elements, n, vs);
      ThenIsOk(AdaptAll(schema, name, elements, n - 1), Adapt(schema.item, name, elements[n - 1]), vs);
      if vs != [] {
        AdaptsAllWhen(schema, name, elements, n - 1, vs[..|vs| - 1]);
        AdaptsWhen(schema.item, name, elements[n - 1], Default(schema.item), vs[|vs| - 1]);
      }
    }
  }

  lemma NativesHaveNoStructs(schema: Schema)
    requires IsNative(schema)
    ensures !schema.Struct? && !schema.Optional? && (schema.Vector? ==> IsNative(schema.item) && !schema.item.Struct?)
  {
  }

  /** A field is read exactly as its member means. */
  lemma {:induction false} FieldDecodesWhen(name: string, schema: Schema, json: Json, target: Value, v: Value)
    requires IsProper(schema) && Fits(schema, target)
    ensures DecodeField(name, schema, json, target) == Ok(v) <==> FieldMeans(name, schema, json, target, v)
    decreases schema, 1
  {
    if json.Object? {
      var member := Lookup(json.members, name);
      if IsNative(schema) {
        NativesHaveNoStructs(schema);
        if member.Some? {
          AdaptsWhen(schema, name, member.value, target, v);
        }
      } else {
        match schema {
          case Struct(_) =>
            if member.Some? {
              DecodesWhen(schema, member.value, target, v);
            }
          case Vector(_) =>
            if member.Some? && member.value.Array? && v.List? {
              DecodesAllWhen(schema, member.value.elements, |member.value.elements|, v.items);
            }
          case Optional(of) =>
            if v.Present? {
              FieldDecodesWhen(name, of, json, Default(of), v.value);
            }
        }
      }
    }
  }

  /** A document is read as a struct of any depth exactly if it means one, and as the one that it means. */
  lemma {:induction false} DecodesWhen(schema: Schema, json: Json, target: Value, v: Value)
    requires schema.Struct? && IsProper(schema) && Fits(schema, target)
    ensures DecodeStruct(schema, json, target) == Ok(v) <==> Means(schema, json, target, v)
    decreases schema, 0
  {
    if v.Record? {
      FieldsDecodeWhen(schema, json, target.values, |schema.fields|, v.values);
    }
  }

  lemma {:induction false} FieldsDecodeWhen(schema: Schema, json: Json, targets: seq<Value>, n: nat, vs: seq<Value>)
    requires schema.Struct? && IsProper(schema) && Fits(schema, Record(targets)) && n <= |schema.fields|
    ensures DecodeFields(schema, json, targets, n) == Ok(vs) <==> FieldsMean(schema, json, targets, n, vs)
    decreases schema, -1, n
  {
    if n > 0 {
      var field := schema.fields[n - 1];
      OneMoreField(schema, json, targets, n, vs);
      ThenIsOk(DecodeFields(schema, json, targets, n - 1), DecodeField(field.name, field.of, json, targets[n - 1]), vs);
      if vs != [] {
        FieldsDecodeWhen(schema, json, targets, n - 1, vs[..|vs| - 1]);
        FieldDecodesWhen(field.name, field.of, json, targets[n - 1], vs[|vs| - 1]);
      }
    }
  }

  lemma {:induction false} DecodesAllWhen(schema: Schema, elements: seq<Json>, n: nat, vs: seq<Value>)
    requires schema.Vector? && schema.item.Struct? && IsProper(schema) && n <= |elements|
    ensures DecodeAll(schema, elements, n) == Ok(vs) <==> ItemsMean(schema, elements, n, vs)
    decreases schema, -1, n
  {
    if n > 0 {
      OneMoreItem(schema, elements, n, vs);
      var last := DecodeStruct(schema.item, elements[n - 1], Default(schema.item));
      ThenIsOk(DecodeAll(schema, elements, n - 1), last, vs);
      if vs != [] {
        DecodesAllWhen(schema, elements, n - 1, vs[..|vs| - 1]);
        DecodesWhen(schema.item, elements[n - 1], Default(schema.item), vs[|vs| - 1]);
      }
    }
  }

  // ---------- errors ----------

  /** A native field reports its own name, whatever it is that cannot be read. */
  lemma {:induction false} AdaptFails(schema: Schema, name: string, json: Json)
    requires IsNative(schema)
    ensures Adapt(schema, name, json).Err? ==> Adapt(schema, name, json).error == TypeMismatch(name)
    decreases schema, 0
  {
    if schema.Vector? && json.Array? {
      AdaptAllFails(schema, name, json.elements, |json.elements|);
    }
  }

  lemma {:induction false} AdaptAllFails(schema: Schema, name: string, elements: seq<Json>, n: nat)
    requires schema.Vector? && IsNative(schema) && n <= |elements|
    ensures var r := AdaptAll(schema, name, elements, n); r.Err? ==> r.error == TypeMismatch(name)
    decreases schema, -1, n
  {
    if n > 0 {
      AdaptAllFails(schema, name, elements, n - 1);
      AdaptFails(schema.item, name, elements[n - 1]);
    }
  }

  /** The error of a field: the document is no object, or it has no such member, or the member has the wrong type, or
      the error is that of a struct inside. */
  lemma FieldFailsWith(name: string, schema: Schema, json: Json, target: Value)
    requires IsProper(schema) && Fits(schema, target) && !schema.Optional?
    requires DecodeField(name, schema, json, target).Err?
    ensures
      var error := DecodeField(name, schema, json, target).error;
      if !json.Object? then error == if schema.Struct? then TypeMismatch(name) else NotAnObject
      else
        match Lookup(json.members, name)
        case None => error == MissingKey(name)
        case Some(member) =>
          if schema.Struct? then DecodeStruct(schema, member, target) == Err(error)
          else if schema.Vector? && schema.item.Struct? && member.Array? then
            DecodeAll(schema, member.elements, |member.elements|) == Err(error)
          else error == TypeMismatch(name)
  {
    if IsNative(schema) && json.Object? && Lookup(json.members, name).Some? {
      NativesHaveNoStructs(schema);
      AdaptFails(schema, name, Lookup(json.members, name).value);
    }
  }

  /** An optional field fails if the document is no object, and as its type fails if there is a member but null. */
  lemma OptionalFailsWith(name: string, schema: Schema, json: Json, target: Value)
    requires schema.Optional? && IsProper(schema) && Fits(schema, target)
    ensures
      var r := DecodeField(name, schema, json, target);
      if !json.Object? then r == Err(TypeMismatch(name))
      else if Lookup(json.members, name).GetOr(Json.Null) == Json.Null then r == Ok(target)
      else
        var of := DecodeField(name, schema.of, json, Default(schema.of));
        && (r.Err? <==> of.Err?)
        && if of.Err? then r.error == of.error else r.value == Present(of.value)
  {
  }

  /** Field `i` is the first that cannot be read. */
  ghost predicate IsFirstUnread(schema: Schema, json: Json, targets: seq<Value>, i: nat)
    requires schema.Struct? && IsProper(schema) && Fits(schema, Record(targets)) && i < |schema.fields|
  {
    && DecodeField(schema.fields[i].name, schema.fields[i].of, json, targets[i]).Err?
    && forall j :: 0 <= j < i ==> DecodeField(schema.fields[j].name, schema.fields[j].of, json, targets[j]).Ok?
  }

  /** A struct reports the error of the first field that cannot be read. */
  lemma {:induction false} FirstErrorIsReported(schema: Schema, json: Json, targets: seq<Value>, n: nat, i: nat)
    requires schema.Struct? && IsProper(schema) && Fits(schema, Record(targets)) && i < n <= |schema.fields|
    requires IsFirstUnread(schema, json, targets, i)
    ensures DecodeFields(schema, json, targets, n).Err?
    ensures DecodeFields(schema, json, targets, n).error ==
            DecodeField(schema.fields[i].name, schema.fields[i].of, json, targets[i]).error
  {
    if i < n - 1 {
      FirstErrorIsReported(schema, json, targets, n - 1, i);
    } else {
      AllReadBefore(schema, json, targets, i);
    }
  }

  lemma {:induction false} AllReadBefore(schema: Schema, json: Json, targets: seq<Value>, n: nat)
    requires schema.Struct? && IsProper(schema) && Fits(schema, Record(targets)) && n <= |schema.fields|
    requires forall j :: 0 <= j < n ==> DecodeField(schema.fields[j].name, schema.fields[j].of, json, targets[j]).Ok?
    ensures DecodeFields(schema, json, targets, n).Ok?
  {
    if n > 0 {
      AllReadBefore(schema, json, targets, n - 1);
    }
  }

  // ---------- what is written ----------

  /** The document says `v` whole, NULs included: an array has an element for every item, and an object a member for
      every field, under its name. */
  ghost predicate IsWritten(schema: Schema, v: Value, json: Json)
    requires IsProper(schema) && Fits(schema, v) && !schema.Optional?
    decreases schema, 0
  {
    match schema
    case Int64 => json == Integer(v.number)
    case Bool => json == Boolean(v.bit)
    case String => json == Text(v.text)
    case Vector(item) =>
      && json.Array? && |json.elements| == |v.items|
      && forall i :: 0 <= i < |v.items| ==> IsWritten(item, v.items[i], json.elements[i])
    case Struct(fields) =>
      && json.Object?
      && forall i :: 0 <= i < |fields| ==> FieldIsWritten(fields[i].name, fields[i].of, v.values[i], json.members)
  }

  /** An absent value has no member, not even a null one. */
  ghost predicate FieldIsWritten(name: string, schema: Schema, v: Value, members: seq<Member>)
    requires IsProper(schema) && Fits(schema, v)
    decreases schema, 1
  {
    var member := Lookup(members, name);
    match schema
    case Optional(of) => if v.Absent? then member == None else member.Some? && IsWritten(of, v.value, member.value)
    case _ => member.Some? && IsWritten(schema, v, member.value)
  }

  /** What is written says the value. */
  lemma {:induction false} EncodedIsWritten(schema: Schema, v: Value)
    requires IsProper(schema) && Fits(schema, v) && !schema.Optional?
    ensures IsWritten(schema, v, Encode(schema, v))
    decreases schema, 0
  {
    match schema {
      case Vector(item) =>
        var elements := Encode(schema, v).elements;
        forall i | 0 <= i < |v.items| ensures IsWritten(item, v.items[i], elements[i]) {
          EncodedIsWritten(item, v.items[i]);
        }
      case Struct(fields) =>
        var members := Encode(schema, v).members;
        forall i | 0 <= i < |fields| ensures FieldIsWritten(fields[i].name, fields[i].of, v.values[i], members) {
          MembersByName(schema, v.values, |fields|, i);
          EncodedFieldIsWritten(fields[i].name, fields[i].of, v.values[i], members);
        }
      case _ =>
    }
  }

  lemma {:induction false} EncodedFieldIsWritten(name: string, schema: Schema, v: Value, members: seq<Member>)
    requires IsProper(schema) && Fits(schema, v)
    requires Lookup(members, name) == Lookup(EncodeField(name, schema, v), name)
    ensures FieldIsWritten(name, schema, v, members)
    decreases schema, 1
  {
    if !schema.Optional? {
      EncodedIsWritten(schema, v);
    } else if v.Present? {
      EncodedIsWritten(schema.of, v.value);
    }
  }

  /** A document has no members but those of the fields. */
  lemma {:induction false} OnlyFieldsAreWritten(schema: Schema, values: seq<Value>, n: nat, name: string)
    requires schema.Struct? && IsProper(schema) && Fits(schema, Record(values)) && n <= |schema.fields|
    requires forall i :: 0 <= i < n ==> schema.fields[i].name != name
    ensures Lookup(EncodeFields(schema, values, n), name) == None
  {
    if n > 0 {
      var last := schema.fields[n - 1];
      OnlyFieldsAreWritten(schema, values, n - 1, name);
      LookupOfConcat(EncodeFields(schema, values, n - 1), EncodeField(last.name, last.of, values[n - 1]), name);
    }
  }
}
