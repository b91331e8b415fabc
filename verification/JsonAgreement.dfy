/** Decoding looks only at the members that a type names: documents that agree on those decode alike, and a message
    decodes at a narrower type whenever it decodes at a richer one. */
module JsonAgreement {
  import opened JsonCodec
  import opened JsonSchema
  import opened Option

  // ---------- documents that agree ----------

  /** A member that is missing and one that is null are the same to an optional field. */
  predicate IsNothing(found: Option<Json>) {
    found.None? || found.value.Null?
  }

  /** For a field of this name and type the two objects say the same. */
  predicate AgreeOnField(field: Field, a: seq<Member>, b: seq<Member>)
    decreases field, 0
  {
    var x, y := Lookup(a, field.name), Lookup(b, field.name);
    && (x.Some? && y.Some? ==> AgreeAs(field.of, x.value, y.value))
    && (x.None? != y.None? ==> field.of.Optional? && IsNothing(x) && IsNothing(y))
  }

  /** Read as a value of this type the two documents say the same. */
  predicate AgreeAs(schema: Schema, a: Json, b: Json)
    decreases schema, 0
  {
    match schema
    case Struct(fields) =>
      && a.Object? == b.Object?
      && (a.Object? ==> forall i :: 0 <= i < |fields| ==> AgreeOnField(fields[i], a.members, b.members))
    case Vector(item) =>
      if IsNative(item) then a == b
      else
        && a.Array? == b.Array?
        && (a.Array? ==> |a.elements| == |b.elements|
                         && forall i :: 0 <= i < |a.elements| ==> AgreeAs(item, a.elements[i], b.elements[i]))
    case Optional(of) => a.Null? == b.Null? && (!a.Null? ==> AgreeAs(of, a, b))
    case _ => a == b
  }

  /** Objects that agree on a field decode alike there, errors included. */
  lemma {:induction false} FieldsAgree(field: Field, a: seq<Member>, b: seq<Member>, target: Value)
    requires IsProper(field.of) && Fits(field.of, target) && AgreeOnField(field, a, b)
    ensures DecodeField(field.name, field.of, Object(a), target) == DecodeField(field.name, field.of, Object(b), target)
    decreases field.of, 1
  {
    var x, y := Lookup(a, field.name), Lookup(b, field.name);
    if x.Some? && y.Some? && !IsNative(field.of) {
      match field.of {
        case Struct(_) => StructsAgree(field.of, x.value, y.value, target);
        case Vector(_) =>
          if x.value.Array? {
            ElementsAgree(field.of, x.value.elements, y.value.elements, |x.value.elements|);
          }
        case Optional(of) =>
          if !IsNothing(x) {
            FieldsAgree(Field(field.name, of), a, b, Default(of));
          }
      }
    }
  }

  /** Documents that agree as a struct decode alike, errors included, whatever the order of their members and
      whatever else they contain, at any depth. */
  lemma {:induction false} StructsAgree(schema: Schema, a: Json, b: Json, target: Value)
    requires schema.Struct? && IsProper(schema) && Fits(schema, target) && AgreeAs(schema, a, b)
    ensures DecodeStruct(schema, a, target) == DecodeStruct(schema, b, target)
    decreases schema, 0
  {
    FirstFieldsAgree(schema, a, b, target.values, |schema.fields|);
  }

  lemma {:induction false} FirstFieldsAgree(schema: Schema, a: Json, b: Json, targets: seq<Value>, n: nat)
    requires schema.Struct? && IsProper(schema) && Fits(schema, Record(targets)) && AgreeAs(schema, a, b)
    requires n <= |schema.fields|
    ensures DecodeFields(schema, a, targets, n) == DecodeFields(schema, b, targets, n)
    decreases schema, -1, n
  {
    if n > 0 {
      FirstFieldsAgree(schema, a, b, targets, n - 1);
      var field := schema.fields[n - 1];
      if a.Object? {
        FieldsAgree(field, a.members, b.members, targets[n - 1]);
      } else {
        NotAnObjectAtAll(field, a, b, targets[n - 1]);
      }
    }
  }

  lemma NotAnObjectAtAll(field: Field, a: Json, b: Json, target: Value)
    requires IsProper(field.of) && Fits(field.of, target) && !a.Object? && !b.Object?
    ensures DecodeField(field.name, field.of, a, target) == DecodeField(field.name, field.of, b, target)
  {
  }

  lemma {:induction false} ElementsAgree(schema: Schema, a: seq<Json>, b: seq<Json>, n: nat)
    requires schema.Vector? && schema.item.Struct? && IsProper(schema)
    requires |a| == |b| && forall i :: 0 <= i < |a| ==> AgreeAs(schema.item, a[i], b[i])
    requires n <= |a|
    ensures DecodeAll(schema, a, n) == DecodeAll(schema, b, n)
    decreases schema, -1, n
  {
    if n > 0 {
      ElementsAgree(schema, a, b, n - 1);
      StructsAgree(schema.item, a[n - 1], b[n - 1], Default(schema.item));
    }
  }

  // ---------- order and unknown members ----------

  lemma {:induction false} AgreesWithItself(schema: Schema, a: Json)
    ensures AgreeAs(schema, a, a)
    decreases schema
  {
    match schema {
      case Struct(fields) =>
        if a.Object? {
          forall i | 0 <= i < |fields| ensures AgreeOnField(fields[i], a.members, a.members) {
            var x := Lookup(a.members, fields[i].name);
            if x.Some? {
              AgreesWithItself(fields[i].of, x.value);
            }
          }
        }
      case Vector(item) =>
        if !IsNative(item) && a.Array? {
          forall i | 0 <= i < |a.elements| ensures AgreeAs(item, a.elements[i], a.elements[i]) {
            AgreesWithItself(item, a.elements[i]);
          }
        }
      case Optional(of) => AgreesWithItself(of, a);
      case _ =>
    }
  }

  /** Objects with the same member under every name that the struct has agree. */
  lemma SameMembersAgree(schema: Schema, a: seq<Member>, b: seq<Member>)
    requires schema.Struct?
    requires forall i :: 0 <= i < |schema.fields| ==>
                           Lookup(a, schema.fields[i].name) == Lookup(b, schema.fields[i].name)
    ensures AgreeAs(schema, Object(a), Object(b))
  {
    forall i | 0 <= i < |schema.fields| ensures AgreeOnField(schema.fields[i], a, b) {
      var x := Lookup(a, schema.fields[i].name);
      if x.Some? {
        AgreesWithItself(schema.fields[i].of, x.value);
      }
    }
  }

  /** The order of the members of an object with distinct names does not matter. */
  lemma OrderDoesNotMatter(schema: Schema, a: seq<Member>, b: seq<Member>, target: Value)
    requires schema.Struct? && IsProper(schema) && Fits(schema, target)
    requires DistinctMembers(a) && DistinctMembers(b) && multiset(a) == multiset(b)
    ensures DecodeStruct(schema, Object(a), target) == DecodeStruct(schema, Object(b), target)
  {
    forall i | 0 <= i < |schema.fields|
      ensures Lookup(a, schema.fields[i].name) == Lookup(b, schema.fields[i].name)
    {
      LookupIgnoresOrder(a, b, schema.fields[i].name);
    }
    SameMembersAgree(schema, a, b);
    StructsAgree(schema, Object(a), Object(b), target);
  }

  /** A member that the struct does not name makes no difference, wherever it stands. */
  lemma UnknownMemberDoesNotMatter(schema: Schema, before: seq<Member>, unknown: Member, after: seq<Member>,
      target: Value)
    requires schema.Struct? && IsProper(schema) && Fits(schema, target)
    requires forall i :: 0 <= i < |schema.fields| ==> schema.fields[i].name != unknown.name
    ensures DecodeStruct(schema, Object(before + [unknown] + after), target)
         == DecodeStruct(schema, Object(before + after), target)
  {
    forall i | 0 <= i < |schema.fields|
      ensures Lookup(before + [unknown] + after, schema.fields[i].name) == Lookup(before + after, schema.fields[i].name)
    {
      LookupOfConcat(before + [unknown], after, schema.fields[i].name);
      LookupOfConcat(before, [unknown], schema.fields[i].name);
      LookupOfConcat(before, after, schema.fields[i].name);
    }
    SameMembersAgree(schema, before + [unknown] + after, before + after);
    StructsAgree(schema, Object(before + [unknown] + after), Object(before + after), target);
  }
}
