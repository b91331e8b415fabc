/** One document read at two types: the header of a message can be decoded before its kind is known. */
module JsonNarrowing {
  import opened JsonCodec
  import opened JsonSchema
  import opened Option

  /** The position of the first field called `name` at or after `from`; the length of the list if there is none. */
  function IndexFrom(fields: seq<Field>, name: string, from: nat): (j: nat)
    requires from <= |fields|
    ensures from <= j <= |fields|
    ensures j < |fields| ==> fields[j].name == name
    ensures forall i :: from <= i < j ==> fields[i].name != name
    decreases |fields| - from
  {
    if from == |fields| || fields[from].name == name then from else IndexFrom(fields, name, from + 1)
  }

  function IndexOf(fields: seq<Field>, name: string): (j: nat)
    ensures j <= |fields| && (j < |fields| ==> fields[j].name == name)
  {
    IndexFrom(fields, name, 0)
  }

  /** Every field of the narrower type is a field of the richer one, at any depth. */
  predicate Narrows(narrow: Schema, rich: Schema)
    decreases narrow
  {
    match (narrow, rich)
    case (Struct(fields), Struct(more)) =>
      forall i :: 0 <= i < |fields| ==>
                    var j := IndexOf(more, fields[i].name);
                    j < |more| && Narrows(fields[i].of, more[j].of)
    case (Vector(x), Vector(y)) => if IsNative(x) then x == y else !IsNative(y) && Narrows(x, y)
    case (Optional(x), Optional(y)) => Narrows(x, y)
    case (_, _) => narrow == rich && IsNative(narrow)
  }

  /** What the narrower type keeps of a value of the richer one: the fields that both have. */
  function Kept(narrow: Schema, rich: Schema, v: Value): Value
    requires Narrows(narrow, rich) && Fits(rich, v)
    decreases narrow, 2
  {
    match narrow
    case Struct(fields) => Record(KeptFields(narrow, rich, v, |fields|))
    case Vector(item) => if IsNative(item) then v else List(KeptItems(narrow, rich, v.items))
    case Optional(of) => if v.Absent? then Absent else Present(Kept(of, rich.of, v.value))
    case _ => v
  }

  /** What is kept of the field with the name of the narrower type's field `i`. */
  function KeptAt(narrow: Schema, rich: Schema, v: Value, i: nat): Value
    requires narrow.Struct? && Narrows(narrow, rich) && Fits(rich, v) && i < |narrow.fields|
    decreases narrow, 0
  {
    var j := IndexOf(rich.fields, narrow.fields[i].name);
    Kept(narrow.fields[i].of, rich.fields[j].of, v.values[j])
  }

  function KeptFields(narrow: Schema, rich: Schema, v: Value, n: nat): (values: seq<Value>)
    requires narrow.Struct? && Narrows(narrow, rich) && Fits(rich, v) && n <= |narrow.fields|
    ensures |values| == n
    decreases narrow, 1
  {
    seq(n, i requires 0 <= i < n => KeptAt(narrow, rich, v, i))
  }

  function KeptItems(narrow: Schema, rich: Schema, items: seq<Value>): (values: seq<Value>)
    requires narrow.Vector? && !IsNative(narrow.item) && Narrows(narrow, rich) && Fits(rich, List(items))
    ensures |values| == |items|
    decreases narrow, 1
  {
    seq(|items|, i requires 0 <= i < |items| => Kept(narrow.item, rich.item, items[i]))
  }

  /** Decoding yields values of the type. */
  lemma {:induction false} DecodedFits(name: string, schema: Schema, json: Json, target: Value)
    requires IsProper(schema) && Fits(schema, target)
    ensures DecodeField(name, schema, json, target).Ok? ==> Fits(schema, DecodeField(name, schema, json, target).value)
    decreases schema, 1
  {
    if json.Object? && Lookup(json.members, name).Some? {
      var found := Lookup(json.members, name).value;
      if IsNative(schema) {
        AdaptedFits(schema, name, found);
      } else {
        match schema {
          case Struct(_) => DecodedStructFits(schema, found, target);
          case Vector(_) =>
            if found.Array? {
              DecodedItemsFit(schema, found.elements, |found.elements|);
            }
          case Optional(of) => DecodedFits(name, of, json, Default(of));
        }
      }
    }
  }

  lemma {:induction false} AdaptedFits(schema: Schema, name: string, json: Json)
    requires IsNative(schema)
    ensures Adapt(schema, name, json).Ok? ==> Fits(schema, Adapt(schema, name, json).value)
    decreases schema, 0
  {
    if schema.Vector? && json.Array? {
      AdaptedItemsFit(schema, name, json.elements, |json.elements|);
    }
  }

  lemma {:induction false} AdaptedItemsFit(schema: Schema, name: string, elements: seq<Json>, n: nat)
    requires schema.Vector? && IsNative(schema) && n <= |elements|
    ensures AdaptAll(schema, name, elements, n).Ok? ==> Fits(schema, List(AdaptAll(schema, name, elements, n).value))
    decreases schema, -1, n
  {
    if n > 0 {
      AdaptedItemsFit(schema, name, elements, n - 1);
      AdaptedFits(schema.item, name, elements[n - 1]);
    }
  }

  lemma {:induction false} DecodedStructFits(schema: Schema, json: Json, target: Value)
    requires schema.Struct? && IsProper(schema) && Fits(schema, target)
    ensures DecodeStruct(schema, json, target).Ok? ==> Fits(schema, DecodeStruct(schema, json, target).value)
    decreases schema, 0
  {
    DecodedFieldsFit(schema, json, target.values, |schema.fields|);
  }

  lemma {:induction false} DecodedFieldsFit(schema: Schema, json: Json, targets: seq<Value>, n: nat)
    requires schema.Struct? && IsProper(schema) && Fits(schema, Record(targets)) && n <= |schema.fields|
    ensures DecodeFields(schema, json, targets, n).Ok? ==>
              var values := DecodeFields(schema, json, targets, n).value;
              |values| == n && forall i :: 0 <= i < n ==> Fits(schema.fields[i].of, values[i])
    decreases schema, -1, n
  {
    if n > 0 {
      DecodedFieldsFit(schema, json, targets, n - 1);
      DecodedFits(schema.fields[n - 1].name, schema.fields[n - 1].of, json, targets[n - 1]);
    }
  }

  lemma {:induction false} DecodedItemsFit(schema: Schema, elements: seq<Json>, n: nat)
    requires schema.Vector? && schema.item.Struct? && IsProper(schema) && n <= |elements|
    ensures DecodeAll(schema, elements, n).Ok? ==> Fits(schema, List(DecodeAll(schema, elements, n).value))
    decreases schema, -1, n
  {
    if n > 0 {
      DecodedItemsFit(schema, elements, n - 1);
      DecodedStructFits(schema.item, elements[n - 1], Default(schema.item));
    }
  }

  // ---------- reading at the narrower type ----------

  /** Each field of a decoded struct is what its field decodes to. */
  lemma {:induction false} FieldByField(schema: Schema, json: Json, targets: seq<Value>, n: nat, j: nat)
    requires schema.Struct? && IsProper(schema) && Fits(schema, Record(targets)) && j < n <= |schema.fields|
    requires DecodeFields(schema, json, targets, n).Ok?
    ensures |DecodeFields(schema, json, targets, n).value| == n
    ensures DecodeField(schema.fields[j].name, schema.fields[j].of, json, targets[j]) ==
            Ok(DecodeFields(schema, json, targets, n).value[j])
    decreases n
  {
    DecodedFieldsFit(schema, json, targets, n);
    if j < n - 1 {
      FieldByField(schema, json, targets, n - 1, j);
    }
    DecodedFieldsFit(schema, json, targets, n - 1);
  }

  /** A field that can be read at the richer type can be read at the narrower one, and what is read is what is kept. */
  lemma {:induction false} NarrowField(name: string, narrow: Schema, rich: Schema, json: Json)
    requires IsProper(narrow) && IsProper(rich) && Narrows(narrow, rich)
    requires DecodeField(name, rich, json, Default(rich)).Ok?
    ensures Fits(rich, DecodeField(name, rich, json, Default(rich)).value)
    ensures DecodeField(name, narrow, json, Default(narrow)) ==
            Ok(Kept(narrow, rich, DecodeField(name, rich, json, Default(rich)).value))
    decreases narrow, 3
  {
    DecodedFits(name, rich, json, Default(rich));
    if !IsNative(narrow) {
      match narrow {
        case Struct(_) => NarrowStruct(narrow, rich, Lookup(json.members, name).value);
        case Vector(_) =>
          var found := Lookup(json.members, name);
          if found.Some? && found.value.Array? {
            NarrowItems(narrow, rich, found.value.elements);
          }
        case Optional(of) =>
          if Lookup(json.members, name).Some? && !Lookup(json.members, name).value.Null? {
            NarrowField(name, of, rich.of, json);
          }
      }
    }
  }

  /** A document that decodes at a richer type decodes at every narrower one, with equal values wherever both have
      a field, at any depth. */
  lemma {:induction false} NarrowStruct(narrow: Schema, rich: Schema, json: Json)
    requires narrow.Struct? && IsProper(narrow) && IsProper(rich) && Narrows(narrow, rich)
    requires DecodeStruct(rich, json, Default(rich)).Ok?
    ensures Fits(rich, DecodeStruct(rich, json, Default(rich)).value)
    ensures DecodeStruct(narrow, json, Default(narrow)) ==
            Ok(Kept(narrow, rich, DecodeStruct(rich, json, Default(rich)).value))
    decreases narrow, 2
  {
    DecodedStructFits(rich, json, Default(rich));
    NarrowFields(narrow, rich, json);
  }

  /** Fields that all decode make up a struct. */
  lemma {:induction false} FieldsTogether(schema: Schema, json: Json, targets: seq<Value>, values: seq<Value>, n: nat)
    requires schema.Struct? && IsProper(schema) && Fits(schema, Record(targets))
    requires n <= |values| <= |schema.fields|
    requires forall i :: 0 <= i < n ==>
                           DecodeField(schema.fields[i].name, schema.fields[i].of, json, targets[i]) == Ok(values[i])
    ensures DecodeFields(schema, json, targets, n) == Ok(values[..n])
    decreases n
  {
    if n > 0 {
      FieldsTogether(schema, json, targets, values, n - 1);
      assert values[..n] == values[..n - 1] + [values[n - 1]];
    }
  }

  lemma {:induction false} NarrowFields(narrow: Schema, rich: Schema, json: Json)
    requires narrow.Struct? && IsProper(narrow) && IsProper(rich) && Narrows(narrow, rich)
    requires DecodeStruct(rich, json, Default(rich)).Ok? && Fits(rich, DecodeStruct(rich, json, Default(rich)).value)
    ensures DecodeFields(narrow, json, Default(narrow).values, |narrow.fields|) ==
            Ok(KeptFields(narrow, rich, DecodeStruct(rich, json, Default(rich)).value, |narrow.fields|))
    decreases narrow, 1
  {
    var n, targets := |narrow.fields|, Default(narrow).values;
    var values := KeptFields(narrow, rich, DecodeStruct(rich, json, Default(rich)).value, n);
    forall i | 0 <= i < n
      ensures DecodeField(narrow.fields[i].name, narrow.fields[i].of, json, targets[i]) == Ok(values[i])
    {
      NarrowFieldAt(narrow, rich, json, i);
    }
    FieldsTogether(narrow, json, targets, values, n);
    assert values[..n] == values;
  }

  /** Each field of the narrower type decodes to what is kept of the field with its name. */
  lemma {:induction false} NarrowFieldAt(narrow: Schema, rich: Schema, json: Json, i: nat)
    requires narrow.Struct? && IsProper(narrow) && IsProper(rich) && Narrows(narrow, rich) && i < |narrow.fields|
    requires DecodeStruct(rich, json, Default(rich)).Ok? && Fits(rich, DecodeStruct(rich, json, Default(rich)).value)
    ensures DecodeField(narrow.fields[i].name, narrow.fields[i].of, json, Default(narrow).values[i]) ==
            Ok(KeptAt(narrow, rich, DecodeStruct(rich, json, Default(rich)).value, i))
    decreases narrow, 0
  {
    var field := narrow.fields[i];
    var j := IndexOf(rich.fields, field.name);
    assert Default(narrow).values[i] == Default(field.of);
    assert Default(rich).values[j] == Default(rich.fields[j].of);
    FieldByField(rich, json, Default(rich).values, |rich.fields|, j);
    NarrowField(field.name, field.of, rich.fields[j].of, json);
  }

  /** Each decoded element is what it decodes to alone. */
  lemma {:induction false} ItemByItem(schema: Schema, elements: seq<Json>, n: nat, j: nat)
    requires schema.Vector? && schema.item.Struct? && IsProper(schema) && j < n <= |elements|
    requires DecodeAll(schema, elements, n).Ok?
    ensures |DecodeAll(schema, elements, n).value| == n
    ensures DecodeStruct(schema.item, elements[j], Default(schema.item)) == Ok(DecodeAll(schema, elements, n).value[j])
    decreases n
  {
    DecodedLength(schema, elements, n - 1);
    if j < n - 1 {
      ItemByItem(schema, elements, n - 1, j);
    }
  }

  lemma {:induction false} DecodedLength(schema: Schema, elements: seq<Json>, n: nat)
    requires schema.Vector? && schema.item.Struct? && IsProper(schema) && n <= |elements|
    ensures DecodeAll(schema, elements, n).Ok? ==> |DecodeAll(schema, elements, n).value| == n
    decreases n
  {
    if n > 0 {
      DecodedLength(schema, elements, n - 1);
    }
  }

  /** Elements that all decode make up a list. */
  lemma {:induction false} ItemsTogether(schema: Schema, elements: seq<Json>, values: seq<Value>, n: nat)
    requires schema.Vector? && schema.item.Struct? && IsProper(schema) && n <= |values| == |elements|
    requires forall i :: 0 <= i < n ==>
                           DecodeStruct(schema.item, elements[i], Default(schema.item)) == Ok(values[i])
    ensures DecodeAll(schema, elements, n) == Ok(values[..n])
    decreases n
  {
    if n > 0 {
      ItemsTogether(schema, elements, values, n - 1);
      assert values[..n] == values[..n - 1] + [values[n - 1]];
    }
  }

  lemma {:induction false} NarrowItems(narrow: Schema, rich: Schema, elements: seq<Json>)
    requires narrow.Vector? && narrow.item.Struct? && IsProper(narrow) && IsProper(rich) && Narrows(narrow, rich)
    requires rich.item.Struct? && DecodeAll(rich, elements, |elements|).Ok?
    ensures Fits(rich, List(DecodeAll(rich, elements, |elements|).value))
    ensures DecodeAll(narrow, elements, |elements|) ==
            Ok(KeptItems(narrow, rich, DecodeAll(rich, elements, |elements|).value))
    decreases narrow, 1
  {
    DecodedItemsFit(rich, elements, |elements|);
    DecodedLength(rich, elements, |elements|);
    var items := DecodeAll(rich, elements, |elements|).value;
    var values := KeptItems(narrow, rich, items);
    forall i | 0 <= i < |elements|
      ensures DecodeStruct(narrow.item, elements[i], Default(narrow.item)) == Ok(values[i])
    {
      ItemByItem(rich, elements, |elements|, i);
      NarrowStruct(narrow.item, rich.item, elements[i]);
    }
    ItemsTogether(narrow, elements, values, |elements|);
    assert values[..|elements|] == values;
  }

  // ---------- the messages of the gateway ----------

  /** Fields whose values do not nest further. */
  predicate Flat(fields: seq<Field>) {
    forall i :: 0 <= i < |fields| ==> fields[i].of.Optional? && IsNative(fields[i].of.of)
  }

  lemma IndexOfIs(fields: seq<Field>, i: nat)
    requires DistinctNames(fields) && i < |fields|
    ensures IndexOf(fields, fields[i].name) == i
  {
    var j := IndexOf(fields, fields[i].name);
    assert j <= i;
  }

  /** The first fields of `rich` are those of `narrow`, and are found where they stand. */
  predicate IsPrefix(narrow: Schema, rich: Schema) {
    && narrow.Struct? && rich.Struct? && Flat(narrow.fields) && |narrow.fields| <= |rich.fields|
    && forall i :: 0 <= i < |narrow.fields| ==>
                     rich.fields[i] == narrow.fields[i] && IndexOf(rich.fields, narrow.fields[i].name) == i
  }

  lemma PrefixNarrows(common: seq<Field>, own: seq<Field>)
    requires Flat(common) && DistinctNames(common + own)
    ensures IsPrefix(Struct(common), Struct(common + own)) && Narrows(Struct(common), Struct(common + own))
  {
    forall i | 0 <= i < |common|
      ensures (common + own)[i] == common[i] && IndexOf(common + own, common[i].name) == i
    {
      assert (common + own)[i] == common[i];
      IndexOfIs(common + own, i);
    }
  }

  lemma KeptIfNative(schema: Schema, v: Value)
    requires schema.Optional? && IsNative(schema.of) && Fits(schema, v) && Narrows(schema, schema)
    ensures Kept(schema, schema, v) == v
  {
  }

  /** The field of a kept struct is what is kept of the field with the same name. */
  lemma KeptField(narrow: Schema, rich: Schema, v: Value, i: nat)
    requires narrow.Struct? && Narrows(narrow, rich) && Fits(rich, v) && i < |narrow.fields|
    ensures
      var j := IndexOf(rich.fields, narrow.fields[i].name);
      && Kept(narrow, rich, v).Record? && |Kept(narrow, rich, v).values| == |narrow.fields|
      && Kept(narrow, rich, v).values[i] == Kept(narrow.fields[i].of, rich.fields[j].of, v.values[j])
  {
    assert KeptFields(narrow, rich, v, |narrow.fields|)[i] == KeptAt(narrow, rich, v, i);
  }

  lemma KeptPrefixField(narrow: Schema, rich: Schema, v: Value, i: nat)
    requires IsPrefix(narrow, rich) && Narrows(narrow, rich) && Fits(rich, v) && i < |narrow.fields|
    ensures KeptFields(narrow, rich, v, |narrow.fields|)[i] == v.values[i]
  {
    KeptField(narrow, rich, v, i);
    KeptIfNative(narrow.fields[i].of, v.values[i]);
  }

  /** Messages that begin with common fields: if one decodes then those fields alone do, to the same values. */
  lemma CommonFieldsFirst(common: seq<Field>, own: seq<Field>, json: Json)
    requires Flat(common) && IsProper(Struct(common)) && IsProper(Struct(common + own))
    requires DecodeStruct(Struct(common + own), json, Default(Struct(common + own))).Ok?
    ensures
      var message := DecodeStruct(Struct(common + own), json, Default(Struct(common + own))).value;
      && message.Record? && |common| <= |message.values|
      && DecodeStruct(Struct(common), json, Default(Struct(common))) == Ok(Record(message.values[..|common|]))
  {
    var narrow, rich := Struct(common), Struct(common + own);
    PrefixNarrows(common, own);
    NarrowStruct(narrow, rich, json);
    var v := DecodeStruct(rich, json, Default(rich)).value;
    forall i | 0 <= i < |common| ensures KeptFields(narrow, rich, v, |common|)[i] == v.values[i] {
      KeptPrefixField(narrow, rich, v, i);
    }
    assert KeptFields(narrow, rich, v, |common|) == v.values[..|common|];
  }

  /** The fields of `JanusResponse`, with which every message from the gateway begins. */
  const HEADER: seq<Field> := [
    Field("janus", Optional(String)), Field("transaction", Optional(String)),
    Field("session_id", Optional(Int64)), Field("sender", Optional(Int64))]

  lemma PrefixIsProper(common: seq<Field>, own: seq<Field>)
    requires IsProper(Struct(common + own))
    ensures IsProper(Struct(common))
  {
    forall i | 0 <= i < |common| ensures common[i] == (common + own)[i] {
    }
  }

  /** `onMessage` decodes the header before it knows the kind of the message: it cannot fail where the message
      itself decodes, and routes by the values of the message. */
  lemma HeaderFirst(own: seq<Field>, json: Json)
    requires IsProper(Struct(HEADER + own))
    requires DecodeStruct(Struct(HEADER + own), json, Default(Struct(HEADER + own))).Ok?
    ensures IsProper(Struct(HEADER))
    ensures
      var message := DecodeStruct(Struct(HEADER + own), json, Default(Struct(HEADER + own))).value;
      && message.Record? && |HEADER| <= |message.values|
      && DecodeStruct(Struct(HEADER), json, Default(Struct(HEADER))) == Ok(Record(message.values[..|HEADER|]))
  {
    PrefixIsProper(HEADER, own);
    CommonFieldsFirst(HEADER, own, json);
  }

  // The fields that the kinds of messages have of their own.

  const HANGUP: seq<Field> := [Field("reason", Optional(String))]

  const MEDIA: seq<Field> := [
    Field("type", Optional(String)), Field("receiving", Optional(Bool)), Field("mid", Optional(String))]

  const SLOWLINK: seq<Field> := [
    Field("uplink", Optional(Bool)), Field("lost", Optional(Bool)), Field("mid", Optional(String))]

  const JANUS_DATA: Schema := Struct([Field("videoroom", Optional(String))])

  const PLUGIN_DATA: Schema := Struct([Field("plugin", Optional(String)), Field("data", Optional(JANUS_DATA))])

  const JSEP: Schema := Struct([Field("type", Optional(String)), Field("sdp", Optional(String))])

  const EVENT: seq<Field> := [Field("plugindata", Optional(PLUGIN_DATA)), Field("jsep", Optional(JSEP))]

  const CANDIDATE: Schema := Struct([
    Field("candidate", Optional(String)), Field("sdpMid", Optional(String)), Field("sdpMLineIndex", Optional(Int64)),
    Field("completed", Optional(Bool))])

  const TRICKLE: seq<Field> := [Field("candidate", Optional(CANDIDATE))]

  const GRANTED: Schema := Struct([Field("id", Optional(Int64))])

  const GRANT: seq<Field> := [Field("data", Optional(GRANTED))]

  /** The messages that are decoded a second time, once their header has been read. */
  datatype MessageKind = Hangup | Media | Slowlink | Event | Trickle | Grant

  function OwnFields(kind: MessageKind): seq<Field> {
    match kind
    case Hangup => HANGUP
    case Media => MEDIA
    case Slowlink => SLOWLINK
    case Event => EVENT
    case Trickle => TRICKLE
    case Grant => GRANT
  }

  lemma HeaderIsProper()
    ensures IsProper(Struct(HEADER))
  {
  }

  /** Fields of other names can follow the header. */
  lemma ProperAfterHeader(own: seq<Field>)
    requires IsProper(Struct(own))
    requires forall f :: f in own ==> f.name !in {"janus", "transaction", "session_id", "sender"}
    ensures IsProper(Struct(HEADER + own))
  {
    HeaderIsProper();
    ProperConcat(HEADER, own);
  }

  lemma ProperConcat(a: seq<Field>, b: seq<Field>)
    requires IsProper(Struct(a)) && IsProper(Struct(b))
    requires forall f, g :: f in a && g in b ==> f.name != g.name
    ensures IsProper(Struct(a + b))
  {
  }

  lemma CandidateIsProper()
    ensures IsProper(CANDIDATE)
  {
  }

  lemma PluginDataIsProper()
    ensures IsProper(PLUGIN_DATA) && IsProper(JSEP)
  {
    assert IsProper(JANUS_DATA);
  }

  lemma OwnFieldsAreProper(kind: MessageKind)
    ensures IsProper(Struct(OwnFields(kind)))
  {
    CandidateIsProper();
    PluginDataIsProper();
  }

  lemma MessageIsProper(kind: MessageKind)
    ensures IsProper(Struct(HEADER + OwnFields(kind)))
  {
    OwnFieldsAreProper(kind);
    ProperAfterHeader(OwnFields(kind));
  }

  function Header(json: Json): Result<Value> {
    HeaderIsProper();
    DecodeStruct(Struct(HEADER), json, Default(Struct(HEADER)))
  }

  function Message(kind: MessageKind, json: Json): Result<Value> {
    MessageIsProper(kind);
    DecodeStruct(Struct(HEADER + OwnFields(kind)), json, Default(Struct(HEADER + OwnFields(kind))))
  }

  /** Whatever kind of message is decoded after its header: where it decodes the header does, to its values. */
  lemma HeaderOfMessage(kind: MessageKind, json: Json)
    requires Message(kind, json).Ok?
    ensures
      var message := Message(kind, json).value;
      && message.Record? && |HEADER| <= |message.values|
      && Header(json) == Ok(Record(message.values[..|HEADER|]))
  {
    MessageIsProper(kind);
    HeaderFirst(OwnFields(kind), json);
  }
}
