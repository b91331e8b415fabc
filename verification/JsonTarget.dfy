/** What a decoding leaves in its target: the value read or, after an error, what had been read by then. */
module JsonTarget {
  import opened JsonCodec
  import opened JsonSchema
  import opened Option

  /** A native value read over one that is there. A vector is cleared first, and keeps the elements before the first
      that fails. */
  function AdaptLeft(schema: Schema, name: string, json: Json, target: Value): Value
    requires IsNative(schema)
  {
    if schema.Vector? then
      if json.Array? then List(AdaptedFirst(schema, name, json.elements, |json.elements|)) else target
    else
      match Adapt(schema, name, json)
      case Ok(v) => v
      case Err(_) => target
  }

  /** The values of the first `n` elements, up to the first that fails. */
  function AdaptedFirst(schema: Schema, name: string, elements: seq<Json>, n: nat): seq<Value>
    requires schema.Vector? && IsNative(schema) && n <= |elements|
  {
    if n == 0 then []
    else
      var before := AdaptedFirst(schema, name, elements, n - 1);
      if AdaptAll(schema, name, elements, n).Ok? then before + [Adapt(schema.item, name, elements[n - 1]).value]
      else before
  }

  /** The structs of the first `n` elements, up to the first that fails. */
  function DecodedFirst(schema: Schema, elements: seq<Json>, n: nat): seq<Value>
    requires schema.Vector? && schema.item.Struct? && IsProper(schema) && n <= |elements|
  {
    if n == 0 then []
    else
      var before := DecodedFirst(schema, elements, n - 1);
      if DecodeAll(schema, elements, n).Ok? then
        before + [DecodeStruct(schema.item, elements[n - 1], Default(schema.item)).value]
      else before
  }

  /** One field read over the value that is there. An optional value is read into a fresh one, and a vector of structs
      is cleared before anything else. */
  function FieldLeft(name: string, schema: Schema, json: Json, target: Value): Value
    requires IsProper(schema) && Fits(schema, target)
    decreases schema, 2
  {
    var found := if json.Object? then Lookup(json.members, name) else None;
    if IsNative(schema) then
      if found.None? then target else AdaptLeft(schema, name, found.value, target)
    else
      match schema
      case Struct(_) => if found.None? then target else StructLeft(schema, found.value, target)
      case Vector(_) =>
        if found.None? || !found.value.Array? then List([])
        else List(DecodedFirst(schema, found.value.elements, |found.value.elements|))
      case Optional(_) =>
        match DecodeField(name, schema, json, target)
        case Ok(v) => v
        case Err(_) => target
  }

  /** A struct read over the one that is there, field by field up to the first error. */
  function StructLeft(schema: Schema, json: Json, target: Value): Value
    requires schema.Struct? && IsProper(schema) && Fits(schema, target)
    decreases schema, 1
  {
    Record(FieldsLeft(schema, json, target.values, |schema.fields|))
  }

  function FieldsLeft(schema: Schema, json: Json, targets: seq<Value>, n: nat): (left: seq<Value>)
    requires schema.Struct? && IsProper(schema) && Fits(schema, Record(targets)) && n <= |schema.fields|
    ensures |left| == |targets|
    decreases schema, 0, n
  {
    if n == 0 then targets
    else
      var field, before := schema.fields[n - 1], FieldsLeft(schema, json, targets, n - 1);
      if DecodeFields(schema, json, targets, n - 1).Ok? then
        before[n - 1 := FieldLeft(field.name, field.of, json, targets[n - 1])]
      else before
  }

  // ---------- without an error ----------

  lemma {:induction false} AdaptedFirstIsAll(schema: Schema, name: string, elements: seq<Json>, n: nat)
    requires schema.Vector? && IsNative(schema) && n <= |elements|
    requires AdaptAll(schema, name, elements, n).Ok?
    ensures AdaptedFirst(schema, name, elements, n) == AdaptAll(schema, name, elements, n).value
  {
    if n > 0 {
      AdaptedFirstIsAll(schema, name, elements, n - 1);
    }
  }

  lemma {:induction false} DecodedFirstIsAll(schema: Schema, elements: seq<Json>, n: nat)
    requires schema.Vector? && schema.item.Struct? && IsProper(schema) && n <= |elements|
    requires DecodeAll(schema, elements, n).Ok?
    ensures DecodedFirst(schema, elements, n) == DecodeAll(schema, elements, n).value
  {
    if n > 0 {
      DecodedFirstIsAll(schema, elements, n - 1);
    }
  }

  /** Without an error a field is left as the value read. */
  lemma {:induction false} FieldLeftIsRead(name: string, schema: Schema, json: Json, target: Value)
    requires IsProper(schema) && Fits(schema, target) && DecodeField(name, schema, json, target).Ok?
    ensures FieldLeft(name, schema, json, target) == DecodeField(name, schema, json, target).value
    decreases schema, 2
  {
    if json.Object? && Lookup(json.members, name).Some? {
      var found := Lookup(json.members, name).value;
      if IsNative(schema) {
        if schema.Vector? {
          AdaptedFirstIsAll(schema, name, found.elements, |found.elements|);
        }
      } else if schema.Struct? {
        StructLeftIsRead(schema, found, target);
      } else if schema.Vector? {
        DecodedFirstIsAll(schema, found.elements, |found.elements|);
      }
    }
  }

  /** Without an error a struct is left as the value read. */
  lemma {:induction false} StructLeftIsRead(schema: Schema, json: Json, target: Value)
    requires schema.Struct? && IsProper(schema) && Fits(schema, target) && DecodeStruct(schema, json, target).Ok?
    ensures StructLeft(schema, json, target) == DecodeStruct(schema, json, target).value
    decreases schema, 1
  {
    FieldsLeftAreRead(schema, json, target.values, |schema.fields|);
    var n, targets := |schema.fields|, target.values;
    assert FieldsLeft(schema, json, targets, n) == FieldsLeft(schema, json, targets, n)[..n];
  }

  lemma {:induction false} FieldsLeftAreRead(schema: Schema, json: Json, targets: seq<Value>, n: nat)
    requires schema.Struct? && IsProper(schema) && Fits(schema, Record(targets)) && n <= |schema.fields|
    requires DecodeFields(schema, json, targets, n).Ok?
    ensures FieldsLeft(schema, json, targets, n)[..n] == DecodeFields(schema, json, targets, n).value
    decreases schema, 0, n
  {
    if n > 0 {
      var field := schema.fields[n - 1];
      FieldsLeftAreRead(schema, json, targets, n - 1);
      FieldLeftIsRead(field.name, field.of, json, targets[n - 1]);
      Extended(FieldsLeft(schema, json, targets, n - 1), n - 1, FieldLeft(field.name, field.of, json, targets[n - 1]));
    }
  }

  lemma Extended<T>(s: seq<T>, i: nat, v: T)
    requires i < |s|
    ensures s[i := v][..i + 1] == s[..i] + [v]
  {
  }

  // ---------- after an error ----------

  lemma {:induction false} AdaptErrorStays(schema: Schema, name: string, elements: seq<Json>, i: nat, n: nat)
    requires schema.Vector? && IsNative(schema) && i <= n <= |elements|
    requires AdaptAll(schema, name, elements, i).Err?
    ensures AdaptAll(schema, name, elements, n) == AdaptAll(schema, name, elements, i)
    ensures AdaptedFirst(schema, name, elements, n) == AdaptedFirst(schema, name, elements, i)
    decreases n
  {
    if i < n {
      AdaptErrorStays(schema, name, elements, i, n - 1);
    }
  }

  lemma {:induction false} ElementErrorStays(schema: Schema, elements: seq<Json>, i: nat, n: nat)
    requires schema.Vector? && schema.item.Struct? && IsProper(schema) && i <= n <= |elements|
    requires DecodeAll(schema, elements, i).Err?
    ensures DecodeAll(schema, elements, n) == DecodeAll(schema, elements, i)
    ensures DecodedFirst(schema, elements, n) == DecodedFirst(schema, elements, i)
    decreases n
  {
    if i < n {
      ElementErrorStays(schema, elements, i, n - 1);
    }
  }

  /** The first error ends the reading of a struct. */
  lemma {:induction false} FieldErrorStays(schema: Schema, json: Json, targets: seq<Value>, i: nat, n: nat)
    requires schema.Struct? && IsProper(schema) && Fits(schema, Record(targets)) && i <= n <= |schema.fields|
    requires DecodeFields(schema, json, targets, i).Err?
    ensures DecodeFields(schema, json, targets, n) == DecodeFields(schema, json, targets, i)
    ensures FieldsLeft(schema, json, targets, n) == FieldsLeft(schema, json, targets, i)
    decreases n
  {
    if i < n {
      FieldErrorStays(schema, json, targets, i, n - 1);
    }
  }

  /** Each field of a struct is left as read, if no field up to it failed; as what its own reading left, if it is the
      first that failed; and as it was, if an earlier one failed. */
  lemma {:induction false} LeftFieldByField(schema: Schema, json: Json, targets: seq<Value>, n: nat, i: nat)
    requires schema.Struct? && IsProper(schema) && Fits(schema, Record(targets)) && i < n <= |schema.fields|
    ensures
      var field := schema.fields[i];
      FieldsLeft(schema, json, targets, n)[i] ==
        if DecodeFields(schema, json, targets, i + 1).Ok? then
          DecodeField(field.name, field.of, json, targets[i]).value
        else if DecodeFields(schema, json, targets, i).Ok? then FieldLeft(field.name, field.of, json, targets[i])
        else targets[i]
    decreases n
  {
    if i < n - 1 {
      LeftFieldByField(schema, json, targets, n - 1, i);
    } else {
      var field := schema.fields[i];
      UntouchedBefore(schema, json, targets, i, i);
      if DecodeFields(schema, json, targets, i + 1).Ok? {
        FieldLeftIsRead(field.name, field.of, json, targets[i]);
      }
    }
  }

  lemma {:induction false} UntouchedBefore(schema: Schema, json: Json, targets: seq<Value>, n: nat, i: nat)
    requires schema.Struct? && IsProper(schema) && Fits(schema, Record(targets)) && n <= i < |schema.fields|
    ensures FieldsLeft(schema, json, targets, n)[i] == targets[i]
    decreases n
  {
    if n > 0 {
      UntouchedBefore(schema, json, targets, n - 1, i);
    }
  }

  // ---------- vectors after an error ----------

  /** The elements before the first that cannot be read. */
  lemma {:induction false} NativeElementsLeft(schema: Schema, name: string, elements: seq<Json>, n: nat)
    requires schema.Vector? && IsNative(schema) && n <= |elements|
    ensures
      var left := AdaptedFirst(schema, name, elements, n);
      && |left| <= n
      && (AdaptAll(schema, name, elements, n).Ok? <==> |left| == n)
      && (forall i :: 0 <= i < |left| ==> Adapt(schema.item, name, elements[i]) == Ok(left[i]))
      && (|left| < n ==> Adapt(schema.item, name, elements[|left|]).Err?)
  {
    if n > 0 {
      NativeElementsLeft(schema, name, elements, n - 1);
    }
  }

  lemma {:induction false} StructElementsLeft(schema: Schema, elements: seq<Json>, n: nat)
    requires schema.Vector? && schema.item.Struct? && IsProper(schema) && n <= |elements|
    ensures
      var left := DecodedFirst(schema, elements, n);
      && |left| <= n
      && (DecodeAll(schema, elements, n).Ok? <==> |left| == n)
      && (forall i :: 0 <= i < |left| ==> DecodeStruct(schema.item, elements[i], Default(schema.item)) == Ok(left[i]))
      && (|left| < n ==> DecodeStruct(schema.item, elements[|left|], Default(schema.item)).Err?)
  {
    if n > 0 {
      StructElementsLeft(schema, elements, n - 1);
    }
  }

  /** A vector of native values is touched only when an array is there to be read; it is filled up to the first element
      that cannot be read. */
  lemma NativeVectorLeft(name: string, schema: Schema, json: Json, target: Value)
    requires schema.Vector? && IsNative(schema) && IsProper(schema) && Fits(schema, target)
    ensures
      var left := FieldLeft(name, schema, json, target);
      if !json.Object? || Lookup(json.members, name).None? || !Lookup(json.members, name).value.Array? then
        left == target
      else
        var elements := Lookup(json.members, name).value.elements;
        && left.List? && |left.items| <= |elements|
        && (|left.items| == |elements| <==> DecodeField(name, schema, json, target).Ok?)
        && (forall i :: 0 <= i < |left.items| ==> Adapt(schema.item, name, elements[i]) == Ok(left.items[i]))
        && (|left.items| < |elements| ==> Adapt(schema.item, name, elements[|left.items|]).Err?)
  {
    if json.Object? && Lookup(json.members, name).Some? && Lookup(json.members, name).value.Array? {
      var elements := Lookup(json.members, name).value.elements;
      NativeElementsLeft(schema, name, elements, |elements|);
    }
  }

  /** A vector of structs is emptied whatever the document is, and filled up to the first element that cannot be
      read. */
  lemma StructVectorLeft(name: string, schema: Schema, json: Json, target: Value)
    requires schema.Vector? && schema.item.Struct? && IsProper(schema) && Fits(schema, target)
    ensures
      var left := FieldLeft(name, schema, json, target);
      if !json.Object? || Lookup(json.members, name).None? || !Lookup(json.members, name).value.Array? then
        left == List([])
      else
        var elements := Lookup(json.members, name).value.elements;
        && left.List? && |left.items| <= |elements|
        && (|left.items| == |elements| <==> DecodeField(name, schema, json, target).Ok?)
        && (forall i :: 0 <= i < |left.items| ==>
                          DecodeStruct(schema.item, elements[i], Default(schema.item)) == Ok(left.items[i]))
        && (|left.items| < |elements| ==>
              DecodeStruct(schema.item, elements[|left.items|], Default(schema.item)).Err?)
  {
    assert !IsNative(schema.item);
    if json.Object? && Lookup(json.members, name).Some? && Lookup(json.members, name).value.Array? {
      var elements := Lookup(json.members, name).value.elements;
      StructElementsLeft(schema, elements, |elements|);
    }
  }
}
