/** The validator combinators, as a schema that is interpreted over JSON-like values. */
module Validators {
  import opened Sequences

  datatype Json =
    | Undefined
    | Null
    | Bool(b: bool)
    | Num(n: real)
    | NonFinite
    | Str(s: string)
    | Arr(items: seq<Json>)
    | Obj(fields: map<string, Json>)

  datatype Schema =
    | VString | VNumber | VBoolean
    | VLiteral(allowed: seq<Json>)
    | VNullable(inner: Schema)
    | VOptional(inner: Schema)
    | VArray(inner: Schema)
    | VObject(shape: seq<Field>)
    | VRecord(inner: Schema)
    | VUnion(tagKey: string, variants: seq<Field>)

  /** A declared key (or a union tag) and its validator; the list order is the order of declaration. */
  datatype Field = Field(key: string, schema: Schema)

  datatype Step = Key(key: string) | Index(i: nat)

  type Path = seq<Step>

  datatype Checked = Ok(value: Json) | Err(path: Path)

  /**
   * The order in which each object's own keys are enumerated. It belongs to the object, which is known by its
   * place in the input; `at` is the place reached.
   */
  datatype KeyOrder = KeyOrder(order: (Path, set<string>) -> seq<string>, at: Path)
  {
    function Of(fields: map<string, Json>): seq<string>
    {
      order(at, fields.Keys)
    }

    function Under(step: Step): KeyOrder
    {
      this.(at := at + [step])
    }
  }

  ghost predicate Enumerates(keys: KeyOrder)
  {
    forall p, ks :: NoDuplicates(keys.order(p, ks)) && forall k :: k in keys.order(p, ks) <==> k in ks
  }

  function Get(fields: map<string, Json>, k: string): Json
  {
    if k in fields then fields[k] else Undefined
  }

  /** Position of a key in a declaration, or its length when undeclared. */
  function Find(shape: seq<Field>, k: string): (i: nat)
    ensures i <= |shape| && (i < |shape| ==> shape[i].key == k) && forall j :: 0 <= j < i ==> shape[j].key != k
  {
    if shape == [] || shape[0].key == k then 0 else 1 + Find(shape[1..], k)
  }

  // ----- what validation computes

  function Validate(keys: KeyOrder, s: Schema, v: Json): Checked
    decreases s, 0, 0
  {
    match s
    case VString => if v.Str? then Ok(v) else Err([])
    case VNumber => if v.Num? then Ok(v) else Err([])
    case VBoolean => if v.Bool? then Ok(v) else Err([])
    case VLiteral(allowed) => if v in allowed then Ok(v) else Err([])
    case VNullable(inner) => if v.Null? then Ok(Null) else Validate(keys, inner, v)
    case VOptional(inner) => if v.Undefined? then Ok(Undefined) else Validate(keys, inner, v)
    case VArray(inner) => if v.Arr? then ItemsFrom(keys, inner, v.items, []) else Err([])
    case VObject(shape) => if v.Obj? then FieldsFrom(keys, shape, v.fields, 0, map[]) else Err([])
    case VRecord(inner) => if v.Obj? then EntriesFrom(keys, inner, v.fields, keys.Of(v.fields), map[]) else Err([])
    case VUnion(tagKey, variants) =>
      if !v.Obj? then Err([]) else
        var tag := Get(v.fields, tagKey);
        var i := if tag.Str? then Find(variants, tag.s) else |variants|;
        if i == |variants| then Err([Key(tagKey)]) else Validate(keys, variants[i].schema, v)
  }

  /** Items |out|, |out| + 1, ... of an array, appended to those already checked. */
  function ItemsFrom(keys: KeyOrder, inner: Schema, items: seq<Json>, out: seq<Json>): Checked
    decreases inner, 1, |items| - |out|
  {
    if |out| >= |items| then Ok(Arr(out)) else
      match Validate(keys.Under(Index(|out|)), inner, items[|out|])
      case Ok(w) => ItemsFrom(keys, inner, items, out + [w])
      case Err(p) => Err([Index(|out|)] + p)
  }

  /** Declared keys i, i + 1, ... of an object. */
  function FieldsFrom(keys: KeyOrder, shape: seq<Field>, fields: map<string, Json>, i: nat, out: map<string,
                      Json>): Checked
    decreases shape, 1, |shape| - i
  {
    if i >= |shape| then Ok(Obj(out)) else
      var f := shape[i];
      if f.schema.VOptional? && Get(fields, f.key).Undefined? then FieldsFrom(keys, shape, fields, i + 1, out)
      else if f.key !in fields then Err([Key(f.key)])
      else
        match Validate(keys.Under(Key(f.key)), f.schema, fields[f.key])
        case Ok(w) => FieldsFrom(keys, shape, fields, i + 1, out[f.key := w])
        case Err(p) => Err([Key(f.key)] + p)
  }

  /** The remaining keys of a record. */
  function EntriesFrom(keys: KeyOrder, inner: Schema, fields: map<string, Json>, rest: seq<string>, out: map<string,
                       Json>): Checked
    decreases inner, 1, |rest|
  {
    if rest == [] then Ok(Obj(out)) else
      match Validate(keys.Under(Key(rest[0])), inner, Get(fields, rest[0]))
      case Ok(w) => EntriesFrom(keys, inner, fields, rest[1..], out[rest[0] := w])
      case Err(p) => Err([Key(rest[0])] + p)
  }

  // ----- the loops that compute it

  method VObjectLoop(keys: KeyOrder, shape: seq<Field>, input: Json) returns (r: Checked)
    ensures r == Validate(keys, VObject(shape), input)
    decreases shape, 1
  {
    if !input.Obj? {
      return Err([]);
    }
    var source := input.fields;
    var out: map<string, Json> := map[];
    for i := 0 to |shape|
      invariant FieldsFrom(keys, shape, source, i, out) == FieldsFrom(keys, shape, source, 0, map[])
    {
      var key, validator := shape[i].key, shape[i].schema;
      var present := key in source;
      if validator.VOptional? {
        if !present || source[key].Undefined? {
          continue;
        }
      } else if !present {
        return Err([Key(key)]);
      }
      var w := Check(keys.Under(Key(key)), validator, source[key]);
      if w.Err? {
        return Err([Key(key)] + w.path);
      }
      out := out[key := w.value];
    }
    return Ok(Obj(out));
  }

  method VRecordLoop(keys: KeyOrder, inner: Schema, input: Json) returns (r: Checked)
    ensures r == Validate(keys, VRecord(inner), input)
    decreases inner, 1
  {
    if !input.Obj? {
      return Err([]);
    }
    var source := input.fields;
    var order := keys.Of(source);
    var out: map<string, Json> := map[];
    for i := 0 to |order|
      invariant EntriesFrom(keys, inner, source, order[i..], out) == EntriesFrom(keys, inner, source, order, map[])
    {
      assert order[i..][1..] == order[i + 1..];
      var w := Check(keys.Under(Key(order[i])), inner, Get(source, order[i]));
      if w.Err? {
        return Err([Key(order[i])] + w.path);
      }
      out := out[order[i] := w.value];
    }
    assert order[|order|..] == [];
    return Ok(Obj(out));
  }

  method VArrayLoop(keys: KeyOrder, inner: Schema, input: Json) returns (r: Checked)
    ensures r == Validate(keys, VArray(inner), input)
    decreases inner, 1
  {
    if !input.Arr? {
      return Err([]);
    }
    var out: seq<Json> := [];
    for i := 0 to |input.items|
      invariant |out| == i
      invariant ItemsFrom(keys, inner, input.items, out) == ItemsFrom(keys, inner, input.items, [])
    {
      var w := Check(keys.Under(Index(i)), inner, input.items[i]);
      if w.Err? {
        return Err([Index(i)] + w.path);
      }
      out := out + [w.value];
    }
    return Ok(Arr(out));
  }

  method Check(keys: KeyOrder, s: Schema, v: Json) returns (r: Checked)
    ensures r == Validate(keys, s, v)
    decreases s, 0
  {
    match s
    case VString => r := if v.Str? then Ok(v) else Err([]);
    case VNumber => r := if v.Num? then Ok(v) else Err([]);
    case VBoolean => r := if v.Bool? then Ok(v) else Err([]);
    case VLiteral(allowed) => r := if v in allowed then Ok(v) else Err([]);
    case VNullable(inner) =>
      if v.Null? { return Ok(Null); }
      r := Check(keys, inner, v);
    case VOptional(inner) =>
      if v.Undefined? { return Ok(Undefined); }
      r := Check(keys, inner, v);
    case VArray(inner) => r := VArrayLoop(keys, inner, v);
    case VObject(shape) => r := VObjectLoop(keys, shape, v);
    case VRecord(inner) => r := VRecordLoop(keys, inner, v);
    case VUnion(tagKey, variants) =>
      if !v.Obj? { return Err([]); }
      var tag := Get(v.fields, tagKey);
      var i := if tag.Str? then Find(variants, tag.s) else |variants|;
      if i == |variants| { return Err([Key(tagKey)]); }
      r := Check(keys, variants[i].schema, v);
  }
}
