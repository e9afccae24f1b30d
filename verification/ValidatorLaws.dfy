/** What the validators accept, what they return, and where they say a value is wrong. */
module ValidatorLaws {
  import opened Sequences
  import opened Validators

  // ----- schemas the kit is meant for

  predicate DistinctKeys(shape: seq<Field>)
  {
    forall i, j :: 0 <= i < j < |shape| ==> shape[i].key != shape[j].key
  }

  /** Optionals only as object fields, distinct keys, and every union variant an object declaring its tag. */
  predicate WellFormed(s: Schema)
  {
    match s
    case VNullable(inner) => WellFormed(inner)
    case VOptional(_) => false
    case VArray(inner) => WellFormed(inner)
    case VRecord(inner) => WellFormed(inner)
    case VObject(shape) =>
      && DistinctKeys(shape)
      && forall f :: f in shape ==> if f.schema.VOptional? then WellFormed(f.schema.inner) else WellFormed(f.schema)
    case VUnion(tagKey, variants) =>
      && DistinctKeys(variants)
      && forall f :: f in variants ==>
           f.schema.VObject? && WellFormed(f.schema) && Find(f.schema.shape, tagKey) < |f.schema.shape|
    case _ => true
  }

  /** A well-formed schema, or an optional one standing as an object field. */
  predicate Usable(s: Schema)
  {
    WellFormed(s) || (s.VOptional? && WellFormed(s.inner))
  }

  // ----- what conforms

  predicate Skipped(f: Field, fields: map<string, Json>)
  {
    f.schema.VOptional? && Get(fields, f.key).Undefined?
  }

  /** The declarative reading of a schema. */
  predicate Conforms(s: Schema, v: Json)
  {
    match s
    case VString => v.Str?
    case VNumber => v.Num?
    case VBoolean => v.Bool?
    case VLiteral(allowed) => v in allowed
    case VNullable(inner) => v.Null? || Conforms(inner, v)
    case VOptional(inner) => v.Undefined? || Conforms(inner, v)
    case VArray(inner) => v.Arr? && forall i :: 0 <= i < |v.items| ==> Conforms(inner, v.items[i])
    case VObject(shape) =>
      v.Obj? && forall f :: f in shape ==>
        Skipped(f, v.fields) || (f.key in v.fields && Conforms(f.schema, v.fields[f.key]))
    case VRecord(inner) => v.Obj? && forall k :: k in v.fields ==> Conforms(inner, v.fields[k])
    case VUnion(tagKey, variants) =>
      && v.Obj? && Get(v.fields, tagKey).Str?
      && exists f :: f in variants && f.key == Get(v.fields, tagKey).s && Conforms(f.schema, v)
  }

  /** The value with undeclared keys removed at every depth, and absent optionals left absent. */
  function Restrict(s: Schema, v: Json): Json
    requires Usable(s)
  {
    match s
    case VNullable(inner) => if v.Null? then v else Restrict(inner, v)
    case VOptional(inner) => if v.Undefined? then v else Restrict(inner, v)
    case VArray(inner) =>
      if v.Arr? then Arr(seq(|v.items|, i requires 0 <= i < |v.items| => Restrict(inner, v.items[i]))) else v
    case VObject(shape) => if v.Obj? then Obj(RestrictedPrefix(shape, v.fields, |shape|)) else v
    case VRecord(inner) => if v.Obj? then Obj(map k | k in v.fields :: Restrict(inner, v.fields[k])) else v
    case VUnion(tagKey, variants) =>
      if v.Obj? && Get(v.fields, tagKey).Str? && Find(variants, Get(v.fields, tagKey).s) < |variants| then
        Restrict(variants[Find(variants, Get(v.fields, tagKey).s)].schema, v)
      else v
    case _ => v
  }

  /** The key is there, is one of the first i declared, and is not an absent optional. */
  predicate InPrefix(shape: seq<Field>, fields: map<string, Json>, i: nat, k: string)
  {
    k in fields && Find(shape, k) < i && Find(shape, k) < |shape| && !Skipped(shape[Find(shape, k)], fields)
  }

  /** The restricted object, as far as the first i declared keys go. */
  function RestrictedPrefix(shape: seq<Field>, fields: map<string, Json>, i: nat): map<string, Json>
    requires WellFormed(VObject(shape))
  {
    map k | k in fields && InPrefix(shape, fields, i, k) :: Restrict(shape[Find(shape, k)].schema, fields[k])
  }

  lemma {:induction false} FindOfField(shape: seq<Field>, i: nat)
    requires DistinctKeys(shape) && i < |shape|
    ensures Find(shape, shape[i].key) == i
  {
    if i > 0 {
      assert shape[0].key != shape[i].key;
      FindOfField(shape[1..], i - 1);
    }
  }

  // ----- acceptance

  /** Validation succeeds exactly on conforming values, with the restricted value. */
  lemma {:induction false} ValidateMeaning(keys: KeyOrder, s: Schema, v: Json)
    requires Usable(s) && Enumerates(keys)
    ensures Validate(keys, s, v).Ok? <==> Conforms(s, v)
    ensures Validate(keys, s, v).Ok? ==> Validate(keys, s, v).value == Restrict(s, v)
    decreases s, 0, 0
  {
    match s
    case VNullable(inner) => if !v.Null? { ValidateMeaning(keys, inner, v); }
    case VOptional(inner) => if !v.Undefined? { ValidateMeaning(keys, inner, v); }
    case VArray(inner) => if v.Arr? { ItemsMeaning(keys, inner, v.items, []); }
    case VObject(shape) => if v.Obj? { ObjectMeaning(keys, shape, v.fields); }
    case VRecord(inner) => if v.Obj? { RecordMeaning(keys, inner, v); }
    case VUnion(tagKey, variants) => if v.Obj? { UnionMeaning(keys, tagKey, variants, v); }
    case _ =>
  }

  lemma {:induction false} ItemsMeaning(keys: KeyOrder, inner: Schema, items: seq<Json>, out: seq<Json>)
    requires WellFormed(inner) && Enumerates(keys) && |out| <= |items|
    requires forall i :: 0 <= i < |out| ==> Conforms(inner, items[i]) && out[i] == Restrict(inner, items[i])
    ensures var r := ItemsFrom(keys, inner, items, out);
      && (r.Ok? <==> Conforms(VArray(inner), Arr(items)))
      && (r.Ok? ==> r.value == Restrict(VArray(inner), Arr(items)))
    decreases inner, 1, |items| - |out|
  {
    if |out| < |items| {
      ValidateMeaning(keys.Under(Index(|out|)), inner, items[|out|]);
      match Validate(keys.Under(Index(|out|)), inner, items[|out|])
      case Ok(w) => ItemsMeaning(keys, inner, items, out + [w]);
      case Err(_) =>
    } else {
      assert Restrict(VArray(inner), Arr(items)).items == out;
    }
  }

  lemma PrefixGrows(shape: seq<Field>, fields: map<string, Json>, i: nat)
    requires WellFormed(VObject(shape)) && i < |shape|
    ensures var f := shape[i];
      RestrictedPrefix(shape, fields, i + 1)
      == if f.key in fields && !Skipped(f, fields)
         then RestrictedPrefix(shape, fields, i)[f.key := Restrict(f.schema, fields[f.key])]
         else RestrictedPrefix(shape, fields, i)
  {
    hide Restrict, WellFormed, Skipped, Find;
    var f, now, next := shape[i], RestrictedPrefix(shape, fields, i), RestrictedPrefix(shape, fields, i + 1);
    FieldIsUsable(shape, i);
    FindOfField(shape, i);
    forall k
      ensures InPrefix(shape, fields, i + 1, k) <==>
        InPrefix(shape, fields, i, k) || (k == f.key && f.key in fields && !Skipped(f, fields))
    {
      FindIs(shape, k);
    }
    hide InPrefix;
    assert next.Keys == if f.key in fields && !Skipped(f, fields) then now.Keys + {f.key} else now.Keys;
  }

  lemma FieldIsUsable(shape: seq<Field>, i: nat)
    requires WellFormed(VObject(shape)) && i < |shape|
    ensures DistinctKeys(shape) && Usable(shape[i].schema)
  {
    assert shape[i] in shape;
  }

  lemma FindIs(shape: seq<Field>, k: string)
    ensures Find(shape, k) <= |shape| && (Find(shape, k) < |shape| ==> shape[Find(shape, k)].key == k)
  {
  }

  lemma WholePrefix(shape: seq<Field>, fields: map<string, Json>)
    requires WellFormed(VObject(shape))
    ensures RestrictedPrefix(shape, fields, 0) == map[]
    ensures Restrict(VObject(shape), Obj(fields)) == Obj(RestrictedPrefix(shape, fields, |shape|))
  {
  }

  predicate FieldConforms(f: Field, fields: map<string, Json>)
  {
    Skipped(f, fields) || (f.key in fields && Conforms(f.schema, fields[f.key]))
  }

  lemma {:induction false} FieldsMeaning(keys: KeyOrder, shape: seq<Field>, fields: map<string, Json>, i: nat)
    requires WellFormed(VObject(shape)) && Enumerates(keys) && i <= |shape|
    ensures var r := FieldsFrom(keys, shape, fields, i, RestrictedPrefix(shape, fields, i));
      && (r.Ok? <==> forall j :: i <= j < |shape| ==> FieldConforms(shape[j], fields))
      && (r.Ok? ==> r.value == Obj(RestrictedPrefix(shape, fields, |shape|)))
    decreases shape, 1, |shape| - i
  {
    if i < |shape| {
      hide Conforms, Restrict, RestrictedPrefix, WellFormed, Find, InPrefix;
      FieldIsUsable(shape, i);
      PrefixGrows(shape, fields, i);
      FieldsMeaning(keys, shape, fields, i + 1);
      if shape[i].key in fields && !Skipped(shape[i], fields) {
        ValidateMeaning(keys.Under(Key(shape[i].key)), shape[i].schema, fields[shape[i].key]);
      }
    }
  }

  lemma ObjectMeaning(keys: KeyOrder, shape: seq<Field>, fields: map<string, Json>)
    requires WellFormed(VObject(shape)) && Enumerates(keys)
    ensures var r := FieldsFrom(keys, shape, fields, 0, map[]);
      && (r.Ok? <==> Conforms(VObject(shape), Obj(fields)))
      && (r.Ok? ==> r.value == Restrict(VObject(shape), Obj(fields)))
    decreases shape, 2
  {
    FieldsMeaning(keys, shape, fields, 0);
    WholePrefix(shape, fields);
    if Conforms(VObject(shape), Obj(fields)) {
      assert forall j :: 0 <= j < |shape| ==> shape[j] in shape;
    }
  }

  /** The restricted record without the keys in `rest`. */
  function RestrictedBut(inner: Schema, fields: map<string, Json>, rest: seq<string>): map<string, Json>
    requires WellFormed(inner)
  {
    map k | k in fields && k !in rest :: Restrict(inner, fields[k])
  }

  lemma ButOneFewer(inner: Schema, fields: map<string, Json>, rest: seq<string>)
    requires WellFormed(inner) && NoDuplicates(rest) && rest != [] && rest[0] in fields
    ensures RestrictedBut(inner, fields, rest[1..])
         == RestrictedBut(inner, fields, rest)[rest[0] := Restrict(inner, fields[rest[0]])]
    ensures NoDuplicates(rest[1..])
  {
    hide Restrict;
    assert rest == [rest[0]] + rest[1..] && rest[0] !in rest[1..];
  }

  lemma {:induction false} EntriesMeaning(keys: KeyOrder, inner: Schema, fields: map<string, Json>, rest: seq<string>)
    requires WellFormed(inner) && Enumerates(keys) && NoDuplicates(rest)
    requires forall k :: k in rest ==> k in fields
    ensures var r := EntriesFrom(keys, inner, fields, rest, RestrictedBut(inner, fields, rest));
      && (r.Ok? <==> forall k :: k in rest ==> Conforms(inner, fields[k]))
      && (r.Ok? ==> r.value == Obj(RestrictedBut(inner, fields, [])))
    decreases inner, 1, |rest|
  {
    hide Conforms, Restrict, RestrictedBut, NoDuplicates;
    if rest != [] {
      ButOneFewer(inner, fields, rest);
      ValidateMeaning(keys.Under(Key(rest[0])), inner, fields[rest[0]]);
      EntriesMeaning(keys, inner, fields, rest[1..]);
      assert rest == [rest[0]] + rest[1..];
    }
  }

  lemma RecordMeaning(keys: KeyOrder, inner: Schema, v: Json)
    requires WellFormed(inner) && Enumerates(keys) && v.Obj?
    ensures Validate(keys, VRecord(inner), v).Ok? <==> Conforms(VRecord(inner), v)
    ensures Validate(keys, VRecord(inner), v).Ok? ==>
      Validate(keys, VRecord(inner), v).value == Restrict(VRecord(inner), v)
    decreases inner, 2
  {
    var order := keys.Of(v.fields);
    assert forall k :: k in order <==> k in v.fields;
    EntriesMeaning(keys, inner, v.fields, order);
    assert RestrictedBut(inner, v.fields, order) == map[];
    assert Restrict(VRecord(inner), v) == Obj(RestrictedBut(inner, v.fields, []));
  }

  /** The variant a tag selects, if any. */
  lemma VariantOf(variants: seq<Field>, tag: string, f: Field)
    requires DistinctKeys(variants) && f in variants && f.key == tag
    ensures Find(variants, tag) < |variants| && variants[Find(variants, tag)] == f
  {
    var i :| 0 <= i < |variants| && variants[i] == f;
    FindOfField(variants, i);
  }

  lemma UnionMeaning(keys: KeyOrder, tagKey: string, variants: seq<Field>, v: Json)
    requires WellFormed(VUnion(tagKey, variants)) && Enumerates(keys) && v.Obj?
    ensures var s := VUnion(tagKey, variants);
      && (Validate(keys, s, v).Ok? <==> Conforms(s, v))
      && (Validate(keys, s, v).Ok? ==> Validate(keys, s, v).value == Restrict(s, v))
    decreases variants, 2
  {
    var s := VUnion(tagKey, variants);
    var tag := Get(v.fields, tagKey);
    if tag.Str? {
      if Conforms(s, v) {
        var f :| f in variants && f.key == tag.s && Conforms(f.schema, v);
        VariantOf(variants, tag.s, f);
      }
      var i := Find(variants, tag.s);
      if i < |variants| {
        assert variants[i] in variants;
        ValidateMeaning(keys, variants[i].schema, v);
      }
    }
  }

  // ----- values that differ only in what the schema does not declare

  /** Both values look the same through the schema: undeclared keys may be added or removed at any depth. */
  predicate SameDeclared(s: Schema, v: Json, w: Json)
  {
    match s
    case VNullable(inner) => v.Null? == w.Null? && (!v.Null? ==> SameDeclared(inner, v, w))
    case VOptional(inner) => v.Undefined? == w.Undefined? && (!v.Undefined? ==> SameDeclared(inner, v, w))
    case VArray(inner) =>
      && v.Arr? == w.Arr?
      && (v.Arr? ==>
            |v.items| == |w.items| && forall i :: 0 <= i < |v.items| ==> SameDeclared(inner, v.items[i], w.items[i]))
    case VObject(shape) =>
      && v.Obj? == w.Obj?
      && (v.Obj? ==> forall f :: f in shape ==> SameField(f, v.fields, w.fields))
    case VRecord(inner) =>
      && v.Obj? == w.Obj?
      && (v.Obj? ==>
            && v.fields.Keys == w.fields.Keys
            && forall k :: k in v.fields ==> SameDeclared(inner, v.fields[k], w.fields[k]))
    case VUnion(tagKey, variants) =>
      && v.Obj? == w.Obj?
      && (v.Obj? ==> Get(v.fields, tagKey) == Get(w.fields, tagKey))
      && (v.Obj? ==> forall f :: f in variants && Get(v.fields, tagKey) == Str(f.key) ==> SameDeclared(f.schema, v, w))
    case _ => v == w
  }

  /** A declared key counts as absent in both, or holds values that look the same. */
  predicate SameField(f: Field, v: map<string, Json>, w: map<string, Json>)
  {
    || (f.key !in v && f.key !in w)
    || (Skipped(f, v) && Skipped(f, w))
    || (f.key in v && f.key in w && SameDeclared(f.schema, v[f.key], w[f.key]))
  }

  lemma {:induction false} SameDeclaredReflexive(s: Schema, v: Json)
    ensures SameDeclared(s, v, v)
    decreases s
  {
    match s
    case VNullable(inner) => SameDeclaredReflexive(inner, v);
    case VOptional(inner) => SameDeclaredReflexive(inner, v);
    case VArray(inner) =>
      if v.Arr? {
        forall i | 0 <= i < |v.items| ensures SameDeclared(inner, v.items[i], v.items[i])
        {
          SameDeclaredReflexive(inner, v.items[i]);
        }
      }
    case VObject(shape) =>
      if v.Obj? {
        forall f | f in shape && f.key in v.fields ensures SameDeclared(f.schema, v.fields[f.key], v.fields[f.key])
        { SameDeclaredReflexive(f.schema, v.fields[f.key]); }
      }
    case VRecord(inner) =>
      if v.Obj? {
        forall k | k in v.fields ensures SameDeclared(inner, v.fields[k], v.fields[k])
        {
          SameDeclaredReflexive(inner, v.fields[k]);
        }
      }
    case VUnion(tagKey, variants) =>
      forall f | f in variants ensures SameDeclared(f.schema, v, v) { SameDeclaredReflexive(f.schema, v); }
    case _ =>
  }

  /** Adding a key an object schema does not declare is such a difference. */
  lemma UndeclaredKeyIsInvisible(shape: seq<Field>, fields: map<string, Json>, k: string, x: Json)
    requires Find(shape, k) == |shape|
    ensures SameDeclared(VObject(shape), Obj(fields), Obj(fields[k := x]))
  {
    forall f | f in shape
      ensures SameField(f, fields, fields[k := x])
    {
      var i :| 0 <= i < |shape| && shape[i] == f;
      assert shape[i].key != k;
      if f.key in fields {
        SameDeclaredReflexive(f.schema, fields[f.key]);
      }
    }
  }

  /** Validation cannot tell such values apart: same verdict, same result, same error path. */
  lemma {:induction false} ValidateSeesDeclaredOnly(keys: KeyOrder, s: Schema, v: Json, w: Json)
    requires SameDeclared(s, v, w)
    ensures Validate(keys, s, v) == Validate(keys, s, w)
    decreases s, 0, 0
  {
    match s
    case VNullable(inner) => if !v.Null? { ValidateSeesDeclaredOnly(keys, inner, v, w); }
    case VOptional(inner) => if !v.Undefined? { ValidateSeesDeclaredOnly(keys, inner, v, w); }
    case VArray(inner) => if v.Arr? { ItemsSeeDeclaredOnly(keys, inner, v.items, w.items, []); }
    case VObject(shape) => if v.Obj? { FieldsSeeDeclaredOnly(keys, shape, v.fields, w.fields, 0, map[]); }
    case VRecord(inner) =>
      if v.Obj? { EntriesSeeDeclaredOnly(keys, inner, v.fields, w.fields, keys.Of(v.fields), map[]); }
    case VUnion(tagKey, variants) =>
      if v.Obj? {
        var tag := Get(v.fields, tagKey);
        if tag.Str? && Find(variants, tag.s) < |variants| {
          var f := variants[Find(variants, tag.s)];
          assert f in variants;
          ValidateSeesDeclaredOnly(keys, f.schema, v, w);
        }
      }
    case _ =>
  }

  lemma {:induction false} ItemsSeeDeclaredOnly(keys: KeyOrder, inner: Schema, v: seq<Json>, w: seq<Json>,
                                                out: seq<Json>)
    requires |v| == |w| && forall i :: 0 <= i < |v| ==> SameDeclared(inner, v[i], w[i])
    ensures ItemsFrom(keys, inner, v, out) == ItemsFrom(keys, inner, w, out)
    decreases inner, 1, |v| - |out|
  {
    if |out| < |v| {
      ValidateSeesDeclaredOnly(keys.Under(Index(|out|)), inner, v[|out|], w[|out|]);
      match Validate(keys.Under(Index(|out|)), inner, v[|out|])
      case Ok(x) => ItemsSeeDeclaredOnly(keys, inner, v, w, out + [x]);
      case Err(_) =>
    }
  }

  lemma {:induction false} FieldsSeeDeclaredOnly(keys: KeyOrder, shape: seq<Field>, v: map<string, Json>,
                                                 w: map<string, Json>,
                                                 i: nat, out: map<string, Json>)
    requires forall f :: f in shape ==> SameField(f, v, w)
    ensures FieldsFrom(keys, shape, v, i, out) == FieldsFrom(keys, shape, w, i, out)
    decreases shape, 1, |shape| - i
  {
    if i < |shape| {
      var f := shape[i];
      assert SameField(f, v, w);
      FieldsSeeDeclaredOnly(keys, shape, v, w, i + 1, out);
      assert Skipped(f, v) <==> Skipped(f, w) by {
        if f.schema.VOptional? && f.key in v && f.key in w {
          assert SameDeclared(f.schema, v[f.key], w[f.key]) ==> v[f.key].Undefined? == w[f.key].Undefined?;
        }
      }
      if f.key in v && !Skipped(f, v) {
        ValidateSeesDeclaredOnly(keys.Under(Key(f.key)), f.schema, v[f.key], w[f.key]);
        match Validate(keys.Under(Key(f.key)), f.schema, v[f.key])
        case Ok(x) => FieldsSeeDeclaredOnly(keys, shape, v, w, i + 1, out[f.key := x]);
        case Err(_) =>
      }
    }
  }

  lemma {:induction false} EntriesSeeDeclaredOnly(keys: KeyOrder, inner: Schema, v: map<string, Json>, w: map<string,
                                                  Json>,
                                                  rest: seq<string>, out: map<string, Json>)
    requires v.Keys == w.Keys && forall k :: k in v ==> SameDeclared(inner, v[k], w[k])
    ensures EntriesFrom(keys, inner, v, rest, out) == EntriesFrom(keys, inner, w, rest, out)
    decreases inner, 1, |rest|
  {
    if rest != [] {
      var k := rest[0];
      if k in v {
        ValidateSeesDeclaredOnly(keys.Under(Key(k)), inner, v[k], w[k]);
      }
      match Validate(keys.Under(Key(k)), inner, Get(v, k))
      case Ok(x) => EntriesSeeDeclaredOnly(keys, inner, v, w, rest[1..], out[k := x]);
      case Err(_) =>
    }
  }

  lemma {:induction false} RestrictKeepsKind(s: Schema, v: Json)
    requires Usable(s)
    ensures Restrict(s, v).Null? == v.Null? && Restrict(s, v).Undefined? == v.Undefined?
    ensures Restrict(s, v).Obj? == v.Obj?
    ensures v.Str? ==> Restrict(s, v) == v
    decreases s
  {
    match s
    case VNullable(inner) => RestrictKeepsKind(inner, v);
    case VOptional(inner) => RestrictKeepsKind(inner, v);
    case VUnion(tagKey, variants) =>
      if v.Obj? && Get(v.fields, tagKey).Str? && Find(variants, Get(v.fields, tagKey).s) < |variants| {
        var f := variants[Find(variants, Get(v.fields, tagKey).s)];
        assert f in variants;
        RestrictKeepsKind(f.schema, v);
      }
    case _ =>
  }

  lemma FieldRestricted(shape: seq<Field>, fields: map<string, Json>, f: Field)
    requires WellFormed(VObject(shape)) && f in shape
    ensures var out := Restrict(VObject(shape), Obj(fields)).fields;
      if f.key in fields && !Skipped(f, fields) then f.key in out && out[f.key] == Restrict(f.schema, fields[f.key])
      else f.key !in out
  {
    var i :| 0 <= i < |shape| && shape[i] == f;
    FindOfField(shape, i);
  }

  lemma TagKept(tagKey: string, f: Field, v: Json)
    requires f.schema.VObject? && WellFormed(f.schema) && Find(f.schema.shape, tagKey) < |f.schema.shape|
    requires v.Obj? && Get(v.fields, tagKey).Str?
    ensures Restrict(f.schema, v).Obj? && Get(Restrict(f.schema, v).fields, tagKey) == Get(v.fields, tagKey)
  {
    var g := f.schema.shape[Find(f.schema.shape, tagKey)];
    assert g in f.schema.shape;
    FieldRestricted(f.schema.shape, v.fields, g);
    RestrictKeepsKind(g.schema, v.fields[tagKey]);
  }

  /** What validation drops is only what it cannot see. */
  lemma {:induction false} RestrictKeepsDeclared(s: Schema, v: Json)
    requires Usable(s) && Conforms(s, v)
    ensures SameDeclared(s, v, Restrict(s, v))
    decreases s
  {
    match s
    case VNullable(inner) => if !v.Null? { RestrictKeepsDeclared(inner, v); RestrictKeepsKind(inner, v); }
    case VOptional(inner) => if !v.Undefined? { RestrictKeepsDeclared(inner, v); RestrictKeepsKind(inner, v); }
    case VArray(inner) =>
      forall i | 0 <= i < |v.items|
        ensures SameDeclared(inner, v.items[i], Restrict(inner, v.items[i]))
      { RestrictKeepsDeclared(inner, v.items[i]); }
    case VObject(shape) =>
      forall f | f in shape
        ensures SameField(f, v.fields, Restrict(s, v).fields)
      {
        FieldRestricted(shape, v.fields, f);
        if !Skipped(f, v.fields) { RestrictKeepsDeclared(f.schema, v.fields[f.key]); }
      }
    case VRecord(inner) =>
      forall k | k in v.fields
        ensures SameDeclared(inner, v.fields[k], Restrict(inner, v.fields[k]))
      { RestrictKeepsDeclared(inner, v.fields[k]); }
    case VUnion(tagKey, variants) =>
      var f :| f in variants && f.key == Get(v.fields, tagKey).s && Conforms(f.schema, v);
      VariantOf(variants, f.key, f);
      TagKept(tagKey, f, v);
      RestrictKeepsDeclared(f.schema, v);
      forall g | g in variants && Get(v.fields, tagKey) == Str(g.key)
        ensures g == f
      { VariantOf(variants, f.key, g); }
    case _ =>
  }

  /** Validating a result again changes nothing, in whatever order its own keys come. */
  lemma Idempotent(keys: KeyOrder, again: KeyOrder, s: Schema, v: Json)
    requires WellFormed(s) && Enumerates(keys) && Enumerates(again) && Validate(keys, s, v).Ok?
    ensures Validate(again, s, Validate(keys, s, v).value) == Validate(keys, s, v)
  {
    ValidateMeaning(keys, s, v);
    ValidateMeaning(again, s, v);
    RestrictKeepsDeclared(s, v);
    ValidateSeesDeclaredOnly(again, s, v, Restrict(s, v));
  }

  // ----- values with nothing extra

  /** No undeclared key, and no optional key holding `undefined`, at any depth. */
  predicate NothingExtra(s: Schema, v: Json)
  {
    match s
    case VNullable(inner) => v.Null? || NothingExtra(inner, v)
    case VOptional(inner) => v.Undefined? || NothingExtra(inner, v)
    case VArray(inner) => v.Arr? ==> forall i :: 0 <= i < |v.items| ==> NothingExtra(inner, v.items[i])
    case VObject(shape) =>
      v.Obj? ==> forall k :: k in v.fields ==>
        && Find(shape, k) < |shape| && !Skipped(shape[Find(shape, k)], v.fields)
        && NothingExtra(shape[Find(shape, k)].schema, v.fields[k])
    case VRecord(inner) => v.Obj? ==> forall k :: k in v.fields ==> NothingExtra(inner, v.fields[k])
    case VUnion(tagKey, variants) =>
      v.Obj? && Get(v.fields, tagKey).Str? && Find(variants, Get(v.fields, tagKey).s) < |variants| ==>
        NothingExtra(variants[Find(variants, Get(v.fields, tagKey).s)].schema, v)
    case _ => true
  }

  lemma {:induction false} RestrictIsIdentityIff(s: Schema, v: Json)
    requires Usable(s)
    ensures Restrict(s, v) == v <==> NothingExtra(s, v)
    decreases s, 0
  {
    match s
    case VNullable(inner) => if !v.Null? { RestrictIsIdentityIff(inner, v); }
    case VOptional(inner) => if !v.Undefined? { RestrictIsIdentityIff(inner, v); }
    case VArray(inner) =>
      if v.Arr? {
        forall i | 0 <= i < |v.items|
          ensures Restrict(inner, v.items[i]) == v.items[i] <==> NothingExtra(inner, v.items[i])
        { RestrictIsIdentityIff(inner, v.items[i]); }
        var out := Restrict(s, v).items;
        assert out == v.items <==> forall i :: 0 <= i < |v.items| ==> out[i] == v.items[i];
      }
    case VObject(shape) => if v.Obj? { ObjectIdentityIff(shape, v.fields); }
    case VRecord(inner) => if v.Obj? { RecordIdentityIff(inner, v.fields); }
    case VUnion(tagKey, variants) =>
      if v.Obj? && Get(v.fields, tagKey).Str? && Find(variants, Get(v.fields, tagKey).s) < |variants| {
        var f := variants[Find(variants, Get(v.fields, tagKey).s)];
        assert f in variants;
        RestrictIsIdentityIff(f.schema, v);
      }
    case _ =>
  }

  lemma ObjectIdentityIff(shape: seq<Field>, fields: map<string, Json>)
    requires WellFormed(VObject(shape))
    ensures Restrict(VObject(shape), Obj(fields)) == Obj(fields) <==> NothingExtra(VObject(shape), Obj(fields))
    decreases shape, 1
  {
    var out := RestrictedPrefix(shape, fields, |shape|);
    assert Restrict(VObject(shape), Obj(fields)) == Obj(out);
    forall k | k in fields && Find(shape, k) < |shape|
      ensures var g := shape[Find(shape, k)].schema; Restrict(g, fields[k]) == fields[k] <==> NothingExtra(g, fields[k])
    {
      assert shape[Find(shape, k)] in shape;
      RestrictIsIdentityIff(shape[Find(shape, k)].schema, fields[k]);
    }
    assert forall k :: k in out <==> InPrefix(shape, fields, |shape|, k);
    assert out == fields <==> forall k :: k in fields ==> k in out && out[k] == fields[k];
  }

  lemma RecordIdentityIff(inner: Schema, fields: map<string, Json>)
    requires WellFormed(inner)
    ensures Restrict(VRecord(inner), Obj(fields)) == Obj(fields) <==> NothingExtra(VRecord(inner), Obj(fields))
    decreases inner, 1
  {
    var out := Restrict(VRecord(inner), Obj(fields)).fields;
    forall k | k in fields
      ensures Restrict(inner, fields[k]) == fields[k] <==> NothingExtra(inner, fields[k])
    {
      RestrictIsIdentityIff(inner, fields[k]);
    }
    assert out == fields <==> forall k :: k in fields ==> out[k] == fields[k];
  }

  /** A conforming value comes back unchanged exactly when it has nothing extra. */
  lemma LosslessIff(keys: KeyOrder, s: Schema, v: Json)
    requires WellFormed(s) && Enumerates(keys) && Conforms(s, v)
    ensures Validate(keys, s, v) == Ok(v) <==> NothingExtra(s, v)
  {
    ValidateMeaning(keys, s, v);
    RestrictIsIdentityIff(s, v);
  }
}
