/** Where a failed validation points: the first offending place, in the order the validators look. */
module ErrorPaths {
  import opened Sequences
  import opened Validators
  import opened ValidatorLaws

  /** Keys enumerated before k. */
  function Earlier(order: seq<string>, k: string): seq<string>
  {
    if order == [] || order[0] == k then [] else [order[0]] + Earlier(order[1..], k)
  }

  /**
   * `p` is the first place where v breaks s: everything looked at before it conforms, and there a required
   * key is missing, a tag names no variant, or a sub-value has the wrong kind.
   */
  predicate FirstOffence(keys: KeyOrder, s: Schema, v: Json, p: Path)
    decreases s
  {
    match s
    case VNullable(inner) => !v.Null? && FirstOffence(keys, inner, v, p)
    case VOptional(inner) => !v.Undefined? && FirstOffence(keys, inner, v, p)
    case VArray(inner) =>
      if !v.Arr? then p == [] else
        && p != [] && p[0].Index? && p[0].i < |v.items|
        && (forall j :: 0 <= j < p[0].i ==> Conforms(inner, v.items[j]))
        && FirstOffence(keys.Under(p[0]), inner, v.items[p[0].i], p[1..])
    case VObject(shape) =>
      if !v.Obj? then p == [] else
        && p != [] && p[0].Key? && Find(shape, p[0].key) < |shape|
        && (forall j :: 0 <= j < Find(shape, p[0].key) ==> FieldConforms(shape[j], v.fields))
        && OffendingField(keys, shape, Find(shape, p[0].key), v.fields, p)
    case VRecord(inner) =>
      if !v.Obj? then p == [] else
        && p != [] && p[0].Key? && p[0].key in v.fields
        && (forall k :: k in Earlier(keys.Of(v.fields), p[0].key) ==> Conforms(inner, Get(v.fields, k)))
        && FirstOffence(keys.Under(p[0]), inner, v.fields[p[0].key], p[1..])
    case VUnion(tagKey, variants) =>
      if !v.Obj? then p == [] else
        var tag := Get(v.fields, tagKey);
        var i := if tag.Str? then Find(variants, tag.s) else |variants|;
        if i == |variants| then p == [Key(tagKey)] else FirstOffence(keys, variants[i].schema, v, p)
    case _ => p == [] && !Conforms(s, v)
  }

  predicate OffendingField(keys: KeyOrder, shape: seq<Field>, i: nat, fields: map<string, Json>, p: Path)
    requires i < |shape| && p != []
    decreases shape
  {
    && !Skipped(shape[i], fields)
    && if shape[i].key !in fields then p == [Key(shape[i].key)]
       else FirstOffence(keys.Under(Key(shape[i].key)), shape[i].schema, fields[shape[i].key], p[1..])
  }

  /** Validation fails with path p exactly when p is the first offending place. */
  lemma {:induction false} ErrorPathIsFirstOffence(keys: KeyOrder, s: Schema, v: Json, p: Path)
    requires Usable(s) && Enumerates(keys)
    ensures Validate(keys, s, v) == Err(p) <==> FirstOffence(keys, s, v, p)
    decreases s, 0, 0
  {
    match s
    case VNullable(inner) => if !v.Null? { ErrorPathIsFirstOffence(keys, inner, v, p); }
    case VOptional(inner) => if !v.Undefined? { ErrorPathIsFirstOffence(keys, inner, v, p); }
    case VArray(inner) => if v.Arr? { ItemOffence(keys, inner, v.items, [], p); }
    case VObject(shape) => if v.Obj? { FieldOffence(keys, shape, v.fields, 0, map[], p); }
    case VRecord(inner) =>
      if v.Obj? {
        var order := keys.Of(v.fields);
        assert forall k :: k in order <==> k in v.fields;
        EntryOffence(keys, inner, v.fields, order, map[], p);
      }
    case VUnion(tagKey, variants) =>
      if v.Obj? {
        var tag := Get(v.fields, tagKey);
        if tag.Str? && Find(variants, tag.s) < |variants| {
          var f := variants[Find(variants, tag.s)];
          assert f in variants;
          ErrorPathIsFirstOffence(keys, f.schema, v, p);
        }
      }
    case _ =>
  }

  lemma {:induction false} ItemOffence(keys: KeyOrder, inner: Schema, items: seq<Json>, out: seq<Json>, p: Path)
    requires WellFormed(inner) && Enumerates(keys) && |out| <= |items|
    ensures ItemsFrom(keys, inner, items, out) == Err(p) <==>
      && p != [] && p[0].Index? && |out| <= p[0].i < |items|
      && (forall j :: |out| <= j < p[0].i ==> Conforms(inner, items[j]))
      && FirstOffence(keys.Under(p[0]), inner, items[p[0].i], p[1..])
    decreases inner, 1, |items| - |out|
  {
    hide Conforms, Restrict, FirstOffence, WellFormed;
    if |out| < |items| {
      var here := items[|out|];
      ValidateMeaning(keys.Under(Index(|out|)), inner, here);
      match Validate(keys.Under(Index(|out|)), inner, here)
      case Ok(w) =>
        ItemOffence(keys, inner, items, out + [w], p);
        if p != [] && p[0] == Index(|out|) { ErrorPathIsFirstOffence(keys.Under(Index(|out|)), inner, here, p[1..]); }
      case Err(q) =>
        ErrorPathIsFirstOffence(keys.Under(Index(|out|)), inner, here, q);
        if p != [] {
          ErrorPathIsFirstOffence(keys.Under(Index(|out|)), inner, here, p[1..]);
          assert p == [p[0]] + p[1..];
          assert ([Index(|out|)] + q)[1..] == q;
        }
    }
  }

  lemma {:induction false} FieldOffence(keys: KeyOrder, shape: seq<Field>, fields: map<string, Json>, i: nat,
                                        out: map<string, Json>, p: Path)
    requires WellFormed(VObject(shape)) && Enumerates(keys) && i <= |shape|
    ensures FieldsFrom(keys, shape, fields, i, out) == Err(p) <==>
      && p != [] && p[0].Key? && i <= Find(shape, p[0].key) < |shape|
      && (forall j :: i <= j < Find(shape, p[0].key) ==> FieldConforms(shape[j], fields))
      && OffendingField(keys, shape, Find(shape, p[0].key), fields, p)
    decreases shape, 1, |shape| - i
  {
    hide Conforms, Restrict, FirstOffence, WellFormed;
    if i < |shape| {
      var f := shape[i];
      FieldIsUsable(shape, i);
      FindOfField(shape, i);
      if f.key in fields && !Skipped(f, fields) {
        ValidateMeaning(keys.Under(Key(f.key)), f.schema, fields[f.key]);
        match Validate(keys.Under(Key(f.key)), f.schema, fields[f.key])
        case Ok(w) =>
          FieldOffence(keys, shape, fields, i + 1, out[f.key := w], p);
          if p != [] { ErrorPathIsFirstOffence(keys.Under(Key(f.key)), f.schema, fields[f.key], p[1..]); }
        case Err(q) =>
          if p != [] {
            ErrorPathIsFirstOffence(keys.Under(Key(f.key)), f.schema, fields[f.key], p[1..]);
            assert p == [p[0]] + p[1..];
            assert ([Key(f.key)] + q)[1..] == q;
          }
      } else if Skipped(f, fields) {
        FieldOffence(keys, shape, fields, i + 1, out, p);
      }
    }
  }

  lemma {:induction false} EarlierStartsAt(order: seq<string>, k: string)
    requires NoDuplicates(order) && order != []
    ensures k == order[0] ==> Earlier(order, k) == []
    ensures k != order[0] ==> Earlier(order, k) == [order[0]] + Earlier(order[1..], k)
  {
  }

  lemma {:induction false} EntryOffence(keys: KeyOrder, inner: Schema, fields: map<string, Json>, rest: seq<string>,
                                        out: map<string, Json>, p: Path)
    requires WellFormed(inner) && Enumerates(keys) && NoDuplicates(rest) && forall k :: k in rest ==> k in fields
    ensures EntriesFrom(keys, inner, fields, rest, out) == Err(p) <==>
      && p != [] && p[0].Key? && p[0].key in rest
      && (forall k :: k in Earlier(rest, p[0].key) ==> Conforms(inner, Get(fields, k)))
      && FirstOffence(keys.Under(p[0]), inner, fields[p[0].key], p[1..])
    decreases inner, 1, |rest|
  {
    hide Conforms, Restrict, FirstOffence;
    if rest != [] {
      var k := rest[0];
      assert rest == [k] + rest[1..] && k !in rest[1..];
      ValidateMeaning(keys.Under(Key(k)), inner, fields[k]);
      if p != [] && p[0].Key? {
        EarlierStartsAt(rest, p[0].key);
        ErrorPathIsFirstOffence(keys.Under(Key(k)), inner, fields[k], p[1..]);
        assert p == [p[0]] + p[1..];
      }
      match Validate(keys.Under(Key(k)), inner, fields[k])
      case Ok(w) => EntryOffence(keys, inner, fields, rest[1..], out[k := w], p);
      case Err(q) => assert ([Key(k)] + q)[1..] == q;
    }
  }

  // ----- following the path

  /** The value a path leads to. */
  function Located(v: Json, p: Path): Option<Json>
    decreases |p|
  {
    if p == [] then Some(v) else
      match p[0]
      case Key(k) => if v.Obj? && k in v.fields then Located(v.fields[k], p[1..]) else None
      case Index(i) => if v.Arr? && i < |v.items| then Located(v.items[i], p[1..]) else None
  }

  /** What is wrong at the end of an error path. */
  datatype Blame =
    | WrongKind(schema: Schema, value: Json)
    | MissingKey(field: Field, fields: map<string, Json>)
    | BadTag(tagKey: string, variants: seq<Field>, fields: map<string, Json>)

  predicate Ends(v: Json, p: Path, k: string, fields: map<string, Json>)
  {
    p != [] && p[|p| - 1] == Key(k) && Located(v, p[..|p| - 1]) == Some(Obj(fields))
  }

  /** The blame is borne out by the input: following the path gets there. */
  predicate BorneOut(keys: KeyOrder, v: Json, p: Path, b: Blame)
  {
    match b
    case WrongKind(s, w) => Located(v, p) == Some(w) && Validate(keys.(at := keys.at + p), s, w) == Err([])
    case MissingKey(f, fields) => Ends(v, p, f.key, fields) && f.key !in fields && !f.schema.VOptional?
    case BadTag(tagKey, variants, fields) =>
      Ends(v, p, tagKey, fields) && !(Get(fields, tagKey).Str? && Find(variants, Get(fields, tagKey).s) < |variants|)
  }

  /** t is s or a part of it. */
  predicate PartOf(s: Schema, t: Schema)
  {
    s == t ||
    match s
    case VNullable(inner) => PartOf(inner, t)
    case VOptional(inner) => PartOf(inner, t)
    case VArray(inner) => PartOf(inner, t)
    case VRecord(inner) => PartOf(inner, t)
    case VObject(shape) => exists f :: f in shape && PartOf(f.schema, t)
    case VUnion(_, variants) => exists f :: f in variants && PartOf(f.schema, t)
    case _ => false
  }

  /** The blame names a part of the schema. */
  ghost predicate Concerns(s: Schema, b: Blame)
  {
    match b
    case WrongKind(t, _) => PartOf(s, t)
    case MissingKey(f, _) => exists shape :: f in shape && PartOf(s, VObject(shape))
    case BadTag(tagKey, variants, _) => PartOf(s, VUnion(tagKey, variants))
  }

  lemma ConcernsWhole(s: Schema, t: Schema, b: Blame)
    requires Concerns(t, b)
    requires s == VNullable(t) || s == VOptional(t) || s == VArray(t) || s == VRecord(t)
          || (s.VObject? && exists f :: f in s.shape && f.schema == t)
          || (s.VUnion? && exists f :: f in s.variants && f.schema == t)
    ensures Concerns(s, b)
  {
    if b.MissingKey? {
      var shape :| b.field in shape && PartOf(t, VObject(shape));
      assert PartOf(s, VObject(shape));
    }
  }

  lemma OneStepDeeper(keys: KeyOrder, v: Json, p: Path, b: Blame)
    requires p != [] && Located(v, [p[0]]).Some? && BorneOut(keys.Under(p[0]), Located(v, [p[0]]).value, p[1..], b)
    ensures BorneOut(keys, v, p, b)
  {
    var w := Located(v, [p[0]]).value;
    assert [p[0]][1..] == [];
    assert Located(v, p) == Located(w, p[1..]);
    assert keys.at + [p[0]] + p[1..] == keys.at + p;
    if !b.WrongKind? {
      assert p[..|p| - 1][0] == p[0] && p[..|p| - 1][1..] == p[1..][..|p[1..]| - 1];
    }
  }

  /** Following the path of an error through the input reaches the offending place. */
  lemma {:induction false} PathReachesOffence(keys: KeyOrder, s: Schema, v: Json, p: Path) returns (b: Blame)
    requires Usable(s) && Enumerates(keys) && Validate(keys, s, v) == Err(p)
    ensures BorneOut(keys, v, p, b) && Concerns(s, b)
    decreases s
  {
    ErrorPathIsFirstOffence(keys, s, v, p);
    b := WrongKind(s, v);
    match s
    case VNullable(inner) =>
      b := PathReachesOffence(keys, inner, v, p);
      ConcernsWhole(s, inner, b);
    case VOptional(inner) =>
      b := PathReachesOffence(keys, inner, v, p);
      ConcernsWhole(s, inner, b);
    case VArray(inner) =>
      if v.Arr? {
        ErrorPathIsFirstOffence(keys.Under(p[0]), inner, v.items[p[0].i], p[1..]);
        b := PathReachesOffence(keys.Under(p[0]), inner, v.items[p[0].i], p[1..]);
        ConcernsWhole(s, inner, b);
        assert [p[0]][1..] == [];
        OneStepDeeper(keys, v, p, b);
      }
    case VObject(shape) =>
      if v.Obj? {
        var f := shape[Find(shape, p[0].key)];
        assert f in shape;
        if f.key in v.fields {
          ErrorPathIsFirstOffence(keys.Under(Key(f.key)), f.schema, v.fields[f.key], p[1..]);
          b := PathReachesOffence(keys.Under(Key(f.key)), f.schema, v.fields[f.key], p[1..]);
          ConcernsWhole(s, f.schema, b);
          assert [p[0]][1..] == [];
          OneStepDeeper(keys, v, p, b);
        } else {
          b := MissingKey(f, v.fields);
          assert f in shape && PartOf(s, VObject(shape));
          assert p[..0] == [];
        }
      }
    case VRecord(inner) =>
      if v.Obj? {
        ErrorPathIsFirstOffence(keys.Under(p[0]), inner, v.fields[p[0].key], p[1..]);
        b := PathReachesOffence(keys.Under(p[0]), inner, v.fields[p[0].key], p[1..]);
        ConcernsWhole(s, inner, b);
        assert [p[0]][1..] == [];
        OneStepDeeper(keys, v, p, b);
      }
    case VUnion(tagKey, variants) =>
      if v.Obj? {
        var tag := Get(v.fields, tagKey);
        if tag.Str? && Find(variants, tag.s) < |variants| {
          var f := variants[Find(variants, tag.s)];
          assert f in variants;
          b := PathReachesOffence(keys, f.schema, v, p);
          ConcernsWhole(s, f.schema, b);
        } else {
          b := BadTag(tagKey, variants, v.fields);
          assert p[..0] == [];
        }
      }
    case _ =>
  }
}
