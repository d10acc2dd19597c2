/** Decoding undoes the strict rewrite. */
module StrictSchemaTheorems {
  import opened StrictSchema
  import opened Wrappers

  // ----- What the rewrite does to each piece -----

  lemma {:induction false} LookupStrict(props: Props, name: string)
    ensures Lookup(StrictProps(props), name)
         == match Lookup(props, name)
            case None => None
            case Some(p) => Some(Property(StrictProp(p.schema, p.required), true))
  {
    match props
    case NoProps =>
    case Prop(_, _, _, rest) => LookupStrict(rest, name);
  }

  lemma {:induction false} LookupWellFormed(defs: Definitions, props: Props, name: string)
    requires PropsWellFormed(defs, props) && Lookup(props, name).Some?
    ensures var p := Lookup(props, name).value;
            WellFormed(defs, p.schema) && (p.required || Nullable(p.schema) || !AcceptsNull(defs, p.schema))
  {
    if props.name != name { LookupWellFormed(defs, props.rest, name); }
  }

  /** The one part of a well-formed union that is not null: the part the decoder chooses. */
  lemma OnlyPart(defs: Definitions, parts: seq<Schema>)
    requires WellFormed(defs, AnyOf(parts))
    ensures var i := FirstNotNull(parts);
            && i < |parts| && !parts[i].AnyOf? && WellFormed(defs, parts[i])
            && (forall j | 0 <= j < |parts| && j != i :: parts[j].Null?)
  {
    var i :| 0 <= i < |parts| && !parts[i].Null? && !parts[i].AnyOf? && WellFormed(defs, parts[i])
             && forall j | 0 <= j < |parts| && j != i :: parts[j].Null?;
    assert FirstNotNull(parts) == i;
  }

  lemma StrictKeepsKind(s: Schema)
    ensures Strict(s).AnyOf? <==> s.AnyOf?
    ensures Strict(s).Ref? <==> s.Ref?
    ensures Strict(s).Null? <==> s.Null?
    ensures Strict(s).Anything? <==> s.Anything?
  {
  }

  /** A value other than null conforms to a strict union exactly when it conforms to its one part. */
  lemma StrictUnion(defs: Definitions, parts: seq<Schema>, v: Value)
    requires WellFormed(defs, AnyOf(parts))
    ensures Conforms(StrictAll(defs), Strict(AnyOf(parts)), v)
       <==> v.NullValue? || Conforms(StrictAll(defs), Strict(parts[FirstNotNull(parts)]), v)
  {
    OnlyPart(defs, parts);
    var i := FirstNotNull(parts);
    var strict := Strict(AnyOf(parts)).parts;
    StrictKeepsKind(parts[i]);
    assert strict[i] == Strict(parts[i]);
    var n :| 0 <= n < |parts| && parts[n].Null?;
    assert strict[n] == Strict(parts[n]) == Null;
    forall j | 0 <= j < |parts| && j != i ensures strict[j] == Null {
      assert strict[j] == Strict(parts[j]);
    }
  }

  lemma Union(defs: Definitions, parts: seq<Schema>, v: Value)
    requires WellFormed(defs, AnyOf(parts))
    ensures Conforms(defs, AnyOf(parts), v)
       <==> v.NullValue? || Conforms(defs, parts[FirstNotNull(parts)], v)
  {
    OnlyPart(defs, parts);
    var n :| 0 <= n < |parts| && parts[n].Null?;
  }

  lemma StrictReference(defs: Definitions, n: string, v: Value)
    requires DefinitionsWellFormed(defs) && n in defs
    ensures Conforms(StrictAll(defs), Ref(n), v) <==> Conforms(StrictAll(defs), Strict(defs[n]), v)
  {
    StrictKeepsKind(defs[n]);
  }

  lemma WrappedConforms(defs: Definitions, s: Schema, v: Value)
    requires !s.AnyOf?
    ensures Conforms(StrictAll(defs), AnyOf([Strict(s), Null]), v)
       <==> v.NullValue? || Conforms(StrictAll(defs), Strict(s), v)
  {
    StrictKeepsKind(s);
    var parts := [Strict(s), Null];
    assert parts[0] == Strict(s) && parts[1] == Null;
  }

  // ----- Sound: what conforms to the strict form decodes to what conforms to the original -----

  /** Null conforms to the strict form only if it conforms to the original. */
  lemma NullIsSound(defs: Definitions, s: Schema)
    requires DefinitionsWellFormed(defs) && WellFormed(defs, s)
    requires Conforms(StrictAll(defs), Strict(s), NullValue)
    ensures Conforms(defs, s, NullValue) && Decode(defs, s, NullValue) == NullValue
  {
    match s
    case AnyOf(parts) => Union(defs, parts, NullValue);
    case Ref(n) =>
      StrictReference(defs, n, NullValue);
      assert Plain(defs[n]);
    case _ =>
  }

  lemma {:induction false} DecodeIsSound(defs: Definitions, s: Schema, v: Value)
    requires DefinitionsWellFormed(defs) && WellFormed(defs, s)
    requires Conforms(StrictAll(defs), Strict(s), v)
    ensures Conforms(defs, s, Decode(defs, s, v))
    decreases v, Rank(s)
  {
    if v.NullValue? {
      NullIsSound(defs, s);
    } else {
      match s
      case Ref(n) =>
        StrictReference(defs, n, v);
        DecodeIsSound(defs, defs[n], v);
      case AnyOf(parts) =>
        OnlyPart(defs, parts);
        StrictUnion(defs, parts, v);
        DecodeIsSound(defs, parts[FirstNotNull(parts)], v);
        Union(defs, parts, Decode(defs, s, v));
      case ListOf(items) => ItemsAreSound(defs, items, v.items);
      case Object(props) =>
        FieldsAreSound(defs, props, v.fields);
        PresenceIsSound(defs, props, props, v.fields);
      case _ =>
    }
  }

  lemma {:induction false} ItemsAreSound(defs: Definitions, s: Schema, items: Items)
    requires DefinitionsWellFormed(defs) && WellFormed(defs, s)
    requires ItemsConform(StrictAll(defs), Strict(s), items)
    ensures ItemsConform(defs, s, DecodeItems(defs, s, items))
    decreases items, 0
  {
    match items
    case NoItems =>
    case Item(head, tail) =>
      DecodeIsSound(defs, s, head);
      ItemsAreSound(defs, s, tail);
  }

  lemma {:induction false} FieldsAreSound(defs: Definitions, props: Props, fields: Fields)
    requires DefinitionsWellFormed(defs) && PropsWellFormed(defs, props)
    requires FieldsConform(StrictAll(defs), StrictProps(props), fields)
    ensures FieldsConform(defs, props, DecodeFields(defs, props, fields))
    decreases fields, 0
  {
    match fields
    case NoFields =>
    case Field(n, v, rest) =>
      FieldsAreSound(defs, props, rest);
      LookupStrict(props, n);
      LookupWellFormed(defs, props, n);
      var p := Lookup(props, n);
      if !StandsForAbsence(p, v) {
        PropertyIsStrict(defs, p.value, v);
        DecodeIsSound(defs, p.value.schema, v);
      }
  }

  /** Unless it stands for absence, a property's value conforms to the strict form of its schema. */
  lemma PropertyIsStrict(defs: Definitions, p: Property, v: Value)
    requires WellFormed(defs, p.schema) && !StandsForAbsence(Some(p), v)
    requires Conforms(StrictAll(defs), StrictProp(p.schema, p.required), v)
    ensures Conforms(StrictAll(defs), Strict(p.schema), v)
  {
    if !p.required && !Nullable(p.schema) {
      WrappedConforms(defs, p.schema, v);
    }
  }

  /** A part of a property list whose entries are found unchanged in the whole. */
  ghost predicate PartOf(part: Props, props: Props) {
    forall n | Lookup(part, n).Some? :: Lookup(props, n) == Lookup(part, n)
  }

  lemma RestIsPart(part: Props, props: Props, defs: Definitions)
    requires part.Prop? && PropsWellFormed(defs, part) && PartOf(part, props)
    ensures PartOf(part.rest, props) && Lookup(props, part.name) == Some(Property(part.schema, part.required))
  {
    assert Lookup(part, part.name).Some?;
    forall m | Lookup(part.rest, m).Some? ensures Lookup(props, m) == Lookup(part.rest, m) {
      assert m != part.name;
      assert Lookup(part, m) == Lookup(part.rest, m);
    }
  }

  lemma {:induction false} HasDecoded(defs: Definitions, props: Props, fields: Fields, name: string)
    requires Has(fields, name) && Lookup(props, name).Some? && Lookup(props, name).value.required
    ensures Has(DecodeFields(defs, props, fields), name)
  {
    match fields
    case Field(n, v, rest) =>
      if n != name { HasDecoded(defs, props, rest, name); }
  }

  lemma {:induction false} PresenceIsSound(defs: Definitions, props: Props, part: Props, fields: Fields)
    requires AllPresent(StrictProps(part), fields)
    requires PropsWellFormed(defs, part) && PartOf(part, props)
    ensures AllPresent(part, DecodeFields(defs, props, fields))
    decreases part
  {
    match part
    case NoProps =>
    case Prop(n, _, r, rest) =>
      RestIsPart(part, props, defs);
      if r { HasDecoded(defs, props, fields, n); }
      PresenceIsSound(defs, props, rest, fields);
  }

  // ----- Round trip: filling absences with nulls and decoding -----

  lemma {:induction false} HasFilled(defs: Definitions, props: Props, fields: Fields, name: string)
    ensures Has(FillFields(defs, props, fields), name) <==> Has(fields, name)
  {
    match fields
    case NoFields =>
    case Field(_, _, rest) => HasFilled(defs, props, rest, name);
  }

  lemma {:induction false} HasAppended(a: Fields, b: Fields, name: string)
    ensures Has(Append(a, b), name) <==> Has(a, name) || Has(b, name)
  {
    match a
    case NoFields =>
    case Field(_, _, rest) => HasAppended(rest, b, name);
  }

  lemma {:induction false} FillIsStrict(defs: Definitions, s: Schema, v: Value)
    requires DefinitionsWellFormed(defs) && WellFormed(defs, s) && Conforms(defs, s, v)
    ensures Conforms(StrictAll(defs), Strict(s), Fill(defs, s, v))
    decreases v, Rank(s)
  {
    match s
    case Ref(n) =>
      FillIsStrict(defs, defs[n], v);
      StrictReference(defs, n, Fill(defs, s, v));
    case AnyOf(parts) =>
      OnlyPart(defs, parts);
      Union(defs, parts, v);
      if !v.NullValue? { FillIsStrict(defs, parts[FirstNotNull(parts)], v); }
      StrictUnion(defs, parts, Fill(defs, s, v));
    case ListOf(items) => FilledItems(defs, items, v.items);
    case Object(props) =>
      var filled := FillFields(defs, props, v.fields);
      FilledFields(defs, props, v.fields);
      MissingConform(defs, props, props, v.fields);
      AppendConforms(StrictAll(defs), StrictProps(props), filled, Missing(props, v.fields));
      NothingAbsent(defs, props, props, v.fields);
    case _ =>
  }

  lemma {:induction false} FilledItems(defs: Definitions, s: Schema, items: Items)
    requires DefinitionsWellFormed(defs) && WellFormed(defs, s) && ItemsConform(defs, s, items)
    ensures ItemsConform(StrictAll(defs), Strict(s), FillItems(defs, s, items))
    decreases items, 0
  {
    match items
    case NoItems =>
    case Item(head, tail) =>
      FillIsStrict(defs, s, head);
      FilledItems(defs, s, tail);
  }

  lemma {:induction false} FilledFields(defs: Definitions, props: Props, fields: Fields)
    requires DefinitionsWellFormed(defs) && PropsWellFormed(defs, props)
    requires FieldsConform(defs, props, fields)
    ensures FieldsConform(StrictAll(defs), StrictProps(props), FillFields(defs, props, fields))
    decreases fields, 0
  {
    match fields
    case NoFields =>
    case Field(n, v, rest) =>
      FilledFields(defs, props, rest);
      LookupStrict(props, n);
      LookupWellFormed(defs, props, n);
      var p := Lookup(props, n).value;
      FillIsStrict(defs, p.schema, v);
      if !p.required && !Nullable(p.schema) {
        WrappedConforms(defs, p.schema, Fill(defs, p.schema, v));
      }
  }

  lemma {:induction false} AppendConforms(defs: Definitions, props: Props, a: Fields, b: Fields)
    requires FieldsConform(defs, props, a) && FieldsConform(defs, props, b)
    ensures FieldsConform(defs, props, Append(a, b))
  {
    match a
    case NoFields =>
    case Field(_, _, rest) => AppendConforms(defs, props, rest, b);
  }

  lemma {:induction false} MissingConform(defs: Definitions, props: Props, part: Props, fields: Fields)
    requires PropsWellFormed(defs, part) && PartOf(part, props) && AllPresent(part, fields)
    ensures FieldsConform(StrictAll(defs), StrictProps(props), Missing(part, fields))
    decreases part
  {
    match part
    case NoProps =>
    case Prop(n, s, r, rest) =>
      RestIsPart(part, props, defs);
      MissingConform(defs, props, rest, fields);
      if !Has(fields, n) {
        LookupStrict(props, n);
        NullAllowed(defs, s);
      }
  }

  /** The strict form of an optional property takes null. */
  lemma NullAllowed(defs: Definitions, s: Schema)
    requires WellFormed(defs, s)
    ensures Conforms(StrictAll(defs), StrictProp(s, false), NullValue)
  {
    match s
    case AnyOf(parts) => StrictUnion(defs, parts, NullValue);
    case _ => WrappedConforms(defs, s, NullValue);
  }

  lemma {:induction false} MissingHas(props: Props, fields: Fields, name: string)
    requires Lookup(props, name).Some?
    ensures Has(fields, name) || Has(Missing(props, fields), name)
  {
    match props
    case Prop(n, _, _, rest) =>
      if n != name { MissingHas(rest, fields, name); }
  }

  lemma {:induction false} NothingAbsent(defs: Definitions, props: Props, part: Props, fields: Fields)
    requires PropsWellFormed(defs, part) && PartOf(part, props)
    ensures AllPresent(StrictProps(part),
                       Append(FillFields(defs, props, fields), Missing(props, fields)))
    decreases part
  {
    match part
    case NoProps =>
    case Prop(n, _, _, rest) =>
      RestIsPart(part, props, defs);
      NothingAbsent(defs, props, rest, fields);
      MissingHas(props, fields, n);
      HasFilled(defs, props, fields, n);
      HasAppended(FillFields(defs, props, fields), Missing(props, fields), n);
  }

  lemma {:induction false} DecodeOfFill(defs: Definitions, s: Schema, v: Value)
    requires DefinitionsWellFormed(defs) && WellFormed(defs, s) && Conforms(defs, s, v)
    ensures Decode(defs, s, Fill(defs, s, v)) == Explicit(defs, s, v)
    decreases v, Rank(s)
  {
    match s
    case Ref(n) => DecodeOfFill(defs, defs[n], v);
    case AnyOf(parts) =>
      OnlyPart(defs, parts);
      Union(defs, parts, v);
      var part := parts[FirstNotNull(parts)];
      if !v.NullValue? {
        DecodeOfFill(defs, part, v);
        FillKeepsNotNull(defs, part, v);
      }
    case ListOf(items) => DecodeOfFilledItems(defs, items, v.items);
    case Object(props) =>
      DecodeAppends(defs, props, FillFields(defs, props, v.fields), Missing(props, v.fields));
      DecodeOfFilledFields(defs, props, v.fields);
      DecodeOfMissing(defs, props, props, v.fields);
    case Anything => ScalarsDecode(defs, v);
    case _ =>
  }

  /** The empty schema decodes every value to itself. */
  lemma {:induction false} ScalarsDecode(defs: Definitions, v: Value)
    ensures Decode(defs, Anything, v) == v
    decreases v, 0
  {
    match v
    case ListValue(items) => ItemsDecode(defs, items);
    case ObjectValue(fields) => FieldsDecode(defs, fields);
    case _ =>
  }

  lemma {:induction false} ItemsDecode(defs: Definitions, items: Items)
    ensures DecodeItems(defs, Anything, items) == items
    decreases items, 0
  {
    match items
    case NoItems =>
    case Item(head, tail) =>
      ScalarsDecode(defs, head);
      ItemsDecode(defs, tail);
  }

  lemma {:induction false} FieldsDecode(defs: Definitions, fields: Fields)
    ensures DecodeFields(defs, NoProps, fields) == fields
    decreases fields, 0
  {
    match fields
    case NoFields =>
    case Field(_, v, rest) =>
      ScalarsDecode(defs, v);
      FieldsDecode(defs, rest);
  }

  lemma {:induction false} FillKeepsNotNull(defs: Definitions, s: Schema, v: Value)
    requires !v.NullValue?
    ensures !Fill(defs, s, v).NullValue?
    decreases v, Rank(s)
  {
    match s
    case Ref(n) => if n in defs && Plain(defs[n]) { FillKeepsNotNull(defs, defs[n], v); }
    case AnyOf(parts) =>
      var i := FirstNotNull(parts);
      if i < |parts| && !parts[i].AnyOf? { FillKeepsNotNull(defs, parts[i], v); }
    case _ =>
  }

  lemma {:induction false} DecodeOfFilledItems(defs: Definitions, s: Schema, items: Items)
    requires DefinitionsWellFormed(defs) && WellFormed(defs, s) && ItemsConform(defs, s, items)
    ensures DecodeItems(defs, s, FillItems(defs, s, items)) == ExplicitItems(defs, s, items)
    decreases items, 0
  {
    match items
    case NoItems =>
    case Item(head, tail) =>
      DecodeOfFill(defs, s, head);
      DecodeOfFilledItems(defs, s, tail);
  }

  /** A conforming property value that is null belongs to a required or a nullable property. */
  lemma NullIsMeant(defs: Definitions, s: Schema, v: Value)
    requires DefinitionsWellFormed(defs) && WellFormed(defs, s) && Conforms(defs, s, v)
    requires !Nullable(s) && !AcceptsNull(defs, s)
    ensures !v.NullValue?
  {
  }

  lemma {:induction false} DecodeOfFilledFields(defs: Definitions, props: Props, fields: Fields)
    requires DefinitionsWellFormed(defs) && PropsWellFormed(defs, props)
    requires FieldsConform(defs, props, fields)
    ensures DecodeFields(defs, props, FillFields(defs, props, fields)) == ExplicitFields(defs, props, fields)
    decreases fields, 0
  {
    match fields
    case NoFields =>
    case Field(n, v, rest) =>
      DecodeOfFilledFields(defs, props, rest);
      LookupWellFormed(defs, props, n);
      var p := Lookup(props, n).value;
      DecodeOfFill(defs, p.schema, v);
      if !p.required && !Nullable(p.schema) {
        NullIsMeant(defs, p.schema, v);
        FillKeepsNotNull(defs, p.schema, v);
      }
  }

  lemma {:induction false} DecodeAppends(defs: Definitions, props: Props, a: Fields, b: Fields)
    ensures DecodeFields(defs, props, Append(a, b))
         == Append(DecodeFields(defs, props, a), DecodeFields(defs, props, b))
  {
    match a
    case NoFields =>
    case Field(_, _, rest) => DecodeAppends(defs, props, rest, b);
  }

  lemma NullDecodes(defs: Definitions, s: Schema)
    ensures Decode(defs, s, NullValue) == NullValue
  {
  }

  lemma {:induction false} DecodeOfMissing(defs: Definitions, props: Props, part: Props, fields: Fields)
    requires PropsWellFormed(defs, part) && PartOf(part, props) && AllPresent(part, fields)
    ensures DecodeFields(defs, props, Missing(part, fields)) == MissingNullable(part, fields)
    decreases part
  {
    match part
    case NoProps =>
    case Prop(n, s, _, rest) =>
      RestIsPart(part, props, defs);
      DecodeOfMissing(defs, props, rest, fields);
      NullDecodes(defs, s);
  }

  predicate ListsNull(s: Schema) {
    s.AnyOf? && Null in s.parts
  }

  /** A null that is given for a property is dropped if and only if the property is optional and no part of it,
      first or later, is null; any other null is kept. */
  lemma NullIsDroppedExactly(defs: Definitions, props: Props, n: string, rest: Fields)
    ensures DecodeFields(defs, props, Field(n, NullValue, rest))
         == match Lookup(props, n)
            case None => Field(n, NullValue, DecodeFields(defs, props, rest))
            case Some(p) =>
              if p.required || ListsNull(p.schema) then Field(n, NullValue, DecodeFields(defs, props, rest))
              else DecodeFields(defs, props, rest)
  {
    match Lookup(props, n)
    case None => NullDecodes(defs, Anything);
    case Some(p) => NullDecodes(defs, p.schema);
  }

  /** Filling the absent optional properties of a conforming value with nulls gives a value of the
      strict form, and decoding that gives the value back, with nulls spelled out for the nullable
      properties it left out and nothing else changed. */
  lemma RoundTrip(defs: Definitions, s: Schema, v: Value)
    requires DefinitionsWellFormed(defs) && WellFormed(defs, s) && Conforms(defs, s, v)
    ensures Conforms(StrictAll(defs), Strict(s), Fill(defs, s, v))
    ensures Decode(defs, s, Fill(defs, s, v)) == Explicit(defs, s, v)
  {
    FillIsStrict(defs, s, v);
    DecodeOfFill(defs, s, v);
  }

  /** Why a union must have only one part besides null: the decoder reads by the first such part, so a
      value of a later part can lose a null that part requires and fit neither any more. */
  lemma LaterPartIsMisread()
    ensures var optional := Prop("a", Scalar("string"), false, Prop("b", Scalar("string"), true, NoProps));
            var s := AnyOf([Object(optional), Object(Prop("a", Null, true, NoProps))]);
            var v := ObjectValue(Field("a", NullValue, NoFields));
            && Conforms(map[], Strict(s), v) && Conforms(map[], s, v)
            && !Conforms(map[], s, Decode(map[], s, v))
  {
    var optional := Prop("a", Scalar("string"), false, Prop("b", Scalar("string"), true, NoProps));
    var second := Object(Prop("a", Null, true, NoProps));
    var s := AnyOf([Object(optional), second]);
    var v := ObjectValue(Field("a", NullValue, NoFields));
    assert s.parts[1] == second && Conforms(map[], second, v);
    assert Strict(s).parts[1] == Strict(second) == second;
    assert Conforms(map[], Strict(s).parts[1], v);
    assert FirstNotNull(s.parts) == 0;
    assert Decode(map[], s, v) == ObjectValue(NoFields) by {
      assert DecodeFields(map[], optional, v.fields) == NoFields;
    }
    assert !AllPresent(optional, NoFields) && !AllPresent(second.props, NoFields);
  }
}
