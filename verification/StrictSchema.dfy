/** The strict form of an output schema, in which every property is required, and the decoder that
    takes a value of the strict form back to the original schema. */
module StrictSchema {
  import opened Wrappers

  /** `Anything` is the empty schema. Objects are closed: no property beyond those listed. */
  datatype Schema =
    | Object(props: Props)
    | ListOf(items: Schema)
    | Ref(name: string)
    | AnyOf(parts: seq<Schema>)
    | Null
    | Scalar(kind: string)
    | Anything

  datatype Props = NoProps | Prop(name: string, schema: Schema, required: bool, rest: Props)

  type Definitions = map<string, Schema>

  datatype Value = NullValue | ScalarValue(kind: string, text: string) | ListValue(items: Items)
                 | ObjectValue(fields: Fields)

  datatype Items = NoItems | Item(head: Value, tail: Items)

  datatype Fields = NoFields | Field(name: string, value: Value, rest: Fields)

  datatype Property = Property(schema: Schema, required: bool)

  function Lookup(props: Props, name: string): Option<Property> {
    match props
    case NoProps => None
    case Prop(n, s, r, rest) => if n == name then Some(Property(s, r)) else Lookup(rest, name)
  }

  predicate Has(fields: Fields, name: string) {
    match fields
    case NoFields => false
    case Field(n, _, rest) => n == name || Has(rest, name)
  }

  /** A union that lists null. */
  predicate Nullable(s: Schema) {
    s.AnyOf? && exists i | 0 <= i < |s.parts| :: s.parts[i].Null?
  }

  // ----- The strict rewrite -----

  function Strict(s: Schema): Schema
    decreases s, 0
  {
    match s
    case Object(props) => Object(StrictProps(props))
    case ListOf(items) => ListOf(Strict(items))
    case AnyOf(parts) => AnyOf(seq(|parts|, i requires 0 <= i < |parts| => Strict(parts[i])))
    case _ => s
  }

  /** Every property becomes required; an optional one that could not be null now may be. */
  function StrictProps(props: Props): Props
    decreases props, 0
  {
    match props
    case NoProps => NoProps
    case Prop(n, s, r, rest) => Prop(n, StrictProp(s, r), true, StrictProps(rest))
  }

  function StrictProp(s: Schema, required: bool): Schema
    decreases s, 1
  {
    if !required && !Nullable(s) then AnyOf([Strict(s), Null]) else Strict(s)
  }

  function StrictAll(defs: Definitions): Definitions {
    map n | n in defs :: Strict(defs[n])
  }

  // ----- The decoder -----

  function FirstNotNull(parts: seq<Schema>): (i: nat)
    ensures i <= |parts| && (i < |parts| ==> !parts[i].Null?)
    ensures forall j | 0 <= j < i :: parts[j].Null?
  {
    if parts == [] || !parts[0].Null? then 0 else 1 + FirstNotNull(parts[1..])
  }

  /** A schema the decoder looks into without following a name or choosing a part. */
  predicate Plain(s: Schema) {
    !s.Ref? && !s.AnyOf?
  }

  function Rank(s: Schema): nat {
    if s.AnyOf? then 2 else if s.Ref? then 1 else 0
  }

  function ItemsOf(s: Schema): Schema {
    match s
    case ListOf(items) => items
    case _ => Anything
  }

  function PropsOf(s: Schema): Props {
    match s
    case Object(props) => props
    case _ => NoProps
  }

  /** A null for an optional property that could not be null stands for its absence. */
  predicate StandsForAbsence(p: Option<Property>, v: Value) {
    v.NullValue? && p.Some? && !p.value.required && !Nullable(p.value.schema)
  }

  /** A name without a plain definition, and a union without a part to choose, are errors in the
      program; no well-formed schema has them, and they leave the value as it is here. */
  function Decode(defs: Definitions, s: Schema, v: Value): Value
    decreases v, Rank(s)
  {
    match s
    case Ref(n) => if n in defs && Plain(defs[n]) then Decode(defs, defs[n], v) else v
    case AnyOf(parts) =>
      var i := FirstNotNull(parts);
      if v.NullValue? || i == |parts| || parts[i].AnyOf? then v else Decode(defs, parts[i], v)
    case _ =>
      match v
      case ListValue(items) => ListValue(DecodeItems(defs, ItemsOf(s), items))
      case ObjectValue(fields) => ObjectValue(DecodeFields(defs, PropsOf(s), fields))
      case _ => v
  }

  function DecodeItems(defs: Definitions, s: Schema, items: Items): Items
    decreases items, 0
  {
    match items
    case NoItems => NoItems
    case Item(head, tail) => Item(Decode(defs, s, head), DecodeItems(defs, s, tail))
  }

  function DecodeFields(defs: Definitions, props: Props, fields: Fields): Fields
    decreases fields, 0
  {
    match fields
    case NoFields => NoFields
    case Field(n, v, rest) =>
      var p := Lookup(props, n);
      if StandsForAbsence(p, v) then DecodeFields(defs, props, rest)
      else
        var s := match p case Some(q) => q.schema case None => Anything;
        Field(n, Decode(defs, s, v), DecodeFields(defs, props, rest))
  }

  // ----- Conformance -----

  ghost predicate Conforms(defs: Definitions, s: Schema, v: Value)
    decreases v, Rank(s)
  {
    match s
    case Anything => true
    case Null => v.NullValue?
    case Scalar(kind) => v.ScalarValue? && v.kind == kind
    case Ref(n) => n in defs && Plain(defs[n]) && Conforms(defs, defs[n], v)
    case AnyOf(parts) =>
      exists i | 0 <= i < |parts| :: !parts[i].AnyOf? && Conforms(defs, parts[i], v)
    case ListOf(items) => v.ListValue? && ItemsConform(defs, items, v.items)
    case Object(props) =>
      v.ObjectValue? && FieldsConform(defs, props, v.fields) && AllPresent(props, v.fields)
  }

  ghost predicate ItemsConform(defs: Definitions, s: Schema, items: Items)
    decreases items, 0
  {
    match items
    case NoItems => true
    case Item(head, tail) => Conforms(defs, s, head) && ItemsConform(defs, s, tail)
  }

  ghost predicate FieldsConform(defs: Definitions, props: Props, fields: Fields)
    decreases fields, 0
  {
    match fields
    case NoFields => true
    case Field(n, v, rest) =>
      && Lookup(props, n).Some? && Conforms(defs, Lookup(props, n).value.schema, v)
      && FieldsConform(defs, props, rest)
  }

  predicate AllPresent(props: Props, fields: Fields) {
    match props
    case NoProps => true
    case Prop(n, _, r, rest) => (r ==> Has(fields, n)) && AllPresent(rest, fields)
  }

  // ----- Well-formed schemas -----

  /** Whether null conforms without a union saying so. */
  predicate AcceptsNull(defs: Definitions, s: Schema) {
    match s
    case Anything => true
    case Null => true
    case Ref(n) => n in defs && (defs[n].Anything? || defs[n].Null?)
    case _ => false
  }

  /** Objects, lists, references and nullable parts: a union is one schema or null, an optional
      property is nullable or never null, and names are defined. */
  predicate WellFormed(defs: Definitions, s: Schema) {
    match s
    case Object(props) => PropsWellFormed(defs, props)
    case ListOf(items) => WellFormed(defs, items)
    case Ref(n) => n in defs
    case AnyOf(parts) =>
      && Nullable(s)
      && (exists i | 0 <= i < |parts| ::
            && !parts[i].Null? && !parts[i].AnyOf? && WellFormed(defs, parts[i])
            && forall j | 0 <= j < |parts| && j != i :: parts[j].Null?)
    case _ => true
  }

  predicate PropsWellFormed(defs: Definitions, props: Props) {
    match props
    case NoProps => true
    case Prop(n, s, r, rest) =>
      && WellFormed(defs, s) && (r || Nullable(s) || !AcceptsNull(defs, s))
      && Lookup(rest, n).None? && PropsWellFormed(defs, rest)
  }

  predicate DefinitionsWellFormed(defs: Definitions) {
    forall n | n in defs :: Plain(defs[n]) && WellFormed(defs, defs[n])
  }

  // ----- Filling in what the strict form asks for -----

  /** The author's side: give every absent optional property a null. */
  function Fill(defs: Definitions, s: Schema, v: Value): Value
    decreases v, Rank(s)
  {
    match s
    case Ref(n) => if n in defs && Plain(defs[n]) then Fill(defs, defs[n], v) else v
    case AnyOf(parts) =>
      var i := FirstNotNull(parts);
      if v.NullValue? || i == |parts| || parts[i].AnyOf? then v else Fill(defs, parts[i], v)
    case ListOf(items) => if v.ListValue? then ListValue(FillItems(defs, items, v.items)) else v
    case Object(props) =>
      if v.ObjectValue? then
        ObjectValue(Append(FillFields(defs, props, v.fields), Missing(props, v.fields)))
      else v
    case _ => v
  }

  function FillItems(defs: Definitions, s: Schema, items: Items): Items
    decreases items, 0
  {
    match items
    case NoItems => NoItems
    case Item(head, tail) => Item(Fill(defs, s, head), FillItems(defs, s, tail))
  }

  function FillFields(defs: Definitions, props: Props, fields: Fields): Fields
    decreases fields, 0
  {
    match fields
    case NoFields => NoFields
    case Field(n, v, rest) =>
      var p := Lookup(props, n);
      Field(n, if p.Some? then Fill(defs, p.value.schema, v) else v, FillFields(defs, props, rest))
  }

  function Append(a: Fields, b: Fields): Fields {
    match a
    case NoFields => b
    case Field(n, v, rest) => Field(n, v, Append(rest, b))
  }

  /** Nulls for the properties that a value leaves out. */
  function Missing(props: Props, fields: Fields): Fields {
    match props
    case NoProps => NoFields
    case Prop(n, _, _, rest) =>
      if Has(fields, n) then Missing(rest, fields) else Field(n, NullValue, Missing(rest, fields))
  }

  /** The same value with explicit nulls for the nullable properties it leaves out, and no others. */
  function Explicit(defs: Definitions, s: Schema, v: Value): Value
    decreases v, Rank(s)
  {
    match s
    case Ref(n) => if n in defs && Plain(defs[n]) then Explicit(defs, defs[n], v) else v
    case AnyOf(parts) =>
      var i := FirstNotNull(parts);
      if v.NullValue? || i == |parts| || parts[i].AnyOf? then v else Explicit(defs, parts[i], v)
    case ListOf(items) => if v.ListValue? then ListValue(ExplicitItems(defs, items, v.items)) else v
    case Object(props) =>
      if v.ObjectValue? then
        ObjectValue(Append(ExplicitFields(defs, props, v.fields), MissingNullable(props, v.fields)))
      else v
    case _ => v
  }

  function ExplicitItems(defs: Definitions, s: Schema, items: Items): Items
    decreases items, 0
  {
    match items
    case NoItems => NoItems
    case Item(head, tail) => Item(Explicit(defs, s, head), ExplicitItems(defs, s, tail))
  }

  function ExplicitFields(defs: Definitions, props: Props, fields: Fields): Fields
    decreases fields, 0
  {
    match fields
    case NoFields => NoFields
    case Field(n, v, rest) =>
      var p := Lookup(props, n);
      Field(n, if p.Some? then Explicit(defs, p.value.schema, v) else v, ExplicitFields(defs, props, rest))
  }

  function MissingNullable(props: Props, fields: Fields): Fields {
    match props
    case NoProps => NoFields
    case Prop(n, s, _, rest) =>
      if Has(fields, n) || !Nullable(s) then MissingNullable(rest, fields)
      else Field(n, NullValue, MissingNullable(rest, fields))
  }
}
