/**
 * What BytesConverter does to one record, as functions of the record and the frozen
 * configuration: the derived schema, the schemaless map update, the struct rebuild,
 * and the dispatch between the two paths. The class in bytes_converter.dfy is proved
 * to compute exactly these, whatever its schema cache holds.
 */
module RecordRewrite {
  import opened Wrappers
  import opened Charsets
  import opened ConnectData

  /** Why apply throws instead of returning a record. */
  datatype Error =
    | NotAMap                        // requireMap: the schemaless operand is not a Map
    | NotAStruct                     // requireStruct: the schema-typed operand is not a Struct
    | ClassCast                      // the target field of a struct holds a non-String
    | NullPointer                    // the target field of a struct is null (getBytes on null)
    | ConversionFailed(charset: string)  // RuntimeException around UnsupportedEncodingException

  /** field.name equals the configured field name (a null configured name matches nothing). */
  predicate Matches(name: string, fieldName: Option<string>)
  {
    fieldName == Some(name)
  }

  // ---------------------------------------------------------------- makeUpdatedSchema

  /** The field as makeUpdatedSchema re-declares it. */
  function RetypedField(f: Field, fieldName: Option<string>): Field
  {
    if Matches(f.name, fieldName) then Field(f.name, OptionalBytesSchema) else f
  }

  /** The derived field list, built front to back. */
  function DeriveFields(fs: seq<Field>, fieldName: Option<string>): (r: seq<Field>)
    ensures |r| == |fs|
    ensures forall i :: 0 <= i < |fs| ==> r[i] == RetypedField(fs[i], fieldName)
  {
    if fs == [] then [] else [RetypedField(fs[0], fieldName)] + DeriveFields(fs[1..], fieldName)
  }

  /**
   * makeUpdatedSchema: a new STRUCT schema (SchemaBuilder.struct(): required, no default)
   * carrying the input's basics and its fields in order, the target retyped.
   */
  function Derive(s: Schema, fieldName: Option<string>): Schema
  {
    Schema(StructType, false, Null, s.basics, DeriveFields(s.fields, fieldName))
  }

  function Names(fs: seq<Field>): (r: seq<string>)
    ensures |r| == |fs| && forall i :: 0 <= i < |fs| ==> r[i] == fs[i].name
  {
    seq(|fs|, i requires 0 <= i < |fs| => fs[i].name)
  }

  /** A schema with no field named `fieldName` keeps its field list. */
  lemma DeriveWithoutTarget(s: Schema, fieldName: Option<string>)
    requires forall i :: 0 <= i < |s.fields| ==> !Matches(s.fields[i].name, fieldName)
    ensures Derive(s, fieldName).fields == s.fields
  {
  }

  /** Deriving is idempotent. */
  lemma DeriveIdempotent(s: Schema, fieldName: Option<string>)
    ensures Derive(Derive(s, fieldName), fieldName) == Derive(s, fieldName)
  {
  }

  /** The derived schema names the same distinct fields as its input. */
  lemma DeriveKeepsNames(s: Schema, fieldName: Option<string>)
    ensures Names(Derive(s, fieldName).fields) == Names(s.fields)
    ensures DistinctNames(s.fields) ==> DistinctNames(Derive(s, fieldName).fields)
  {
  }

  // ---------------------------------------------------------------- applySchemaless

  /** The configured field is present in the map and holds a String. */
  predicate HoldsString(m: map<string, Value>, fieldName: Option<string>)
  {
    fieldName.Some? && fieldName.value in m && m[fieldName.value].Str?
  }

  /** The Error a failed convertString becomes. */
  function ConversionError(src: string, tgt: string, reg: Registry): Error
  {
    ConversionFailed(if Supported(reg, src) then tgt else src)
  }

  /**
   * The schemaless update: a copy of the map in which the configured field, when it
   * holds a String, is replaced by that string's bytes in the target charset.
   */
  function SchemalessUpdate(m: map<string, Value>, fieldName: Option<string>, src: string, tgt: string, reg: Registry)
    : (r: Result<map<string, Value>, Error>)
    ensures r.Err? <==> HoldsString(m, fieldName) && !(Supported(reg, src) && Supported(reg, tgt))
    ensures r.Err? ==> r.error == ConversionError(src, tgt, reg)
    ensures r.Ok? ==> r.value.Keys == m.Keys
    ensures r.Ok? ==> forall k :: k in m && !Matches(k, fieldName) ==> r.value[k] == m[k]
    ensures r.Ok? && fieldName.Some? && fieldName.value in m ==>
      r.value[fieldName.value] ==
        if m[fieldName.value].Str? then Bytes(Encode(reg, m[fieldName.value].s, tgt)) else m[fieldName.value]
  {
    if HoldsString(m, fieldName) then
      match ConvertString(reg, m[fieldName.value].s, src, tgt)
      case Ok(bytes) => Ok(m[fieldName.value := Bytes(bytes)])
      case Err(_) => Err(ConversionError(src, tgt, reg))
    else Ok(m)
  }

  // ---------------------------------------------------------------- applyWithSchema

  /** convertString((String) v, src, tgt) for the target field of a struct. */
  function ConvertField(v: Value, src: string, tgt: string, reg: Registry): (r: Result<Value, Error>)
    ensures r.Ok? <==> v.Str? && Supported(reg, src) && Supported(reg, tgt)
    ensures r.Ok? ==> r.value == Bytes(Encode(reg, v.s, tgt))
    ensures r.Err? ==> r.error == match v
      case Null => NullPointer
      case Str(_) => ConversionError(src, tgt, reg)
      case _ => ClassCast
  {
    match v
    case Null => Err(NullPointer)
    case Str(s) =>
      (match ConvertString(reg, s, src, tgt)
       case Ok(bytes) => Ok(Bytes(bytes))
       case Err(_) => Err(ConversionError(src, tgt, reg)))
    case _ => Err(ClassCast)
  }

  /** What the rebuild puts in slot `i`: the converted target, or the copied value. */
  function SlotValue(st: Struct, i: nat, fieldName: Option<string>, src: string, tgt: string, reg: Registry)
    : Result<Value, Error>
    requires Conforms(st) && i < |st.values|
  {
    if Matches(st.schema.fields[i].name, fieldName) then ConvertField(FieldValue(st, i), src, tgt, reg)
    else Ok(FieldValue(st, i))
  }

  /** The first `n` slots of the rebuilt struct, filled in field order; the first failure aborts. */
  function RebuildSlots(st: Struct, n: nat, fieldName: Option<string>, src: string, tgt: string, reg: Registry)
    : Result<seq<Value>, Error>
    requires Conforms(st) && n <= |st.values|
  {
    if n == 0 then Ok([])
    else
      match RebuildSlots(st, n - 1, fieldName, src, tgt, reg)
      case Err(e) => Err(e)
      case Ok(vs) =>
        match SlotValue(st, n - 1, fieldName, src, tgt, reg)
        case Err(e) => Err(e)
        case Ok(v) => Ok(vs + [v])
  }

  /** The rebuild loop: a new Struct under `updated`, one slot per field of the input. */
  function Rebuild(st: Struct, updated: Schema, fieldName: Option<string>, src: string, tgt: string, reg: Registry)
    : Result<Struct, Error>
    requires Conforms(st)
  {
    match RebuildSlots(st, |st.values|, fieldName, src, tgt, reg)
    case Err(e) => Err(e)
    case Ok(vs) => Ok(Struct(updated, vs))
  }

  /** The slots succeed exactly when each slot does, and hold what each slot computes. */
  lemma {:induction false} RebuildSlotsMeaning(st: Struct, n: nat, fieldName: Option<string>, src: string, tgt: string, reg: Registry)
    requires Conforms(st) && n <= |st.values|
    ensures RebuildSlots(st, n, fieldName, src, tgt, reg).Ok? <==>
      forall i :: 0 <= i < n ==> SlotValue(st, i, fieldName, src, tgt, reg).Ok?
    ensures RebuildSlots(st, n, fieldName, src, tgt, reg).Ok? ==>
      var vs := RebuildSlots(st, n, fieldName, src, tgt, reg).value;
      |vs| == n && forall i :: 0 <= i < n ==> vs[i] == SlotValue(st, i, fieldName, src, tgt, reg).value
    ensures RebuildSlots(st, n, fieldName, src, tgt, reg).Err? ==>
      exists i :: 0 <= i < n && SlotValue(st, i, fieldName, src, tgt, reg) == Err(RebuildSlots(st, n, fieldName, src, tgt, reg).error)
  {
    if n > 0 {
      RebuildSlotsMeaning(st, n - 1, fieldName, src, tgt, reg);
    }
  }

  /** The rebuilt struct carries the derived schema and conforms to it. */
  lemma RebuildSchema(st: Struct, fieldName: Option<string>, src: string, tgt: string, reg: Registry)
    requires Conforms(st)
    ensures var r := Rebuild(st, Derive(st.schema, fieldName), fieldName, src, tgt, reg);
      r.Ok? ==> r.value.schema == Derive(st.schema, fieldName) && Conforms(r.value)
  {
    RebuildSlotsMeaning(st, |st.values|, fieldName, src, tgt, reg);
    DeriveKeepsNames(st.schema, fieldName);
  }

  /**
   * Every field other than the target keeps the value Struct.get reports for it, and
   * the target holds its string's bytes in the target charset.
   */
  lemma RebuildValues(st: Struct, fieldName: Option<string>, src: string, tgt: string, reg: Registry)
    requires Conforms(st)
    ensures var r := Rebuild(st, Derive(st.schema, fieldName), fieldName, src, tgt, reg);
      r.Ok? ==> |r.value.values| == |st.values| && forall i :: 0 <= i < |st.values| ==>
        if Matches(st.schema.fields[i].name, fieldName) then
          FieldValue(st, i).Str? && Supported(reg, tgt) &&
          r.value.values[i] == Bytes(Encode(reg, FieldValue(st, i).s, tgt))
        else
          r.value.values[i] == FieldValue(st, i)
  {
    RebuildSlotsMeaning(st, |st.values|, fieldName, src, tgt, reg);
    var r := Rebuild(st, Derive(st.schema, fieldName), fieldName, src, tgt, reg);
    if r.Ok? {
      forall i | 0 <= i < |st.values|
        ensures if Matches(st.schema.fields[i].name, fieldName) then
            FieldValue(st, i).Str? && Supported(reg, tgt) &&
            r.value.values[i] == Bytes(Encode(reg, FieldValue(st, i).s, tgt))
          else
            r.value.values[i] == FieldValue(st, i)
      {
        assert SlotValue(st, i, fieldName, src, tgt, reg).Ok?;
      }
    }
  }

  /**
   * The rebuild fails exactly when the target field is present and its conversion
   * fails, and then with that conversion's error.
   */
  lemma RebuildFails(st: Struct, fieldName: Option<string>, src: string, tgt: string, reg: Registry)
    requires Conforms(st)
    ensures var r := Rebuild(st, Derive(st.schema, fieldName), fieldName, src, tgt, reg);
      && (r.Err? <==>
            (exists i :: 0 <= i < |st.values| && Matches(st.schema.fields[i].name, fieldName) &&
                         ConvertField(FieldValue(st, i), src, tgt, reg).Err?))
      && (r.Err? ==>
            (exists i :: 0 <= i < |st.values| && Matches(st.schema.fields[i].name, fieldName) &&
                         r.error == ConvertField(FieldValue(st, i), src, tgt, reg).error))
  {
    RebuildSlotsMeaning(st, |st.values|, fieldName, src, tgt, reg);
    var r := Rebuild(st, Derive(st.schema, fieldName), fieldName, src, tgt, reg);
    if exists i :: 0 <= i < |st.values| && Matches(st.schema.fields[i].name, fieldName) &&
                   ConvertField(FieldValue(st, i), src, tgt, reg).Err? {
      var i :| 0 <= i < |st.values| && Matches(st.schema.fields[i].name, fieldName) &&
               ConvertField(FieldValue(st, i), src, tgt, reg).Err?;
      assert SlotValue(st, i, fieldName, src, tgt, reg).Err?;
    }
  }

  // ---------------------------------------------------------------- apply

  /** The Java Struct invariant, for the operand of the schema-typed path. */
  predicate OperandConforms(half: Half, record: Record)
  {
    OperatingValue(half, record).StructValue? ==> Conforms(OperatingValue(half, record).st)
  }

  /** applySchemaless */
  function SchemalessRecord(half: Half, fieldName: Option<string>, src: string, tgt: string, reg: Registry, record: Record)
    : Result<Record, Error>
  {
    match OperatingValue(half, record)
    case MapValue(m) =>
      (match SchemalessUpdate(m, fieldName, src, tgt, reg)
       case Ok(updated) => Ok(NewRecord(half, record, None, MapValue(updated)))
       case Err(e) => Err(e))
    case _ => Err(NotAMap)
  }

  /** applyWithSchema, with the derived schema in place of the cache lookup. */
  function SchemaRecord(half: Half, fieldName: Option<string>, src: string, tgt: string, reg: Registry, record: Record)
    : Result<Record, Error>
    requires OperandConforms(half, record)
  {
    match OperatingValue(half, record)
    case StructValue(st) =>
      var updatedSchema := Derive(st.schema, fieldName);
      (match Rebuild(st, updatedSchema, fieldName, src, tgt, reg)
       case Ok(updated) => Ok(NewRecord(half, record, Some(updatedSchema), StructValue(updated)))
       case Err(e) => Err(e))
    case _ => Err(NotAStruct)
  }

  /** apply: the schemaless path exactly when the operating schema is null. */
  function Transformed(half: Half, fieldName: Option<string>, src: string, tgt: string, reg: Registry, record: Record)
    : Result<Record, Error>
    requires OperandConforms(half, record)
  {
    if OperatingSchema(half, record).None? then SchemalessRecord(half, fieldName, src, tgt, reg, record)
    else SchemaRecord(half, fieldName, src, tgt, reg, record)
  }

  /**
   * A transformed record differs from its input only in the operated half. On the
   * schemaless path that half has no schema and holds the updated map; on the
   * schema path it holds the rebuilt struct under the derived schema.
   */
  lemma TransformedRecord(half: Half, fieldName: Option<string>, src: string, tgt: string, reg: Registry, record: Record)
    requires OperandConforms(half, record)
    ensures var r := Transformed(half, fieldName, src, tgt, reg, record);
      && (r.Ok? ==> OnlyHalfChanged(half, record, r.value))
      && (r.Ok? && OperatingSchema(half, record).None? ==>
            && OperatingValue(half, record).MapValue?
            && OperatingSchema(half, r.value) == None
            && Ok(OperatingValue(half, r.value).entries) ==
                 SchemalessUpdate(OperatingValue(half, record).entries, fieldName, src, tgt, reg))
      && (r.Ok? && OperatingSchema(half, record).Some? ==>
            && OperatingValue(half, record).StructValue?
            && var st := OperatingValue(half, record).st;
               && OperatingSchema(half, r.value) == Some(Derive(st.schema, fieldName))
               && OperatingValue(half, r.value) == StructValue(Rebuild(st, Derive(st.schema, fieldName), fieldName, src, tgt, reg).value)
               && OperatingValue(half, r.value).st.schema == Derive(st.schema, fieldName))
  {
  }

  /**
   * An unsupported source or target charset makes apply fail, naming the charset,
   * whenever there is a string to convert: on the schemaless path a String under the
   * field name, on the schema path a String in the target field.
   */
  lemma UnsupportedCharsetFails(half: Half, fieldName: Option<string>, src: string, tgt: string, reg: Registry, record: Record)
    requires OperandConforms(half, record)
    requires !(Supported(reg, src) && Supported(reg, tgt))
    requires OperatingSchema(half, record).None? ==>
      OperatingValue(half, record).MapValue? && HoldsString(OperatingValue(half, record).entries, fieldName)
    requires OperatingSchema(half, record).Some? ==>
      && OperatingValue(half, record).StructValue?
      && var st := OperatingValue(half, record).st;
         exists i :: 0 <= i < |st.values| && Matches(st.schema.fields[i].name, fieldName) && FieldValue(st, i).Str?
    ensures Transformed(half, fieldName, src, tgt, reg, record) == Err(ConversionError(src, tgt, reg))
  {
    if OperatingSchema(half, record).Some? {
      var st := OperatingValue(half, record).st;
      RebuildFails(st, fieldName, src, tgt, reg);
      var i :| 0 <= i < |st.values| && Matches(st.schema.fields[i].name, fieldName) && FieldValue(st, i).Str?;
      var r := Rebuild(st, Derive(st.schema, fieldName), fieldName, src, tgt, reg);
      assert r.Err?;
      var j :| 0 <= j < |st.values| && Matches(st.schema.fields[j].name, fieldName) &&
        r.error == ConvertField(FieldValue(st, j), src, tgt, reg).error;
      assert st.schema.fields[i].name == st.schema.fields[j].name;
      assert i == j;
    }
  }
}
