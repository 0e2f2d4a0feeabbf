/**
 * BytesConverter, the single message transform: its configuration, its schema
 * cache, and the per-record rewrite, as a class whose methods are proved to compute
 * the functions of record_rewrite.dfy.
 */
module Transforms {
  import opened Wrappers
  import opened Charsets
  import opened ConnectData
  import opened RecordRewrite
  import opened SchemaCache

  const FIELD_NAME := "field.name"
  const SOURCE_CHARSET := "source.charset"
  const TARGET_CHARSET := "target.charset"
  const DEFAULT_SOURCE_CHARSET := "ISO-8859-1"
  const DEFAULT_TARGET_CHARSET := "IBM285"
  /** The capacity configure gives the schema cache. */
  const CACHE_CAPACITY := 16

  /** A string option: its value when given, the default otherwise. */
  function Setting(props: map<string, string>, key: string, default: string): string
  {
    if key in props then props[key] else default
  }

  /** Every cached schema is mapped to the schema makeUpdatedSchema derives from it. */
  ghost predicate CachesDerivations(entries: map<Schema, Schema>, fieldName: Option<string>)
  {
    forall k :: k in entries ==> entries[k] == Derive(k, fieldName)
  }

  /** A prefix of the rebuild that has failed decides the whole rebuild. */
  lemma {:induction false} FailureIsFinal(st: Struct, n: nat, m: nat, fieldName: Option<string>, src: string, tgt: string, reg: Registry)
    requires Conforms(st) && n <= m <= |st.values|
    requires RebuildSlots(st, n, fieldName, src, tgt, reg).Err?
    ensures RebuildSlots(st, m, fieldName, src, tgt, reg) == RebuildSlots(st, n, fieldName, src, tgt, reg)
    decreases m - n
  {
    if n < m {
      assert RebuildSlots(st, n + 1, fieldName, src, tgt, reg) == RebuildSlots(st, n, fieldName, src, tgt, reg);
      FailureIsFinal(st, n + 1, m, fieldName, src, tgt, reg);
    }
  }

  /** BytesConverter; `half` tells the Key variant from the Value variant. */
  class BytesConverter {
    const half: Half
    var fieldName: Option<string>
    var sourceCharset: string
    var targetCharset: string
    /** Null before configure and after close. */
    var schemaUpdateCache: LruCache?<Schema, Schema>
    /** How many times makeUpdatedSchema has run since the cache was created. */
    ghost var derivations: nat

    ghost predicate Valid()
      reads this, schemaUpdateCache
    {
      schemaUpdateCache != null ==>
        && schemaUpdateCache.Valid()
        && schemaUpdateCache.capacity == CACHE_CAPACITY
        && CachesDerivations(schemaUpdateCache.entries, fieldName)
    }

    /** An unconfigured BytesConverter.Key or BytesConverter.Value. */
    constructor (half: Half)
      ensures Valid()
      ensures this.half == half && schemaUpdateCache == null && fieldName == None && derivations == 0
    {
      this.half := half;
      fieldName := None;
      sourceCharset := "";
      targetCharset := "";
      schemaUpdateCache := null;
      derivations := 0;
    }

    /**
     * configure: reads field.name (no default), source.charset and target.charset
     * (defaults ISO-8859-1 and IBM285) and creates an empty cache of capacity 16.
     */
    method Configure(props: map<string, string>)
      modifies this
      ensures Valid()
      ensures fieldName == if FIELD_NAME in props then Some(props[FIELD_NAME]) else None
      ensures sourceCharset == Setting(props, SOURCE_CHARSET, DEFAULT_SOURCE_CHARSET)
      ensures targetCharset == Setting(props, TARGET_CHARSET, DEFAULT_TARGET_CHARSET)
      ensures schemaUpdateCache != null && fresh(schemaUpdateCache)
      ensures schemaUpdateCache.capacity == CACHE_CAPACITY && schemaUpdateCache.entries == map[]
      ensures derivations == 0
    {
      fieldName := if FIELD_NAME in props then Some(props[FIELD_NAME]) else None;
      sourceCharset := Setting(props, SOURCE_CHARSET, DEFAULT_SOURCE_CHARSET);
      targetCharset := Setting(props, TARGET_CHARSET, DEFAULT_TARGET_CHARSET);
      schemaUpdateCache := new LruCache(CACHE_CAPACITY);
      derivations := 0;
    }

    /** close: drops the cache. */
    method Close()
      modifies this`schemaUpdateCache
      ensures Valid() && schemaUpdateCache == null
    {
      schemaUpdateCache := null;
    }

    /**
     * apply: the schemaless path when the operating schema is null, the schema path
     * otherwise. Whatever the cache holds, the result is the one Transformed
     * specifies. The cache is touched only on the schema path with a Struct operand:
     * afterwards it maps that struct's schema to its derivation, and
     * makeUpdatedSchema ran exactly when the schema was not cached before.
     */
    method Apply(record: Record, reg: Registry) returns (r: Result<Record, Error>)
      requires Valid() && schemaUpdateCache != null
      requires OperandConforms(half, record)
      modifies schemaUpdateCache, this`derivations
      ensures Valid()
      ensures r == Transformed(half, fieldName, sourceCharset, targetCharset, reg, record)
      ensures OperatingSchema(half, record).None? || !OperatingValue(half, record).StructValue? ==>
        && schemaUpdateCache.entries == old(schemaUpdateCache.entries)
        && schemaUpdateCache.order == old(schemaUpdateCache.order)
        && derivations == old(derivations)
      ensures OperatingSchema(half, record).Some? && OperatingValue(half, record).StructValue? ==>
        var key := OperatingValue(half, record).st.schema;
        && key in schemaUpdateCache.entries
        && schemaUpdateCache.entries[key] == Derive(key, fieldName)
        && (key in old(schemaUpdateCache.entries) ==> schemaUpdateCache.entries == old(schemaUpdateCache.entries))
        && derivations == old(derivations) + if key in old(schemaUpdateCache.entries) then 0 else 1
    {
      if OperatingSchema(half, record).None? {
        r := ApplySchemaless(record, reg);
      } else {
        r := ApplyWithSchema(record, reg);
      }
    }

    /** applySchemaless: copies the map and replaces the field when it holds a String. */
    method ApplySchemaless(record: Record, reg: Registry) returns (r: Result<Record, Error>)
      ensures r == SchemalessRecord(half, fieldName, sourceCharset, targetCharset, reg, record)
    {
      var operand := OperatingValue(half, record);
      if !operand.MapValue? {
        return Err(NotAMap);
      }
      var value := operand.entries;
      var updatedValue := value;
      if fieldName.Some? && fieldName.value in value && value[fieldName.value].Str? {
        var converted := ConvertString(reg, value[fieldName.value].s, sourceCharset, targetCharset);
        if converted.Err? {
          return Err(ConversionFailed(converted.error));
        }
        updatedValue := updatedValue[fieldName.value := Bytes(converted.value)];
      }
      r := Ok(NewRecord(half, record, None, MapValue(updatedValue)));
    }

    /**
     * applyWithSchema: the derived schema comes from the cache, or is made and cached
     * on a miss (before the struct is rebuilt, so a failing conversion still leaves
     * it cached); then the struct is rebuilt under it.
     */
    method ApplyWithSchema(record: Record, reg: Registry) returns (r: Result<Record, Error>)
      requires Valid() && schemaUpdateCache != null
      requires OperandConforms(half, record)
      modifies schemaUpdateCache, this`derivations
      ensures Valid()
      ensures r == SchemaRecord(half, fieldName, sourceCharset, targetCharset, reg, record)
      ensures !OperatingValue(half, record).StructValue? ==>
        && schemaUpdateCache.entries == old(schemaUpdateCache.entries)
        && schemaUpdateCache.order == old(schemaUpdateCache.order)
        && derivations == old(derivations)
      ensures OperatingValue(half, record).StructValue? ==>
        var key := OperatingValue(half, record).st.schema;
        && key in schemaUpdateCache.entries
        && schemaUpdateCache.entries[key] == Derive(key, fieldName)
        && (key in old(schemaUpdateCache.entries) ==> schemaUpdateCache.entries == old(schemaUpdateCache.entries))
        && derivations == old(derivations) + if key in old(schemaUpdateCache.entries) then 0 else 1
    {
      var operand := OperatingValue(half, record);
      if !operand.StructValue? {
        return Err(NotAStruct);
      }
      var value := operand.st;
      var updatedSchema;
      var cached := schemaUpdateCache.Get(value.schema);
      if cached.None? {
        updatedSchema := MakeUpdatedSchema(value.schema);
        derivations := derivations + 1;
        schemaUpdateCache.Put(value.schema, updatedSchema);
      } else {
        updatedSchema := cached.value;
      }
      var updatedValue := RebuildStruct(value, updatedSchema, reg);
      match updatedValue
      case Err(e) =>
        r := Err(e);
      case Ok(st) =>
        r := Ok(NewRecord(half, record, Some(updatedSchema), StructValue(st)));
    }

    /**
     * The field loop of applyWithSchema: a new Struct under `updatedSchema`, each
     * field put in order, the target converted and every other field copied.
     */
    method RebuildStruct(value: Struct, updatedSchema: Schema, reg: Registry) returns (r: Result<Struct, Error>)
      requires Conforms(value)
      ensures r == Rebuild(value, updatedSchema, fieldName, sourceCharset, targetCharset, reg)
    {
      var fields := value.schema.fields;
      var slots := new Value[|fields|](_ => Null);
      var i := 0;
      while i < |fields|
        invariant 0 <= i <= |fields|
        invariant RebuildSlots(value, i, fieldName, sourceCharset, targetCharset, reg) == Ok(slots[..i])
      {
        if Matches(fields[i].name, fieldName) {
          var fieldValue := FieldValue(value, i);
          var failure: Option<Error> := None;
          if fieldValue.Null? {
            failure := Some(NullPointer);
          } else if !fieldValue.Str? {
            failure := Some(ClassCast);
          } else {
            var converted := ConvertString(reg, fieldValue.s, sourceCharset, targetCharset);
            if converted.Err? {
              failure := Some(ConversionFailed(converted.error));
            } else {
              slots[i] := Bytes(converted.value);
            }
          }
          if failure.Some? {
            assert RebuildSlots(value, i + 1, fieldName, sourceCharset, targetCharset, reg) == Err(failure.value);
            FailureIsFinal(value, i + 1, |fields|, fieldName, sourceCharset, targetCharset, reg);
            return Err(failure.value);
          }
        } else {
          slots[i] := FieldValue(value, i);
        }
        assert slots[..i + 1] == slots[..i] + [slots[i]];
        i := i + 1;
      }
      assert slots[..] == slots[..i];
      r := Ok(Struct(updatedSchema, slots[..]));
    }

    /**
     * makeUpdatedSchema: a STRUCT schema with the input's basics and its fields in
     * order, the configured field retyped as optional bytes and the others unchanged.
     */
    method MakeUpdatedSchema(schema: Schema) returns (updated: Schema)
      ensures updated == Derive(schema, fieldName)
      ensures updated.kind == StructType && updated.basics == schema.basics
      ensures Names(updated.fields) == Names(schema.fields)
      ensures forall i :: 0 <= i < |schema.fields| ==>
        updated.fields[i].schema ==
          if Matches(schema.fields[i].name, fieldName) then OptionalBytesSchema else schema.fields[i].schema
    {
      var fields: seq<Field> := [];
      var i := 0;
      while i < |schema.fields|
        invariant 0 <= i <= |schema.fields|
        invariant |fields| == i
        invariant forall j :: 0 <= j < i ==> fields[j] == RetypedField(schema.fields[j], fieldName)
      {
        var field := schema.fields[i];
        if Matches(field.name, fieldName) {
          fields := fields + [Field(field.name, OptionalBytesSchema)];
        } else {
          fields := fields + [Field(field.name, field.schema)];
        }
        i := i + 1;
      }
      updated := Schema(StructType, false, Null, schema.basics, fields);
    }
  }

  /**
   * Two records whose operands are structs with the same schema, transformed one
   * after the other by the schema path: makeUpdatedSchema runs at most once for
   * both, because the second lookup hits the cache.
   */
  method TransformSameSchemaTwice(conv: BytesConverter, first: Record, second: Record, reg: Registry)
      returns (r1: Result<Record, Error>, r2: Result<Record, Error>)
    requires conv.Valid() && conv.schemaUpdateCache != null
    requires OperandConforms(conv.half, first) && OperandConforms(conv.half, second)
    requires OperatingSchema(conv.half, first).Some? && OperatingSchema(conv.half, second).Some?
    requires OperatingValue(conv.half, first).StructValue? && OperatingValue(conv.half, second).StructValue?
    requires OperatingValue(conv.half, first).st.schema == OperatingValue(conv.half, second).st.schema
    modifies conv.schemaUpdateCache, conv`derivations
    ensures conv.derivations <= old(conv.derivations) + 1
    ensures r1 == Transformed(conv.half, conv.fieldName, conv.sourceCharset, conv.targetCharset, reg, first)
    ensures r2 == Transformed(conv.half, conv.fieldName, conv.sourceCharset, conv.targetCharset, reg, second)
  {
    r1 := conv.Apply(first, reg);
    r2 := conv.Apply(second, reg);
  }
}
