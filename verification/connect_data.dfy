/**
 * The Kafka Connect data the transform reads and builds: schemas, fields, values,
 * structs and records, and the two record halves (key or value) a variant rewrites.
 */
module ConnectData {
  import opened Wrappers
  import opened Charsets

  /** Schema.Type */
  datatype Kind =
    | Int8Type | Int16Type | Int32Type | Int64Type | Float32Type | Float64Type
    | BooleanType | StringType | BytesType | ArrayType | MapType | StructType

  /** The descriptor-level metadata SchemaUtil.copySchemaBasics copies verbatim. */
  datatype Basics = Basics(
    name: Option<string>,
    version: Option<int>,
    doc: Option<string>,
    parameters: Option<map<string, string>>)

  const NoBasics := Basics(None, None, None, None)

  /**
   * A schema descriptor. `defaultValue` is Null when the schema has no default;
   * `fields` is the ordered field list of a STRUCT schema and empty otherwise.
   */
  datatype Schema = Schema(kind: Kind, optional: bool, defaultValue: Value, basics: Basics, fields: seq<Field>)

  datatype Field = Field(name: string, schema: Schema)

  /**
   * A Java object in a record. `MapValue` is a schemaless java.util.Map, `StructValue`
   * a Struct; `Other` stands for every other object (numbers, booleans, lists), which
   * the transform only passes along.
   */
  datatype Value =
    | Null
    | Str(s: string)
    | Bytes(bytes: seq<JByte>)
    | MapValue(entries: map<string, Value>)
    | StructValue(st: Struct)
    | Other(id: int)

  /** A Struct: its schema and one value slot per schema field, by field index. */
  datatype Struct = Struct(schema: Schema, values: seq<Value>)

  /** Schema.OPTIONAL_BYTES_SCHEMA */
  const OptionalBytesSchema := Schema(BytesType, true, Null, NoBasics, [])

  predicate DistinctNames(fs: seq<Field>)
  {
    forall i, j :: 0 <= i < j < |fs| ==> fs[i].name != fs[j].name
  }

  /**
   * What a Java Struct guarantees by construction: a STRUCT schema whose field names
   * are distinct (SchemaBuilder.field refuses duplicates) and one slot per field.
   */
  predicate Conforms(st: Struct)
  {
    && st.schema.kind == StructType
    && |st.values| == |st.schema.fields|
    && DistinctNames(st.schema.fields)
  }

  /** Struct.get(field): the slot's value, or the field schema's default when the slot is null. */
  function FieldValue(st: Struct, i: nat): Value
    requires Conforms(st) && i < |st.values|
  {
    if st.values[i].Null? then st.schema.fields[i].schema.defaultValue else st.values[i]
  }

  /** The parts of a ConnectRecord that newRecord receives. */
  datatype Record = Record(
    topic: string,
    kafkaPartition: Option<int>,
    keySchema: Option<Schema>,
    key: Value,
    valueSchema: Option<Schema>,
    value: Value,
    timestamp: Option<int>)

  /** Which variant: BytesConverter.Key rewrites the key, BytesConverter.Value the value. */
  datatype Half = KeyHalf | ValueHalf

  /** operatingSchema: the key schema or the value schema. */
  function OperatingSchema(half: Half, record: Record): Option<Schema>
  {
    if half == KeyHalf then record.keySchema else record.valueSchema
  }

  /** operatingValue: the key or the value. */
  function OperatingValue(half: Half, record: Record): Value
  {
    if half == KeyHalf then record.key else record.value
  }

  /** The schema and value of the half a variant leaves alone. */
  function OtherSchema(half: Half, record: Record): Option<Schema>
  {
    if half == KeyHalf then record.valueSchema else record.keySchema
  }

  function OtherValue(half: Half, record: Record): Value
  {
    if half == KeyHalf then record.value else record.key
  }

  /** `out` differs from `record` at most in the operated half. */
  predicate OnlyHalfChanged(half: Half, record: Record, out: Record)
  {
    && out.topic == record.topic
    && out.kafkaPartition == record.kafkaPartition
    && out.timestamp == record.timestamp
    && OtherSchema(half, out) == OtherSchema(half, record)
    && OtherValue(half, out) == OtherValue(half, record)
  }

  /**
   * newRecord: a copy of `record` with the operated half replaced by the given
   * schema and value; topic, partition, timestamp and the other half are kept.
   */
  function NewRecord(half: Half, record: Record, updatedSchema: Option<Schema>, updatedValue: Value): (out: Record)
    ensures OperatingSchema(half, out) == updatedSchema
    ensures OperatingValue(half, out) == updatedValue
    ensures OnlyHalfChanged(half, record, out)
  {
    match half
    case KeyHalf =>
      Record(record.topic, record.kafkaPartition, updatedSchema, updatedValue,
             record.valueSchema, record.value, record.timestamp)
    case ValueHalf =>
      Record(record.topic, record.kafkaPartition, record.keySchema, record.key,
             updatedSchema, updatedValue, record.timestamp)
  }

  /** Two records that agree on everything but the operated half, and on that half, are equal. */
  lemma RecordDeterminedByHalves(half: Half, a: Record, b: Record)
    requires OnlyHalfChanged(half, a, b)
    requires OperatingSchema(half, a) == OperatingSchema(half, b)
    requires OperatingValue(half, a) == OperatingValue(half, b)
    ensures a == b
  {
  }
}
