# BytesConverter: a verified Dafny model

This project models `BytesConverter`, a Kafka Connect single message transform.
It takes one named field of a record's key (the `Key` variant) or value (the
`Value` variant) and replaces the field's string with the bytes of that string
in a target charset. The source charset defaults to ISO-8859-1 and the target
charset to IBM285, EBCDIC code page 285. The project also models
`StringConverter.bytesToHex`, a byte-array-to-hex formatter.

How a record is handled:

- **Dispatch.** `apply` takes the schemaless path when the operating schema
  (the key schema or the value schema) is null, and the schema path otherwise.
- **Schemaless path.** The operand must be a `Map`. The map is copied, and the
  configured field is replaced only when it holds a `String`. The result
  record has no schema for that half.
- **Schema path.** The operand must be a `Struct`. The transform looks up the
  struct's schema in a 16-entry LRU cache. On a miss, `makeUpdatedSchema`
  derives the schema and the result is cached. The derived schema keeps the
  input's name, version, doc and parameters. It keeps every field, in order,
  and retypes only the configured field as optional bytes. A new struct is
  then filled field by field: the configured field's string is converted, and
  every other field's value is copied.

Modules, one file each:

- `wrappers.dfy`: `Option` and `Result`.
- `charsets.dfy`: the charset registry and `convertString`.
- `connect_data.dfy`: schemas, fields, values, structs and records, plus the
  Key/Value halves (`operatingSchema`, `operatingValue`, `newRecord`).
- `schema_cache.dfy`: the LRU cache as a class, with recency order and
  eviction of the eldest entry.
- `record_rewrite.dfy`: what one `apply` call computes, as pure functions,
  with lemmas about them.
- `bytes_converter.dfy`: the `BytesConverter` class. Its methods are proved to
  compute those functions.
- `string_converter.dfy`: `bytesToHex`.

The main result is `Transforms.BytesConverter.Apply`. For any contents of the
cache, its result equals the pure function `Transformed`. This holds because
every cached entry maps a schema to its derivation, an invariant that
`Configure` sets up and every `Apply` preserves. The cache therefore changes
only how much work is done. A ghost counter of `makeUpdatedSchema` runs shows
that a cache hit skips the derivation.

Inputs the model cannot see are parameters:

- The runtime's charset registry is a map from each supported charset name to
  its encoder. `Supported` means the name is in the map.
- The Connect record is reduced to the parts `newRecord` receives.

Details of the code the model follows, where a reader might expect otherwise:

- `field.name` has default `null` in `CONFIG_DEF`
  (src/main/java/io/confluent/csta/byteconv/transforms/BytesConverter.java:37),
  so a missing `field.name` is not a configuration error. The field name is
  then `None`: no field matches, nothing is converted, and on the schema path
  the struct is still rebuilt under a derived schema equal in fields to the
  input.
- The derived schema is built by `SchemaBuilder.struct()`, so it is required
  and has no default value, whatever the input's optionality and default.
  Only name, version, doc and parameters are copied.
- On the schema path, a null target field fails with a null-pointer error and
  a non-String target field fails with a class-cast error. The schemaless
  path leaves both unchanged.
- `Struct.get` returns the field schema's default for a null slot. A copied
  field that is null and has a default therefore arrives as its default.
- The cache is written before the struct is rebuilt. A record whose
  conversion fails still leaves its derived schema cached.
- Eviction is least-recently-used. A schema evicted from the cache is derived
  again, so "once per distinct schema" holds only while it stays cached.

## Model

| member | source | states |
|---|---|---|
| `Charsets.ConvertString` | src/main/java/io/confluent/csta/byteconv/transforms/StringToBytesEncondeConverter.java:11-21 | succeeds exactly when both charsets are supported, and then returns the string's bytes in the target charset; otherwise fails naming the source charset if that one is unsupported, else the target |
| `Charsets.SourceCharsetDoesNotAffectBytes` | src/main/java/io/confluent/csta/byteconv/transforms/StringToBytesEncondeConverter.java:13-19 | any two supported source charsets give the same conversion result |
| `Charsets.SameCharsetIsPlainEncoding` | src/main/java/io/confluent/csta/byteconv/transforms/StringToBytesEncondeConverter.java:16-19 | with source equal to target, the conversion is plain encoding under that charset |
| `ConnectData.NewRecord` | src/main/java/io/confluent/csta/byteconv/transforms/BytesConverter.java:157-193 | Key variant replaces only key schema and key, Value variant only value schema and value; reading the operated half back gives the new schema and value; topic, partition, timestamp and the other half are unchanged |
| `ConnectData.RecordDeterminedByHalves` | src/main/java/io/confluent/csta/byteconv/transforms/BytesConverter.java:170-190 | a record is determined by its operated half together with everything `newRecord` keeps |
| `RecordRewrite.SchemalessUpdate` | src/main/java/io/confluent/csta/byteconv/transforms/BytesConverter.java:76-86 | same key set as the input; every other key keeps its value; the field becomes its string's target-charset bytes only when it held a String, and is otherwise unchanged or still absent; fails exactly when the field holds a String and a charset is unsupported |
| `RecordRewrite.ConvertField` | src/main/java/io/confluent/csta/byteconv/transforms/BytesConverter.java:104-111 | a String field value becomes its target-charset bytes; a null value fails with a null-pointer error; any other non-String fails with a class-cast error; an unsupported charset fails with a conversion error |
| `RecordRewrite.DeriveFields` | src/main/java/io/confluent/csta/byteconv/transforms/BytesConverter.java:134-140 | same length as the input field list; field i is the input's field i, retyped as optional bytes exactly when its name is the configured field |
| `RecordRewrite.DeriveWithoutTarget` | src/main/java/io/confluent/csta/byteconv/transforms/BytesConverter.java:134-140 | if no field is named the configured field, the derived field list equals the input's |
| `RecordRewrite.DeriveIdempotent` | src/main/java/io/confluent/csta/byteconv/transforms/BytesConverter.java:131-149 | deriving the derived schema again yields the same schema |
| `RecordRewrite.DeriveKeepsNames` | src/main/java/io/confluent/csta/byteconv/transforms/BytesConverter.java:134-140 | the derived schema has the input's field names in the same order, and distinct names stay distinct |
| `RecordRewrite.RebuildSlotsMeaning` | src/main/java/io/confluent/csta/byteconv/transforms/BytesConverter.java:102-115 | the field loop succeeds exactly when every slot's computation does; slot i then holds slot i's value; a failure is some slot's own error |
| `RecordRewrite.RebuildSchema` | src/main/java/io/confluent/csta/byteconv/transforms/BytesConverter.java:100 | the rebuilt struct carries the derived schema and has one slot per field of it |
| `RecordRewrite.RebuildValues` | src/main/java/io/confluent/csta/byteconv/transforms/BytesConverter.java:102-115 | every field other than the configured one keeps the value `Struct.get` reports; the configured field held a String and now holds its target-charset bytes |
| `RecordRewrite.RebuildFails` | src/main/java/io/confluent/csta/byteconv/transforms/BytesConverter.java:103-111 | the rebuild fails exactly when the configured field is present and its conversion fails, and then with that conversion's error |
| `RecordRewrite.TransformedRecord` | src/main/java/io/confluent/csta/byteconv/transforms/BytesConverter.java:67-118 | a successful result differs from the input only in the operated half; schemaless path: no schema and the updated map; schema path: the derived schema, and the rebuilt struct under it |
| `RecordRewrite.UnsupportedCharsetFails` | src/main/java/io/confluent/csta/byteconv/transforms/BytesConverter.java:79-111 | when there is a String to convert and the source or target charset is unsupported, the whole transform fails with a conversion error naming that charset, on either path |
| `SchemaCache.LruCache.constructor` | src/main/java/io/confluent/csta/byteconv/transforms/BytesConverter.java:62 | a new cache is empty and has the given capacity |
| `SchemaCache.LruCache.Bounded` | src/main/java/io/confluent/csta/byteconv/transforms/BytesConverter.java:62 | a valid cache never holds more entries than its capacity |
| `SchemaCache.LruCache.Get` | src/main/java/io/confluent/csta/byteconv/transforms/BytesConverter.java:94 | returns the cached value or none; entries are unchanged; a hit becomes the most recently used key |
| `SchemaCache.LruCache.Put` | src/main/java/io/confluent/csta/byteconv/transforms/BytesConverter.java:97 | stores the value as the most recently used entry and evicts the least recently used entry once over capacity; no other entry changes |
| `Transforms.BytesConverter.constructor` | src/main/java/io/confluent/csta/byteconv/transforms/BytesConverter.java:49-53 | an unconfigured Key or Value transform: no cache and no field name |
| `Transforms.BytesConverter.Configure` | src/main/java/io/confluent/csta/byteconv/transforms/BytesConverter.java:56-63 | field name from `field.name`, or null if absent; charsets from their options, else ISO-8859-1 and IBM285; a fresh, empty cache of capacity 16 |
| `Transforms.BytesConverter.Close` | src/main/java/io/confluent/csta/byteconv/transforms/BytesConverter.java:127-129 | drops the cache |
| `Transforms.BytesConverter.Apply` | src/main/java/io/confluent/csta/byteconv/transforms/BytesConverter.java:67-73 | result equals `Transformed`, schemaless exactly when the operating schema is null, whatever the cache holds; every cache entry stays a schema mapped to its derivation; after the schema path the struct's schema maps to its derivation; a hit leaves entries unchanged and skips derivation, a miss derives once |
| `Transforms.BytesConverter.ApplySchemaless` | src/main/java/io/confluent/csta/byteconv/transforms/BytesConverter.java:75-89 | computes the schemaless result: the updated map with a null schema, or an error for a non-map operand or a failed conversion |
| `Transforms.BytesConverter.ApplyWithSchema` | src/main/java/io/confluent/csta/byteconv/transforms/BytesConverter.java:91-119 | computes the schema-path result with the derived schema; looks the schema up in the cache, deriving and storing on a miss, before the rebuild; a non-Struct operand fails and leaves the cache unchanged |
| `Transforms.BytesConverter.RebuildStruct` | src/main/java/io/confluent/csta/byteconv/transforms/BytesConverter.java:100-115 | the field loop fills a new struct exactly as `Rebuild` specifies, stopping at the first failed conversion |
| `Transforms.BytesConverter.MakeUpdatedSchema` | src/main/java/io/confluent/csta/byteconv/transforms/BytesConverter.java:131-149 | a STRUCT schema with the input's basics and the input's field names in order; the configured field has type optional bytes and every other field keeps its schema |
| `Transforms.FailureIsFinal` | src/main/java/io/confluent/csta/byteconv/transforms/BytesConverter.java:102-111 | once a conversion in the field loop fails, the rest of the loop does not change the outcome |
| `Transforms.TransformSameSchemaTwice` | src/main/java/io/confluent/csta/byteconv/transforms/BytesConverter.java:94-98 | two records whose structs share a schema cause at most one derivation |
| `StringConverter.HexPair` | src/main/java/io/confluent/csta/byteconv/transforms/StringConverter.java:22 | exactly two upper-case hex digits whose value is the byte's unsigned value |
| `StringConverter.RenderedAppend` | src/main/java/io/confluent/csta/byteconv/transforms/StringConverter.java:21-23 | each loop step appends one byte's pair and a space to the builder |
| `StringConverter.RenderedIsJoinedWithSpace` | src/main/java/io/confluent/csta/byteconv/transforms/StringConverter.java:21-23 | for a non-empty array, the builder holds the space-joined pairs plus one trailing space |
| `StringConverter.TrimmedRendered` | src/main/java/io/confluent/csta/byteconv/transforms/StringConverter.java:24 | `trim` removes exactly that trailing space |
| `StringConverter.JoinedShape` | src/main/java/io/confluent/csta/byteconv/transforms/StringConverter.java:21-24 | length 3n - 1 for n >= 1 bytes and 0 for none; characters 3i and 3i+1 are byte i's pair; character 3i+2 is a space between pairs; only hex digits and spaces; no space at either end |
| `StringConverter.ParseJoined` | src/main/java/io/confluent/csta/byteconv/transforms/StringConverter.java:21-24 | reading the joined text back as space-separated hex pairs recovers the bytes |
| `StringConverter.BytesToHex` | src/main/java/io/confluent/csta/byteconv/transforms/StringConverter.java:19-25 | empty for no bytes, otherwise 3n - 1 characters; pairs at 3i, single spaces between them; only hex digits and spaces; no leading or trailing space; parses back to the input bytes |

## Left out

- Charset tables: ISO-8859-1, IBM285 and every other code table are not modelled. The registry is a parameter, so every lemma holds for any set of encoders.
- Logging: the `log.info` and `log.error` calls, including the source-charset bytes that `convertString` computes only for its log line, are not modelled.
- `SynchronizedCache`: thread safety, and the benign race where two threads derive the same schema on a simultaneous miss, are not modelled. The model is sequential.
- `ConfigDef` and `SimpleConfig` parsing is reduced to a lookup with defaults. Type checking of option values and the trimming of string values are not modelled.
- `config()`, which only returns `CONFIG_DEF`, is not modelled.
- `Transforms.BytesConverter.Apply` requires a configured transform that has not been closed. In Java, calling `apply` after `close` still works on the schemaless path and throws a null-pointer exception on the schema path. That behaviour is not modelled.
- `Struct.put` checks each value against its field schema. That check is not modelled. An input struct holding null in a required field without a default is assumed not to occur.
- The element, key and value schemas of ARRAY and MAP schemas are not modelled. Values other than strings, bytes, maps and structs are opaque (`Other`).
- A Java `HashMap` may contain a null key. The model's maps have string keys only.
- Headers, and the source partition and offset of a `SourceRecord`, are not modelled. These are other record parts that `newRecord` carries over.
- `StringConverter.main` is console output only. `AvroConsumer` is a consumer poll loop with network I/O. Neither is part of this model.
