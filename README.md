# endee-java-client: request-side validation and encoding, in Dafny

This project models the request-side validation and encoding layer of the
Endee Java client. Endee is a vector database. The client checks and encodes
requests and decodes responses before and after its HTTP calls. The model
covers:

- **Identifier validation** (`ValidationUtils`): the index-name rule and the
  id check of an upsert batch.
- **`CryptoUtils`**:
  - the two-hex-digit key checksum;
  - hex decoding of keys;
  - PKCS#7 padding, as in section 6.3 of RFC 5652, with the permissive unpad
    of the code;
  - the `IV || ciphertext` framing around AES-256-CBC;
  - the metadata codec `jsonZip` / `jsonUnzip`, with its lenient decoding.
- **The MessagePack tuple layouts** (`MessagePackUtils`):
  - the upsert batch (5- or 7-element tuples);
  - the query-result tuples (5 elements, or 6 with the vector);
  - the point-lookup tuple;
  - the coercion of an integer or float encoding to a double.
- **`Index`**:
  - cosine normalisation;
  - upsert batch limits, sparse/hybrid rules and per-record tuple assembly;
  - query validation and payload assembly;
  - mapping of decoded tuples to `QueryResult` and `VectorInfo`.
- **`Endee`**:
  - auth-token parsing, which rewrites the base URL;
  - `setBaseUrl`;
  - the validation order and payload of `createIndex`.
- **Supporting types**:
  - the `SpaceType` and `Precision` enums and their case-insensitive lookup;
  - the status-code messages of `EndeeApiException`;
  - the three builders (`QueryOptions`, `CreateIndexOptions`, `VectorItem`), whose defaults feed the checks above.

## Layout

One Dafny module per source unit, one file each:

| file | module | models |
|---|---|---|
| `base.dfy` | `Base` | `Option`; the JSON value tree; Java's int-to-decimal-string; ASCII `toLowerCase`/`equalsIgnoreCase` |
| `exceptions.dfy` | `Exceptions` | the exceptions the client throws; `Result`; `EndeeApiException.raiseException` |
| `foreign.dfy` | `Foreign` | the library calls whose insides are not modelled, with the laws the round-trip lemmas assume of them |
| `validation_utils.dfy` | `ValidationUtils` | `ValidationUtils` |
| `types.dfy` | `Types` | `SpaceType`, `Precision`, `QueryOptions`, `CreateIndexOptions`, `VectorItem` and their builders; the result beans |
| `crypto_utils.dfy` | `CryptoUtils` | `CryptoUtils` and `JsonUtils.fromJson` |
| `message_pack_utils.dfy` | `MessagePackUtils` | `MessagePackUtils`, over a stream of MessagePack tokens |
| `index.dfy` | `IndexClient` | `Index` |
| `endee.dfy` | `EndeeClient` | `Endee` |

### Library calls

The library calls are fields of a record, `Foreign.Lib`, passed as a
parameter:

- `Math.sqrt`;
- Jackson's `writeValueAsString` / `readValue`;
- UTF-8 conversion;
- `Deflater` / `Inflater`;
- the `AES/CBC/NoPadding` cipher.

The predicates `SqrtLaw`, `JsonLaw`, `Utf8Law`, `ZlibLaw` and `AesLaw` state
what the round-trip lemmas assume of them. The JSON round trip is assumed one
value at a time (`JsonRoundTrips(lib, v)`), for the values a lemma writes: no
writer can be injective on every `Json`, because a `JNum` holds any real.
`JsonLawsSatisfiable` shows the JSON hypotheses can hold together. No lemma assumes anything about
these calls beyond its own hypotheses.

### MessagePack

MessagePack data is a sequence of `Token`s: an array header, string, binary,
int, float and so on, in the order msgpack-core writes them. The packer and
the unpacker are classes whose one field is the stream written so far or the
stream still to read.

### Mutating code

Code that mutates state is written as methods.

- **Setters:** the builders, the constructors and `setBaseUrl` state the new
  field values directly, and say which fields they may change.
- **Loops and array code:** each of these methods is proved equal to a
  specification function, and the properties are lemmas about that function.
  This covers:
  - the loops of `validateVectorIds`, `normalizeVector`, `upsert`, `query`,
    `hexToBytes` and the unpacker;
  - the array copies of `pkcs7Pad`, `pkcs7Unpad`, `aesEncrypt` and
    `aesDecrypt`.

### Request bodies and responses

- **Requests:** `createIndex`, `upsert` and `query` return the request body
  they would send: a JSON map, or a token stream.
- **Responses:** `query` and `getVector` take the response body as a
  parameter.

### Where the documentation and the code disagree

The model follows the code in each case:

- **`topK` default:** the default is 0, not 10 (`QueryOptions.java:23`).
- **`ef`:** it is only bounded above, at 1024. Nothing rejects `ef <= 0` (`Index.java:219`).
- **Compression:** metadata goes through `new Deflater()` / `new Inflater()`, which produce the zlib format of RFC 1950, not raw DEFLATE.
- **Query filter:** it is attached whenever it is non-null, including an empty list (`Index.java:257`).
- **`normalizeVector` identity cases:** it returns its input with norm 1.0 on a non-cosine index and for a zero vector. On a cosine index a unit vector also comes back unchanged, with norm 1 (`NormalizedIdentity`).
- **`createIndex` dimension:** it does not reject a zero or negative dimension. It checks only `dimension > 10000` (`Endee.java:113`).
- **`createIndex` space type:** the space-type check can never fail, because every `SpaceType` constant's value is lower-case and in the list (`SpaceTypeAlwaysKnown`).
- **Token `"a:b:"`:** it keeps its form and gets the default URL, because `split(":")` drops the trailing empty field (`TokenWithEmptyRegion`).

## Model

Source paths are relative to the repository root.

| member | source | states |
|---|---|---|
| Exceptions.RaiseException | src/main/java/io/endee/client/exception/EndeeApiException.java:28-39 | always an `EndeeApiException` carrying the status code and the error body verbatim; 400, 401, 403, 404, 409 and 500 give their fixed prefix followed by the body, every other code gives "API Error (code): body" |
| Exceptions.RaiseExceptionMessage | src/main/java/io/endee/client/exception/EndeeApiException.java:30-35 | two known codes that give the same message for the same body are the same code |
| Exceptions.UnknownStatusCodeReadable | src/main/java/io/endee/client/exception/EndeeApiException.java:36 | for an unknown non-negative code the message is "API Error (", then decimal digits that read back as the code, then "): " and the body |
| Base.NatToStringRoundTrip | src/main/java/io/endee/client/exception/EndeeApiException.java:36 | the decimal rendering of a status code is non-empty, all digits, and reads back as the code |
| Base.ToLower | src/main/java/io/endee/client/Endee.java:120 | `toLowerCase` keeps the length, leaves no upper-case letter, maps each upper-case letter to its lower-case partner and keeps every other character |
| Base.ToLowerIdempotent | src/main/java/io/endee/client/Endee.java:120 | lower-casing an already lower-cased value changes nothing |
| Base.EqualsIgnoreCaseIffSameLower | src/main/java/io/endee/client/types/SpaceType.java:23 | `equalsIgnoreCase` holds exactly when both strings lower-case to the same string |
| ValidationUtils.IsValidIndexName | src/main/java/io/endee/client/util/ValidationUtils.java:13-30 | a name is valid iff it is non-null, has 1 to 47 characters, and every character is an ASCII letter, digit or underscore |
| ValidationUtils.MatchesNamePatternIff | src/main/java/io/endee/client/util/ValidationUtils.java:13 | the pattern `^[a-zA-Z0-9_]+$` matches iff the string is non-empty and made of name characters only |
| ValidationUtils.ValidateVectorIds | src/main/java/io/endee/client/util/ValidationUtils.java:35-53 | the loop with its seen/duplicate sets gives the empty-id error for any null or empty id, otherwise the duplicate error listing the repeated ids, otherwise success |
| ValidationUtils.DuplicatesSnoc | src/main/java/io/endee/client/util/ValidationUtils.java:43-47 | one more id adds it to the duplicates exactly when it was already seen |
| ValidationUtils.DuplicatesAreRepeats | src/main/java/io/endee/client/util/ValidationUtils.java:43-51 | an id is reported as a duplicate iff it occurs at least twice, and it is reported once |
| ValidationUtils.ValidateSucceedsIff | src/main/java/io/endee/client/util/ValidationUtils.java:35-53 | validation succeeds iff every id is present and non-empty and the ids are pairwise distinct |
| ValidationUtils.EmptyIdWins | src/main/java/io/endee/client/util/ValidationUtils.java:39-42 | an empty or null id anywhere in the list gives the empty-id error, whatever duplicates there are |
| Types.FindIgnoringCase | src/main/java/io/endee/client/types/SpaceType.java:21-28 | the early-return search finds a constant whose value equals the argument ignoring case, and finds nothing only when no constant matches |
| Types.FindIgnoringCaseFinds | src/main/java/io/endee/client/types/SpaceType.java:22-26 | with distinct lower-case wire strings, any casing of a constant's value finds that constant |
| Types.SpaceTypeConstants | src/main/java/io/endee/client/types/SpaceType.java:7-9 | exactly three constants with the distinct lower-case values "cosine", "l2", "ip" |
| Types.SpaceTypeRoundTrip | src/main/java/io/endee/client/types/SpaceType.java:17-28 | `fromValue(t.getValue()) == t` for every constant |
| Types.SpaceTypeFromValueIgnoresCase | src/main/java/io/endee/client/types/SpaceType.java:23-25 | any casing of a constant's value maps to that constant |
| Types.SpaceTypeFromValueUnknown | src/main/java/io/endee/client/types/SpaceType.java:21-28 | `fromValue` succeeds iff some value matches ignoring case, and otherwise throws "Unknown space type: " + value |
| Types.PrecisionConstants | src/main/java/io/endee/client/types/Precision.java:7-11 | exactly five constants with the distinct lower-case values "binary", "int8d", "int16d", "float32", "float16" |
| Types.PrecisionRoundTrip | src/main/java/io/endee/client/types/Precision.java:19-30 | `fromValue(p.getValue()) == p` for every constant |
| Types.PrecisionFromValueIgnoresCase | src/main/java/io/endee/client/types/Precision.java:25 | any casing of a constant's value maps to that constant |
| Types.PrecisionFromValueUnknown | src/main/java/io/endee/client/types/Precision.java:23-30 | `fromValue` succeeds iff some value matches ignoring case, and otherwise throws "Unknown precision: " + value |
| Types.QueryOptions.constructor | src/main/java/io/endee/client/types/QueryOptions.java:22-30 | a new options object has topK 0, ef 128, includeVectors false and no vector, filter or sparse arrays |
| Types.QueryOptionsBuilder.constructor | src/main/java/io/endee/client/types/QueryOptions.java:45 | the builder holds one fresh options object with those defaults |
| Types.QueryOptionsBuilder.Vector | src/main/java/io/endee/client/types/QueryOptions.java:47-50 | sets only the vector field of the shared options and returns the same builder |
| Types.QueryOptionsBuilder.TopK | src/main/java/io/endee/client/types/QueryOptions.java:52-55 | sets only topK and returns the same builder |
| Types.QueryOptionsBuilder.Filter | src/main/java/io/endee/client/types/QueryOptions.java:64-67 | sets only the filter and returns the same builder |
| Types.QueryOptionsBuilder.Ef | src/main/java/io/endee/client/types/QueryOptions.java:69-72 | sets only ef and returns the same builder |
| Types.QueryOptionsBuilder.IncludeVectors | src/main/java/io/endee/client/types/QueryOptions.java:74-77 | sets only includeVectors and returns the same builder |
| Types.QueryOptionsBuilder.SparseIndices | src/main/java/io/endee/client/types/QueryOptions.java:79-82 | sets only sparseIndices and returns the same builder |
| Types.QueryOptionsBuilder.SparseValues | src/main/java/io/endee/client/types/QueryOptions.java:84-87 | sets only sparseValues and returns the same builder |
| Types.QueryOptionsBuilder.Build | src/main/java/io/endee/client/types/QueryOptions.java:89-91 | hands out the builder's one shared options object, not a copy |
| Types.CreateIndexOptions.constructor | src/main/java/io/endee/client/types/CreateIndexOptions.java:7-19 | name and dimension as given (constant fields); spaceType COSINE, m 16, efCon 128, precision INT8D, no version, no sparse dimension |
| Types.CreateIndexOptionsBuilder.constructor | src/main/java/io/endee/client/types/CreateIndexOptions.java:37-39 | the builder holds one fresh options object with those defaults |
| Types.CreateIndexOptionsBuilder.SpaceType | src/main/java/io/endee/client/types/CreateIndexOptions.java:41-44 | sets only the space type and returns the same builder |
| Types.CreateIndexOptionsBuilder.M | src/main/java/io/endee/client/types/CreateIndexOptions.java:46-49 | sets only m and returns the same builder |
| Types.CreateIndexOptionsBuilder.EfCon | src/main/java/io/endee/client/types/CreateIndexOptions.java:51-54 | sets only efCon and returns the same builder |
| Types.CreateIndexOptionsBuilder.Precision | src/main/java/io/endee/client/types/CreateIndexOptions.java:56-59 | sets only the precision and returns the same builder |
| Types.CreateIndexOptionsBuilder.Version | src/main/java/io/endee/client/types/CreateIndexOptions.java:61-64 | sets only the version and returns the same builder |
| Types.CreateIndexOptionsBuilder.SparseDimension | src/main/java/io/endee/client/types/CreateIndexOptions.java:66-69 | sets only the sparse dimension and returns the same builder |
| Types.CreateIndexOptionsBuilder.Build | src/main/java/io/endee/client/types/CreateIndexOptions.java:71-73 | hands out the builder's one options object |
| Types.VectorItem.constructor | src/main/java/io/endee/client/types/VectorItem.java:9-19 | id and vector as given (constant fields); meta, filter and both sparse arrays absent |
| Types.VectorItemBuilder.constructor | src/main/java/io/endee/client/types/VectorItem.java:35-37 | the builder holds one fresh item with those fields |
| Types.VectorItemBuilder.Meta | src/main/java/io/endee/client/types/VectorItem.java:39-42 | sets only meta and returns the same builder |
| Types.VectorItemBuilder.Filter | src/main/java/io/endee/client/types/VectorItem.java:44-47 | sets only the filter and returns the same builder |
| Types.VectorItemBuilder.SparseIndices | src/main/java/io/endee/client/types/VectorItem.java:49-52 | sets only sparseIndices and returns the same builder |
| Types.VectorItemBuilder.SparseValues | src/main/java/io/endee/client/types/VectorItem.java:54-57 | sets only sparseValues and returns the same builder |
| Types.VectorItemBuilder.Build | src/main/java/io/endee/client/types/VectorItem.java:59-61 | hands out the builder's one item |
| CryptoUtils.Digit16 | src/main/java/io/endee/client/util/CryptoUtils.java:262-263 | `Character.digit(c, 16)` is a digit value 0..15 or -1 |
| CryptoUtils.GetChecksum | src/main/java/io/endee/client/util/CryptoUtils.java:34-44 | -1 for a null key or one shorter than 2; otherwise the base-16 value of the last two characters (16·hi+lo for two hex digits, ∓lo after a sign), or -1 when they do not parse |
| CryptoUtils.ParseInt16TwoChars | src/main/java/io/endee/client/util/CryptoUtils.java:40 | `Integer.parseInt(s, 16)` on two characters: two hex digits, or a sign and one hex digit, else a NumberFormatException |
| CryptoUtils.ChecksumOfHexSuffix | src/main/java/io/endee/client/util/CryptoUtils.java:34-44 | a key ending in the two hex digits of a byte has that byte as its checksum |
| CryptoUtils.HexDecoded | src/main/java/io/endee/client/util/CryptoUtils.java:258-266 | decoding succeeds iff the length is even (odd fails reading past the end); byte i is 16·digit(hex[2i]) + digit(hex[2i+1]) truncated to 8 bits |
| CryptoUtils.HexToBytes | src/main/java/io/endee/client/util/CryptoUtils.java:258-266 | the loop filling the array yields exactly the decoded bytes, or the same error |
| CryptoUtils.HexByteRoundTrip | src/main/java/io/endee/client/util/CryptoUtils.java:262-263 | the pair of hex digits of a byte decodes to that byte |
| CryptoUtils.HexRoundTrip | src/main/java/io/endee/client/util/CryptoUtils.java:258-266 | hex-decoding the hex text of any byte sequence gives that sequence back |
| CryptoUtils.AnyKeyOf64CharsDecodesTo32Bytes | src/main/java/io/endee/client/util/CryptoUtils.java:114-118 | a key decodes to exactly 32 bytes iff it has 64 characters |
| CryptoUtils.ArrayCopy | src/main/java/io/endee/client/util/CryptoUtils.java:137-138 | `System.arraycopy` replaces exactly the destination range by the source range and leaves the rest |
| CryptoUtils.Fill | src/main/java/io/endee/client/util/CryptoUtils.java:237 | `Arrays.fill` sets exactly the range to the value and leaves the rest |
| CryptoUtils.CopyOfRange | src/main/java/io/endee/client/util/CryptoUtils.java:252 | `Arrays.copyOfRange` gives a fresh array holding that slice |
| CryptoUtils.PadLength | src/main/java/io/endee/client/util/CryptoUtils.java:234 | the pad length is between 1 and 16 and completes the input to whole blocks |
| CryptoUtils.Padded | src/main/java/io/endee/client/util/CryptoUtils.java:233-239 | the padded data is whole 16-byte blocks, 1 to 16 bytes longer, keeps the input as a prefix, and every added byte equals the number of added bytes |
| CryptoUtils.Pkcs7Pad | src/main/java/io/endee/client/util/CryptoUtils.java:233-239 | the copy-then-fill yields exactly the padded data in a fresh array |
| CryptoUtils.Unpadded | src/main/java/io/endee/client/util/CryptoUtils.java:244-253 | the result is a prefix of the input at most 16 bytes shorter, and when shorter it drops exactly last-byte-many bytes |
| CryptoUtils.Pkcs7Unpad | src/main/java/io/endee/client/util/CryptoUtils.java:244-253 | returns the input array itself or a fresh copy, holding the unpadded data |
| CryptoUtils.UnpadPad | src/main/java/io/endee/client/util/CryptoUtils.java:233-253 | unpadding undoes padding for every byte sequence |
| CryptoUtils.UnpadCases | src/main/java/io/endee/client/util/CryptoUtils.java:244-253 | empty input, or a last byte above 16 or above the length, comes back unchanged; otherwise last-byte-many bytes are dropped |
| CryptoUtils.UnpadIgnoresOtherPaddingBytes | src/main/java/io/endee/client/util/CryptoUtils.java:248-252 | only the last byte is inspected: a final pair (junk, 2) is stripped whatever junk is |
| CryptoUtils.AesEncrypt | src/main/java/io/endee/client/util/CryptoUtils.java:112-146 | the method's result and error are those of the specification: null or odd key gives "AES encryption failed", a key not of 32 bytes gives the key-size error, otherwise IV then the cipher of the padded data |
| CryptoUtils.AesEncryptLayout | src/main/java/io/endee/client/util/CryptoUtils.java:121-138 | with a 64-character key the output starts with the 16-byte IV and is 16 + padded length long |
| CryptoUtils.AesKeyAccepted | src/main/java/io/endee/client/util/CryptoUtils.java:114-118 | encryption succeeds iff the key has 64 characters; an even wrong length gives the key-size error, an odd length the wrapped failure |
| CryptoUtils.AesDecrypt | src/main/java/io/endee/client/util/CryptoUtils.java:155-186 | the method's result and error are those of the specification: key checks, then data shorter than 16 bytes, then decryption of the rest under the first 16 bytes and unpadding |
| CryptoUtils.AesDecryptAccepted | src/main/java/io/endee/client/util/CryptoUtils.java:157-165 | decryption succeeds iff the key has 64 characters and the data is an IV plus whole blocks; the key is checked before the length |
| CryptoUtils.AesRoundTrip | src/main/java/io/endee/client/util/CryptoUtils.java:112-186 | decrypting what `aesEncrypt` produced under the same key gives the data back, whatever the IV |
| CryptoUtils.JsonZip | src/main/java/io/endee/client/util/CryptoUtils.java:52-64 | a null or empty map gives zero bytes (and no key is ever used) |
| CryptoUtils.FromJsonMap | src/main/java/io/endee/client/util/JsonUtils.java:30-36 | `fromJson(json, Map.class)` succeeds iff the text is a JSON object or null, and otherwise throws "Failed to deserialize JSON" |
| CryptoUtils.JsonUnzip | src/main/java/io/endee/client/util/CryptoUtils.java:84-87 | null or empty bytes give the empty map |
| CryptoUtils.JsonRoundTrip | src/main/java/io/endee/client/util/CryptoUtils.java:52-103 | `jsonUnzip(jsonZip(m)) == m` for every map whose JSON text parses back, the empty one included |
| CryptoUtils.JsonEncryptedRoundTrip | src/main/java/io/endee/client/util/CryptoUtils.java:84-103 | compressed then encrypted metadata whose JSON text parses back comes back under the same key |
| CryptoUtils.JsonUnzipBadKey | src/main/java/io/endee/client/util/CryptoUtils.java:92-101 | a non-empty key of the wrong length gives the empty map instead of an exception |
| CryptoUtils.JsonUnzipCorrupt | src/main/java/io/endee/client/util/CryptoUtils.java:96-101 | bytes that do not inflate give the empty map |
| CryptoUtils.JsonUnzipNull | src/main/java/io/endee/client/util/CryptoUtils.java:98 | the only way to get a null map is a stream that inflates to the JSON text null |
| MessagePackUtils.Packer.constructor | src/main/java/io/endee/client/util/MessagePackUtils.java:25 | a new buffer packer has written nothing |
| MessagePackUtils.Packer.PackArrayHeader | src/main/java/io/endee/client/util/MessagePackUtils.java:39 | appends one array header |
| MessagePackUtils.Packer.PackString | src/main/java/io/endee/client/util/MessagePackUtils.java:42 | appends one string |
| MessagePackUtils.Packer.PackBinary | src/main/java/io/endee/client/util/MessagePackUtils.java:45-47 | appends one binary value (header and payload) |
| MessagePackUtils.Packer.PackDouble | src/main/java/io/endee/client/util/MessagePackUtils.java:53 | appends one float64 |
| MessagePackUtils.Packer.PackInt | src/main/java/io/endee/client/util/MessagePackUtils.java:67 | appends one int |
| MessagePackUtils.PackDoubles | src/main/java/io/endee/client/util/MessagePackUtils.java:56-60 | appends a header equal to the length, then every element in order |
| MessagePackUtils.PackInts | src/main/java/io/endee/client/util/MessagePackUtils.java:64-68 | appends a header equal to the length, then every index in order |
| MessagePackUtils.PackVectorTuple | src/main/java/io/endee/client/util/MessagePackUtils.java:38-76 | appends a header equal to the arity (5 or 7), id, meta, filter, norm and vector, then the sparse arrays only for 7 |
| MessagePackUtils.PackVectors | src/main/java/io/endee/client/util/MessagePackUtils.java:24-36 | writes an outer header equal to the batch size, then each tuple in input order |
| MessagePackUtils.ReadUpsertTupleOf | src/main/java/io/endee/client/util/MessagePackUtils.java:38-76 | a written tuple reads back as the same tuple, 5- and 7-element alike |
| MessagePackUtils.ReadUpsertTuplesOf | src/main/java/io/endee/client/util/MessagePackUtils.java:28-30 | the tuples written one after another read back as the same sequence, in order |
| MessagePackUtils.PackVectorsRoundTrip | src/main/java/io/endee/client/util/MessagePackUtils.java:24-76 | reading a packed batch gives the batch back |
| MessagePackUtils.ReadNumber | src/main/java/io/endee/client/util/MessagePackUtils.java:150-163 | a float gives its value, an integer its value as a double, any other kind "Expected numeric value (int/float), got " + its type, an exhausted buffer the buffer error |
| MessagePackUtils.NumberEncodingsAgree | src/main/java/io/endee/client/util/MessagePackUtils.java:153-159 | an integer and a float of the same value read the same, and consume the same |
| MessagePackUtils.Unpacker.constructor | src/main/java/io/endee/client/util/MessagePackUtils.java:84 | the unpacker starts at the beginning of the data |
| MessagePackUtils.Unpacker.UnpackArrayHeader | src/main/java/io/endee/client/util/MessagePackUtils.java:85 | reads and consumes one array header, or fails as the reader does |
| MessagePackUtils.Unpacker.UnpackString | src/main/java/io/endee/client/util/MessagePackUtils.java:92 | reads and consumes one string, or fails as the reader does |
| MessagePackUtils.Unpacker.UnpackBinary | src/main/java/io/endee/client/util/MessagePackUtils.java:93-94 | reads and consumes one binary value, or fails as the reader does |
| MessagePackUtils.Unpacker.UnpackValue | src/main/java/io/endee/client/util/MessagePackUtils.java:151 | reads and consumes the next value, or fails on an exhausted buffer |
| MessagePackUtils.UnpackNumberAsDouble | src/main/java/io/endee/client/util/MessagePackUtils.java:150-163 | consumes one value and returns what the numeric reader specifies |
| MessagePackUtils.UnpackNumbers | src/main/java/io/endee/client/util/MessagePackUtils.java:99-103 | the loop fills the array with exactly the numbers read, or stops with the first error |
| MessagePackUtils.UnpackResultTuple | src/main/java/io/endee/client/util/MessagePackUtils.java:88-105 | reads one result tuple field by field, failing as the specification does |
| MessagePackUtils.UnpackQueryResults | src/main/java/io/endee/client/util/MessagePackUtils.java:81-114 | returns exactly the decoded tuples in order; msgpack's own errors (input ended, wrong value kind) and the index errors pass through unwrapped |
| MessagePackUtils.ReadResultTupleOf | src/main/java/io/endee/client/util/MessagePackUtils.java:88-105 | a well-formed tuple (5 fields, or 6 with the vector) reads back as itself, with either number encoding |
| MessagePackUtils.ReadResultTuplesOf | src/main/java/io/endee/client/util/MessagePackUtils.java:87-108 | consecutive tuples read back as the same list, in order |
| MessagePackUtils.QueryResultsRoundTrip | src/main/java/io/endee/client/util/MessagePackUtils.java:81-114 | an outer header followed by the tuples decodes to exactly those tuples, trailing data ignored |
| MessagePackUtils.IntegerEncodedResult | src/main/java/io/endee/client/util/MessagePackUtils.java:91-96 | similarity and norm sent as integers decode as if sent as floats |
| MessagePackUtils.ShortResultTupleFails | src/main/java/io/endee/client/util/MessagePackUtils.java:88-96 | a tuple header below 5 fails with an index error once its fields are read |
| MessagePackUtils.NonNumericSimilarityFails | src/main/java/io/endee/client/util/MessagePackUtils.java:91 | a string where the similarity belongs fails with the numeric-value error naming STRING |
| MessagePackUtils.TruncatedResultsFail | src/main/java/io/endee/client/util/MessagePackUtils.java:109-111 | data that ends before a promised tuple fails with msgpack's insufficient-buffer error, not the wrapping EndeeException |
| MessagePackUtils.UnpackVector | src/main/java/io/endee/client/util/MessagePackUtils.java:119-141 | returns exactly id, meta, filter, norm and vector as `DecodeVector` reads them; msgpack's errors pass through unwrapped |
| MessagePackUtils.VectorRoundTrip | src/main/java/io/endee/client/util/MessagePackUtils.java:119-135 | `unpackVector` reads back the first five fields of any packed upsert tuple |
| IndexClient.SumSquaresNonNegative | src/main/java/io/endee/client/Index.java:110-113 | the sum of squares is never negative |
| IndexClient.SumSquaresScaled | src/main/java/io/endee/client/Index.java:120-123 | dividing every element by the norm divides the sum of squares by norm² |
| IndexClient.ScaledToUnit | src/main/java/io/endee/client/Index.java:114-125 | dividing by the square root of the sum of squares gives sum of squares 1 |
| IndexClient.FirstOutOfRange | src/main/java/io/endee/client/Index.java:171-177 | no index is reported iff all lie in [0, sparseDimension); a reported one is outside it and is the first such element: every element before it is in range |
| IndexClient.MappedResultsOk | src/main/java/io/endee/client/Index.java:273-300 | mapping succeeds iff every filter string parses, and then gives one result per tuple, in order |
| IndexClient.MappedResultsFields | src/main/java/io/endee/client/Index.java:273-299 | each result has the tuple's id, similarity, norm and unzipped meta, distance 1 − similarity, the vector only with includeVectors and a 6-element tuple, and no filter for "" or "{}" |
| IndexClient.Index.constructor | src/main/java/io/endee/client/Index.java:66-82 | name, token and url as given; count, spaceType, dimension, precision, m and sparseDimension from params, with the defaults for a null params or null field |
| IndexClient.Index.IsHybrid | src/main/java/io/endee/client/Index.java:92-94 | an index is hybrid exactly when index 0 passes upsert's sparse range check; a dense-only index rejects every sparse index |
| IndexClient.Index.NormalizeVector | src/main/java/io/endee/client/Index.java:100-126 | the two loops yield exactly the specified (vector, norm) or the dimension-mismatch error |
| IndexClient.Index.NormalizedReconstructs | src/main/java/io/endee/client/Index.java:100-125 | a normalised vector has the index dimension and times the norm gives the input back |
| IndexClient.Index.NormalizedUnitLength | src/main/java/io/endee/client/Index.java:110-125 | on a cosine index a non-zero vector comes out with sum of squares 1 and a positive norm whose square is the input's sum of squares |
| IndexClient.Index.NormalizedIdentity | src/main/java/io/endee/client/Index.java:100-118 | the input comes back unchanged with norm 1 iff the space is not cosine, or the vector is zero, or already of unit length |
| IndexClient.Index.NormalizedIdempotent | src/main/java/io/endee/client/Index.java:100-126 | normalising a normalised vector changes nothing |
| IndexClient.Index.ItemTupleAccepted | src/main/java/io/endee/client/Index.java:146-187 | a record is accepted iff its vector has the dimension and the sparse rules hold; its tuple has 7 elements on a hybrid index and 5 otherwise, with the normalised vector, zipped meta (empty map for null), filter JSON (empty map for null) and the sparse arrays |
| IndexClient.Index.ItemTuplesOk | src/main/java/io/endee/client/Index.java:146-188 | the loop succeeds iff every record does, giving one tuple per record in input order |
| IndexClient.Index.ValidateSparse | src/main/java/io/endee/client/Index.java:156-178 | the sparse checks in source order: dense-only, both arrays present, equal lengths, then the first out-of-range index |
| IndexClient.Index.CheckSparseIndices | src/main/java/io/endee/client/Index.java:171-177 | the loop finds exactly the first index outside [0, sparseDimension) |
| IndexClient.Index.BuildTuple | src/main/java/io/endee/client/Index.java:147-187 | one loop iteration: the record's tuple or the first error it raises |
| IndexClient.Index.BuildTuples | src/main/java/io/endee/client/Index.java:146-188 | the loop's batch, or the first record's error |
| IndexClient.Index.Upsert | src/main/java/io/endee/client/Index.java:134-190 | over 1000 items fails first, then id validation (null id as ""), then the records; the body is the packed batch |
| IndexClient.Index.UpsertAcceptedIff | src/main/java/io/endee/client/Index.java:134-190 | upsert builds a body iff at most 1000 items, all ids present, non-empty and distinct, and every record has the dimension and obeys the sparse rules |
| IndexClient.Index.UpsertIdsAccepted | src/main/java/io/endee/client/Index.java:139-142 | id validation passes iff all ids are present, non-empty and pairwise distinct |
| IndexClient.Index.ItemTuplesAccepted | src/main/java/io/endee/client/Index.java:146-188 | the record loop succeeds iff every record has the dimension and obeys the sparse rules |
| IndexClient.Index.UpsertSparseRules | src/main/java/io/endee/client/Index.java:156-170 | dense-only index: accepted iff both sparse arrays are empty, else the dense-only error; hybrid: the both-arrays error, then the length error with both counts |
| IndexClient.Index.UpsertPayloadLayout | src/main/java/io/endee/client/Index.java:182-190 | the body is the packed batch of one tuple per record, and it reads back as that batch |
| IndexClient.Index.UpsertThenGetVector | src/main/java/io/endee/client/Index.java:380-394 | `getVector` on the tuple `upsert` packed for a record gives its id, meta, filter (none when empty), norm and normalised vector, given that the meta and filter JSON texts parse back |
| IndexClient.Index.BuildQueryBody | src/main/java/io/endee/client/Index.java:215-259 | the checks and successive puts give exactly the specified payload or error |
| IndexClient.Index.QueryAcceptedIff | src/main/java/io/endee/client/Index.java:216-240 | a payload is built iff 0 ≤ topK ≤ 512, ef ≤ 1024 (no lower bound), a vector or a two-sided sparse pair is given, a sparse pair needs a hybrid index and equal lengths, and a vector has the dimension |
| IndexClient.Index.QueryPayloadShape | src/main/java/io/endee/client/Index.java:242-259 | always k, ef and include_vectors; the normalised vector only with a vector; both sparse arrays only with the pair; the filter JSON whenever the filter is non-null; no other key |
| IndexClient.Index.OneSidedSparseIsIgnored | src/main/java/io/endee/client/Index.java:223-229 | sparse indices with empty values count as no sparse data: without a vector the query fails, with one the indices are not sent |
| IndexClient.Index.MapQueryResults | src/main/java/io/endee/client/Index.java:273-300 | the loop's result list is the specified mapping |
| IndexClient.Index.Query | src/main/java/io/endee/client/Index.java:215-300 | the payload, then the response decoded and mapped |
| IndexClient.Index.QueryResultsMapping | src/main/java/io/endee/client/Index.java:270-299 | a response of well-formed tuples gives one result per tuple in order, with the fields listed for the mapping |
| IndexClient.Index.GetVector | src/main/java/io/endee/client/Index.java:380-394 | decodes the response tuple and maps it to a VectorInfo (filter parsed unless "" or "{}") |
| IndexClient.Index.GetVectorOfPacked | src/main/java/io/endee/client/Index.java:380-394 | on any tuple `packVectorTuple` wrote, `getVector` fails only with the deserialisation error of a filter that is not a JSON object or null; otherwise it gives back the stored id, norm and vector, the unzipped meta, and no filter for "" or "{}" |
| EndeeClient.DropTrailingEmpty | src/main/java/io/endee/client/Endee.java:77 | `split` keeps a prefix of the fields, removes only empty ones, and leaves none empty at the end |
| EndeeClient.Split | src/main/java/io/endee/client/Endee.java:77 | `split(":")` gives [""] for "", a colon-free string whole, and otherwise the colon-separated fields, none holding a colon, with the trailing empty ones dropped |
| EndeeClient.JoinSplitAll | src/main/java/io/endee/client/Endee.java:77 | the colon-free fields of a string joined by colons give the string back |
| EndeeClient.SplitAllJoin | src/main/java/io/endee/client/Endee.java:77 | splitting colon-free fields joined by colons gives those fields back |
| EndeeClient.ConnectionWithoutToken | src/main/java/io/endee/client/Endee.java:71-76 | a null or empty token is kept and the URL is the local default |
| EndeeClient.TokenWithRegion | src/main/java/io/endee/client/Endee.java:76-82 | a token a:b:region(…) becomes a:b with URL https://region.endee.io/api/v1; fields after the third are ignored |
| EndeeClient.TokenWithoutRegion | src/main/java/io/endee/client/Endee.java:76-82 | a two-field token is kept and the URL is the local default |
| EndeeClient.TokenWithEmptyRegion | src/main/java/io/endee/client/Endee.java:76-82 | "a:b:" splits into two fields, so it is kept as given with the default URL |
| EndeeClient.Endee.Local | src/main/java/io/endee/client/Endee.java:60-63 | the no-argument client has no token, the local URL and version 1 |
| EndeeClient.Endee.constructor | src/main/java/io/endee/client/Endee.java:70-88 | the token and URL are those the token parsing gives; version 1 |
| EndeeClient.Endee.SetBaseUrl | src/main/java/io/endee/client/Endee.java:96-99 | stores the URL and returns it; the token is untouched |
| EndeeClient.SpaceTypeAlwaysKnown | src/main/java/io/endee/client/Endee.java:120-123 | every space type, lower-cased, is in {cosine, l2, ip}, so that check never fails |
| EndeeClient.CreateIndexAcceptedIff | src/main/java/io/endee/client/Endee.java:109-123 | a payload is built iff the name is valid, dimension ≤ 10000 and a present sparse dimension is ≥ 0 |
| EndeeClient.CreateIndexErrorOrder | src/main/java/io/endee/client/Endee.java:109-118 | the first failing check decides the error: invalid name, then dimension, then sparse dimension |
| EndeeClient.CreateIndexLayers | src/main/java/io/endee/client/Endee.java:125-139 | the payload is the seven fixed entries, then sparse_dim when present, then version when present |
| EndeeClient.CreateIndexPayloadKeys | src/main/java/io/endee/client/Endee.java:125-139 | the keys are exactly index_name, dim, space_type, M, ef_con, checksum, precision, plus sparse_dim and version when non-null |
| EndeeClient.CreateIndexPayload | src/main/java/io/endee/client/Endee.java:125-139 | the entries hold the name, dimension, lower-case space type, M, efCon, checksum -1, precision and the optional values |
| EndeeClient.Endee.CreateIndex | src/main/java/io/endee/client/Endee.java:108-139 | the checks and successive puts give exactly the specified payload or error |

## Left out

- **HTTP and logging:** request building and sending, headers, timeouts, status checks, interrupt handling and slf4j logging. This is network I/O. The methods take the response body as a parameter instead, and `EndeeApiException.raiseException` is modelled on its own.
- **Pass-through operations:** `listIndexes`, `deleteIndex`, `getIndex` (Jackson `JsonNode` parsing of the index info), `deleteVector`, `deleteWithFilter` and `describe`. These are request/response pass-throughs with no client-side logic.
- **Library internals:** the zlib stream of `Deflater`/`Inflater`, the AES block cipher, UTF-8 coding and Jackson. These are library calls: they are fields of `Foreign.Lib`, with laws stated as hypotheses.
- **Randomness:** the `SecureRandom` IV is a parameter.
- **MessagePack bytes:** the byte-level encoding of msgpack-core is not modelled. The model uses the token stream in its place. This leaves out header byte choices and IEEE-754 bit patterns.
- **msgpack-java leniency:** reading a string where binary is expected, and the reverse, is not modelled.
- **Nested values and sizes:** nested values inside tuples, and sizes beyond `int`, are not modelled.
- **Floating point:** doubles are reals and `Math.sqrt` is an abstract function. IEEE rounding of `normalizeVector` and of `1 - similarity` is not modelled.
- **Strings as scalar values:** a Dafny `string` is a sequence of Unicode scalar values, while Java's `length()` and `charAt` count UTF-16 code units. A character outside the Basic Multilingual Plane is one element here and two units (a surrogate pair) in Java. So strings holding such characters get a different length and different characters at each index. The members below are exact only for strings without such characters.
- CryptoUtils.HexDecoded: counts scalar values, so a key holding a non-BMP character has another parity and decodes to other bytes than Java's `hexToBytes`.
- CryptoUtils.HexToBytes: the same difference as HexDecoded.
- CryptoUtils.AnyKeyOf64CharsDecodesTo32Bytes: "64 characters" means 64 scalar values. A 64-unit Java key with a surrogate pair is 63 elements here.
- CryptoUtils.AesEncrypt: a key of 62 hex digits and one non-BMP character is 64 units long, and Java encrypts with it. Here it has 63 elements and fails the odd-length hex decode.
- CryptoUtils.AesEncrypted: the same key-length difference as AesEncrypt.
- CryptoUtils.AesKeyAccepted: the 64-character key condition counts scalar values, not UTF-16 units.
- CryptoUtils.AesDecrypt: the same key-length difference as AesEncrypt.
- CryptoUtils.AesDecryptAccepted: the same key-length difference as AesKeyAccepted.
- CryptoUtils.JsonUnzipBadKey: "not 64 characters long" counts scalar values, so it covers keys Java would accept as 64 units long.
- **Unicode:** `toLowerCase` / `equalsIgnoreCase` are modelled on ASCII letters, and `Character.digit` / `Integer.parseInt` on ASCII digits. Non-ASCII case mappings and Unicode digits are left out.
- **Nulls:** a null vector, null setter arguments and a null list in `upsert` (which would throw NullPointerException) are not modelled. A vector is always present in a `VectorItem`.
- **Library exception classes:** library exceptions become the client's own error values. The cause chains are dropped.
- **Index constructor:** its `version` parameter is ignored by the code, and the model ignores it too. The client's `HttpClient` and `ObjectMapper` fields are left out.
- **Result beans:** `IndexInfo`, `IndexDescription`, `QueryResult`, `VectorInfo` and the base `EndeeException` are plain datatypes. Their getters, setters and `toString` are not modelled.
- MessagePackUtils.PackVectors: has no "Failed to pack vectors" path, because the buffer packer in memory never fails.
- CryptoUtils.JsonZip: has no "Failed to compress metadata" path. In the source that path comes only from a map value Jackson cannot serialise, and a `Json` value always holds something serialisable, so `toJson` is total here.
- IndexClient.Index.Upsert: returns the request body (the packed batch), not the success string "Vectors inserted successfully", because sending it is I/O.
- IndexClient.Index.Query: returns the request body with the mapped results.
- EndeeClient.Endee.CreateIndex: returns the request body, not "Index created successfully".
- MessagePackUtils.UnpackQueryResults: has no "Failed to unpack query results" path. That path catches `IOException`, and an in-memory `MessageUnpacker` throws only msgpack's own runtime exceptions (insufficient buffer, type mismatch), which are not caught there and pass through.
- MessagePackUtils.UnpackVector: has no "Failed to unpack vector" path, for the same reason.
- CryptoUtils.JsonUnzip: treats inflation as a total library call. The inflate loop of `deflateDecompress` (src/main/java/io/endee/client/util/CryptoUtils.java:218-224) never ends on a stream where `inflate` returns 0 without finishing, such as a zlib header that asks for a preset dictionary (`78 BB 00 00 00 01 00`, where `needsDictionary()` is true). The model gives the empty map or the parsed text there.
- CryptoUtils.JsonRoundTrip: assumes the JSON text of the map parses back (`JsonRoundTrips`), because Jackson's double output does not round-trip every real.
- CryptoUtils.JsonEncryptedRoundTrip: the same assumption about the JSON text.
- IndexClient.Index.UpsertThenGetVector: the same assumption, for the meta and the filter.
- IndexClient.Index.GetVector: does not build the `{"id": id}` request body.
- IndexClient.Index.ItemTupleAccepted: states the tuple id as the item id with null read as "". After id validation a null id cannot reach the tuple.
- **Enum `toString()`:** not a separate member. It returns `getValue()`, so the model uses `Value()` for both.
