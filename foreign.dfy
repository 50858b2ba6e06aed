/** The library calls the client makes and whose insides are not modelled:
    Math.sqrt, Jackson's ObjectMapper, String's UTF-8 conversions,
    java.util.zip's Deflater/Inflater (zlib format, RFC 1950) and the
    "AES/CBC/NoPadding" javax.crypto.Cipher. A Lib value carries one choice of
    each; the predicates below state the laws the round-trip lemmas assume of
    them. */
module Foreign {
  import opened Base

  datatype Lib = Lib(
    /** Math.sqrt, on non-negative arguments. */
    sqrt: real -> real,
    /** ObjectMapper.writeValueAsString. */
    toJson: Json -> string,
    /** ObjectMapper.readValue: None when the text is not JSON. */
    parseJson: string -> Option<Json>,
    /** String.getBytes(UTF_8) and new String(bytes, UTF_8). */
    utf8Encode: string -> seq<byte>,
    utf8Decode: seq<byte> -> string,
    /** The output of the deflate loop over new Deflater(): a zlib stream. */
    zlibDeflate: seq<byte> -> seq<byte>,
    /** The output of the inflate loop over new Inflater(): None when the
        Inflater throws DataFormatException. */
    zlibInflate: seq<byte> -> Option<seq<byte>>,
    /** AES-256 in CBC mode without padding, (key, iv, input) -> output, on
        inputs whose length is a multiple of the block size. */
    aesCbcEncrypt: (seq<byte>, seq<byte>, seq<byte>) -> seq<byte>,
    aesCbcDecrypt: (seq<byte>, seq<byte>, seq<byte>) -> seq<byte>
  )

  const AesBlockSize: nat := 16

  ghost predicate SqrtLaw(lib: Lib) {
    forall x: real :: x >= 0.0 ==> lib.sqrt(x) >= 0.0 && lib.sqrt(x) * lib.sqrt(x) == x
  }

  /** Parsing undoes writing for the value v, and v is not written as the
      empty text. This is stated per value: no writer can do it for every
      value at once, since there are more reals than texts, and Jackson's
      shortest-repr doubles round-trip only their own values. */
  ghost predicate JsonRoundTrips(lib: Lib, v: Json) {
    lib.parseJson(lib.toJson(v)) == Some(v) && |lib.toJson(v)| > 0
  }

  /** The empty object is written "{}" and read back. */
  ghost predicate JsonLaw(lib: Lib) {
    lib.toJson(JObj(map[])) == "{}" && JsonRoundTrips(lib, JObj(map[]))
  }

  /** The JSON laws can be met together: a writer that knows only the empty
      object and one other object. */
  lemma JsonLawsSatisfiable()
    ensures exists lib: Lib :: JsonLaw(lib) && JsonRoundTrips(lib, JObj(map["a" := JInt(1)]))
  {
    var one := JObj(map["a" := JInt(1)]);
    var lib := Lib(
      x => x,
      v => if v == JObj(map[]) then "{}" else "1",
      s => if s == "{}" then Some(JObj(map[])) else if s == "1" then Some(one) else None,
      s => [], b => "",
      b => b, b => Some(b),
      (k, iv, p) => p, (k, iv, c) => c);
    assert "a" in one.fields && one != JObj(map[]);
    assert JsonLaw(lib) && JsonRoundTrips(lib, one);
  }

  ghost predicate Utf8Law(lib: Lib) {
    forall s: string :: lib.utf8Decode(lib.utf8Encode(s)) == s
  }

  /** Inflating undoes deflating, and a zlib stream is never empty: it has at
      least its two-byte header. */
  ghost predicate ZlibLaw(lib: Lib) {
    forall b: seq<byte> :: lib.zlibInflate(lib.zlibDeflate(b)) == Some(b) && |lib.zlibDeflate(b)| >= 2
  }

  /** CBC without padding maps whole blocks to as many whole blocks, and
      decryption under the same key and IV undoes encryption. */
  ghost predicate AesLaw(lib: Lib) {
    && (forall k: seq<byte>, iv: seq<byte>, p: seq<byte> ::
          |k| == 32 && |iv| == 16 && |p| % AesBlockSize == 0 ==>
            |lib.aesCbcEncrypt(k, iv, p)| == |p|
            && lib.aesCbcDecrypt(k, iv, lib.aesCbcEncrypt(k, iv, p)) == p)
    && (forall k: seq<byte>, iv: seq<byte>, c: seq<byte> ::
          |k| == 32 && |iv| == 16 && |c| % AesBlockSize == 0 ==>
            |lib.aesCbcDecrypt(k, iv, c)| == |c|)
  }

  /** Every law at once; the per-value JSON round trip is assumed separately,
      for the values a lemma writes. */
  ghost predicate Sound(lib: Lib) {
    SqrtLaw(lib) && JsonLaw(lib) && Utf8Law(lib) && ZlibLaw(lib) && AesLaw(lib)
  }
}
