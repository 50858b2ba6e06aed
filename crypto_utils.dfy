/** CryptoUtils: the key checksum, hex decoding of keys, PKCS#7 padding
    (section 6.3 of RFC 5652), the IV || ciphertext framing around AES-256-CBC,
    and the metadata codec jsonZip / jsonUnzip with its lenient decode. */
module CryptoUtils {
  import opened Base
  import opened Exceptions
  import opened Foreign

  const AesKeySize: nat := 32
  const IvSize: nat := 16
  const BlockSize: nat := 16

  const KeySizeMessage: string := "Key must be 256 bits (64 hex characters)"
  const ShortDataMessage: string := "Data too short to contain IV"

  // ---------------------------------------------------------------------------
  // Hex digits

  /** Character.digit(c, 16) on ASCII characters: the digit's value, or -1. */
  function Digit16(c: char): (d: int)
    ensures -1 <= d < 16
  {
    if '0' <= c <= '9' then c as int - '0' as int
    else if 'a' <= c <= 'f' then c as int - 'a' as int + 10
    else if 'A' <= c <= 'F' then c as int - 'A' as int + 10
    else -1
  }

  predicate AllHexDigits(s: string) {
    forall i :: 0 <= i < |s| ==> Digit16(s[i]) >= 0
  }

  /** The value of a string of hex digits, most significant first. */
  function HexValue(s: string): nat
    requires AllHexDigits(s)
  {
    if s == [] then 0 else HexValue(s[..|s| - 1]) * 16 + Digit16(s[|s| - 1])
  }

  /** The lower-case hex digit of a value below 16. */
  function HexChar(d: nat): (c: char)
    requires d < 16
    ensures Digit16(c) == d
  {
    if d < 10 then ('0' as int + d) as char else ('a' as int + d - 10) as char
  }

  /** A byte as two lower-case hex digits. */
  function HexByte(b: byte): (s: string)
    ensures |s| == 2 && Digit16(s[0]) * 16 + Digit16(s[1]) == b
  {
    [HexChar(b / 16), HexChar(b % 16)]
  }

  /** hexToBytes reads a byte's two hex digits back as that byte. */
  lemma HexByteRoundTrip(b: byte)
    ensures HexPairByte(HexByte(b)[0], HexByte(b)[1]) == b
  {
    var s := HexByte(b);
    assert Digit16(s[0]) * 16 + Digit16(s[1]) == b;
  }

  // ---------------------------------------------------------------------------
  // getChecksum

  /** Integer.parseInt(s, 16): an optional '+' or '-', then at least one hex
      digit, and a value within the range of int; None where Java throws
      NumberFormatException. */
  function ParseInt16(s: string): Option<int32> {
    if |s| == 0 then None
    else
      var digits := if s[0] == '-' || s[0] == '+' then s[1..] else s;
      if |digits| == 0 || !AllHexDigits(digits) then None
      else
        var h: int := HexValue(digits);
        var v := if s[0] == '-' then -h else h;
        if -0x8000_0000 <= v < 0x8000_0000 then Some(v) else None
  }

  /** getChecksum: the last two characters of the key read in base 16, or -1. */
  function GetChecksum(key: Option<string>): (r: int)
    ensures key.None? || |key.value| < 2 ==> r == -1
    ensures key.Some? && |key.value| >= 2 ==>
      var hi, lo := key.value[|key.value| - 2], key.value[|key.value| - 1];
      r == if Digit16(hi) >= 0 && Digit16(lo) >= 0 then 16 * Digit16(hi) + Digit16(lo)
           else if hi == '-' && Digit16(lo) >= 0 then -Digit16(lo)
           else if hi == '+' && Digit16(lo) >= 0 then Digit16(lo)
           else -1
  {
    if key.None? || |key.value| < 2 then -1
    else
      var lastTwo := key.value[|key.value| - 2..];
      ParseInt16TwoChars(lastTwo);
      match ParseInt16(lastTwo)
      case Some(v) => v
      case None => -1
  }

  /** Integer.parseInt on two characters: two hex digits, or a sign and one. */
  lemma ParseInt16TwoChars(s: string)
    requires |s| == 2
    ensures ParseInt16(s) ==
      if Digit16(s[0]) >= 0 && Digit16(s[1]) >= 0 then Some(16 * Digit16(s[0]) + Digit16(s[1]))
      else if s[0] == '-' && Digit16(s[1]) >= 0 then Some(-Digit16(s[1]))
      else if s[0] == '+' && Digit16(s[1]) >= 0 then Some(Digit16(s[1]))
      else None
  {
    if Digit16(s[0]) >= 0 {
      if Digit16(s[1]) >= 0 {
        assert AllHexDigits(s);
        assert s[..1][..0] == [];
        assert HexValue(s[..1]) == Digit16(s[0]);
      } else {
        assert !AllHexDigits(s);
      }
    } else if s[0] == '-' || s[0] == '+' {
      var digits := s[1..];
      if Digit16(s[1]) >= 0 {
        assert AllHexDigits(digits);
        assert digits[..0] == [];
        assert HexValue(digits) == Digit16(s[1]);
      } else {
        assert !AllHexDigits(digits);
      }
    } else {
      assert !AllHexDigits(s);
    }
  }

  /** A key whose last two characters are a byte in hex has that byte as its
      checksum. */
  lemma ChecksumOfHexSuffix(prefix: string, b: byte)
    ensures GetChecksum(Some(prefix + HexByte(b))) == b
  {
    var k := prefix + HexByte(b);
    assert k[|k| - 2..] == HexByte(b);
  }

  // ---------------------------------------------------------------------------
  // hexToBytes

  /** One byte of hexToBytes: (digit(hi) << 4) + digit(lo), cast to byte. A
      non-hex character counts as -1, so the cast wraps. */
  function HexPairByte(hi: char, lo: char): byte {
    (Digit16(hi) * 16 + Digit16(lo)) % 256
  }

  /** What hexToBytes returns: the pairs of an even-length string, or the
      StringIndexOutOfBoundsException of reading past the end of an odd one. */
  function HexDecoded(hex: string): (r: Result<seq<byte>>)
    ensures r.Ok? <==> |hex| % 2 == 0
    ensures r.Err? ==> r.error == IndexOutOfBounds
    ensures r.Ok? ==>
      && |r.value| == |hex| / 2
      && forall i :: 0 <= i < |hex| / 2 ==> r.value[i] == HexPairByte(hex[2 * i], hex[2 * i + 1])
  {
    if |hex| % 2 == 1 then Err(IndexOutOfBounds)
    else Ok(seq(|hex| / 2, i requires 0 <= i < |hex| / 2 => HexPairByte(hex[2 * i], hex[2 * i + 1])))
  }

  method HexToBytes(hex: string) returns (r: Result<array<byte>>)
    ensures r.Ok? <==> HexDecoded(hex).Ok?
    ensures r.Err? ==> r.error == HexDecoded(hex).error
    ensures r.Ok? ==> fresh(r.value) && r.value[..] == HexDecoded(hex).value
  {
    var len := |hex|;
    var data := new byte[len / 2];
    var i := 0;
    while i < len
      invariant 0 <= i <= len && i % 2 == 0
      invariant forall k :: 0 <= k < i / 2 ==> data[k] == HexPairByte(hex[2 * k], hex[2 * k + 1])
    {
      if i + 1 >= len {
        return Err(IndexOutOfBounds);
      }
      data[i / 2] := HexPairByte(hex[i], hex[i + 1]);
      i := i + 2;
    }
    return Ok(data);
  }

  /** Lower-case hex encoding of a byte string. */
  function HexEncode(bytes: seq<byte>): (s: string)
    ensures |s| == 2 * |bytes|
  {
    if bytes == [] then [] else HexEncode(bytes[..|bytes| - 1]) + HexByte(bytes[|bytes| - 1])
  }

  lemma {:induction false} HexEncodeAt(bytes: seq<byte>, i: nat)
    requires i < |bytes|
    ensures HexEncode(bytes)[2 * i] == HexByte(bytes[i])[0]
    ensures HexEncode(bytes)[2 * i + 1] == HexByte(bytes[i])[1]
  {
    var init := bytes[..|bytes| - 1];
    if i < |bytes| - 1 {
      HexEncodeAt(init, i);
    }
  }

  /** hexToBytes inverts lower-case hex encoding. */
  lemma HexRoundTrip(bytes: seq<byte>)
    ensures HexDecoded(HexEncode(bytes)) == Ok(bytes)
  {
    var h := HexEncode(bytes);
    assert |h| / 2 == |bytes|;
    var r := HexDecoded(h);
    forall i | 0 <= i < |bytes| ensures r.value[i] == bytes[i] {
      HexEncodeAt(bytes, i);
      var hb := HexByte(bytes[i]);
      assert h[2 * i] == hb[0] && h[2 * i + 1] == hb[1];
      HexByteRoundTrip(bytes[i]);
    }
    assert r.value == bytes;
  }

  /** Every 64-character key decodes to exactly 32 bytes, whatever its
      characters: non-hex characters are not rejected. */
  lemma AnyKeyOf64CharsDecodesTo32Bytes(keyHex: string)
    ensures HexDecoded(keyHex).Ok? && |HexDecoded(keyHex).value| == AesKeySize <==> |keyHex| == 64
  {
  }

  // ---------------------------------------------------------------------------
  // System.arraycopy, Arrays.fill and Arrays.copyOfRange on byte arrays

  /** System.arraycopy; the source is read as a snapshot, which is also how
      arraycopy treats overlapping source and destination. */
  method ArrayCopy(src: seq<byte>, srcPos: nat, dest: array<byte>, destPos: nat, length: nat)
    requires srcPos + length <= |src| && destPos + length <= dest.Length
    modifies dest
    ensures dest[..] == old(dest[..destPos]) + src[srcPos..srcPos + length] + old(dest[destPos + length..])
  {
    var k := 0;
    while k < length
      invariant 0 <= k <= length
      invariant forall j :: 0 <= j < dest.Length ==>
        dest[j] == if destPos <= j < destPos + k then src[srcPos + j - destPos] else old(dest[j])
    {
      dest[destPos + k] := src[srcPos + k];
      k := k + 1;
    }
    assert dest[..] == old(dest[..destPos]) + src[srcPos..srcPos + length] + old(dest[destPos + length..]);
  }

  /** Arrays.fill(a, from, to, value). */
  method Fill(a: array<byte>, from: nat, to: nat, value: byte)
    requires from <= to <= a.Length
    modifies a
    ensures a[..] == old(a[..from]) + seq(to - from, _ => value) + old(a[to..])
  {
    var k := from;
    while k < to
      invariant from <= k <= to
      invariant a[..] == old(a[..from]) + seq(k - from, _ => value) + old(a[k..])
    {
      a[k] := value;
      assert seq(k + 1 - from, _ => value) == seq(k - from, _ => value) + [value];
      k := k + 1;
    }
  }

  /** Arrays.copyOfRange(a, from, to). */
  method CopyOfRange(a: array<byte>, from: nat, to: nat) returns (r: array<byte>)
    requires from <= to <= a.Length
    ensures fresh(r) && r[..] == a[from..to]
  {
    r := new byte[to - from];
    ArrayCopy(a[..], from, r, 0, to - from);
  }

  // ---------------------------------------------------------------------------
  // PKCS#7 padding

  function PadLength(n: nat): (p: nat)
    ensures 1 <= p <= BlockSize && (n + p) % BlockSize == 0
  {
    BlockSize - n % BlockSize
  }

  /** pkcs7Pad: the data, then p copies of the byte p, p = 16 - len % 16. */
  function Padded(data: seq<byte>): (r: seq<byte>)
    ensures |r| % BlockSize == 0 && |data| < |r| <= |data| + BlockSize
    ensures r[..|data|] == data
    ensures forall i :: |data| <= i < |r| ==> r[i] == |r| - |data|
  {
    var p := PadLength(|data|);
    data + seq(p, _ => p as byte)
  }

  /** pkcs7Unpad: the data without its last d[last] bytes, or the data itself
      when it is empty or its last byte exceeds 16 or the length. The other
      padding bytes are not inspected. */
  function Unpadded(data: seq<byte>): (r: seq<byte>)
    ensures |r| <= |data| && r == data[..|r|] && |data| - |r| <= BlockSize
    ensures r != data ==> |data| - |r| == data[|data| - 1]
  {
    if |data| == 0 then data
    else
      var paddingLength := data[|data| - 1];
      if paddingLength > BlockSize || paddingLength > |data| then data
      else data[..|data| - paddingLength]
  }

  method Pkcs7Pad(data: array<byte>) returns (padded: array<byte>)
    ensures fresh(padded) && padded[..] == Padded(data[..])
  {
    var paddingLength := BlockSize - data.Length % BlockSize;
    padded := new byte[data.Length + paddingLength];
    ArrayCopy(data[..], 0, padded, 0, data.Length);
    Fill(padded, data.Length, padded.Length, paddingLength as byte);
  }

  method Pkcs7Unpad(data: array<byte>) returns (r: array<byte>)
    ensures r[..] == Unpadded(data[..])
    ensures r == data || fresh(r)
  {
    if data.Length == 0 {
      return data;
    }
    var paddingLength := data[data.Length - 1];
    if paddingLength > BlockSize || paddingLength > data.Length {
      return data;
    }
    r := CopyOfRange(data, 0, data.Length - paddingLength);
  }

  /** Unpadding undoes padding, for every byte string. */
  lemma UnpadPad(data: seq<byte>)
    ensures Unpadded(Padded(data)) == data
  {
    var r := Padded(data);
    assert r[|r| - 1] == |r| - |data|;
  }

  /** The fallback cases and the unchecked padding bytes, stated outright. */
  lemma UnpadCases(data: seq<byte>)
    ensures |data| == 0 ==> Unpadded(data) == data
    ensures |data| > 0 && (data[|data| - 1] > BlockSize || data[|data| - 1] > |data|) ==>
      Unpadded(data) == data
    ensures |data| > 0 && data[|data| - 1] <= BlockSize && data[|data| - 1] <= |data| ==>
      Unpadded(data) == data[..|data| - data[|data| - 1]]
  {
  }

  /** A final byte 2 strips two bytes whatever the byte before it holds. */
  lemma UnpadIgnoresOtherPaddingBytes(data: seq<byte>, junk: byte)
    ensures Unpadded(data + [junk, 2]) == data
  {
    assert (data + [junk, 2])[..|data|] == data;
  }

  // ---------------------------------------------------------------------------
  // aesEncrypt / aesDecrypt

  /** What aesEncrypt returns or throws; iv stands for the 16 bytes drawn from
      SecureRandom. A null key or an odd-length key fails inside hexToBytes and
      surfaces as the wrapping EndeeException. */
  function AesEncrypted(data: seq<byte>, keyHex: Option<string>, iv: seq<byte>, lib: Lib): Result<seq<byte>>
    requires |iv| == IvSize
  {
    if keyHex.None? then Err(Endee("AES encryption failed"))
    else match HexDecoded(keyHex.value)
      case Err(_) => Err(Endee("AES encryption failed"))
      case Ok(key) =>
        if |key| != AesKeySize then Err(IllegalArgument(KeySizeMessage))
        else Ok(iv + lib.aesCbcEncrypt(key, iv, Padded(data)))
  }

  /** What aesDecrypt returns or throws. A ciphertext that is not whole blocks
      makes the NoPadding cipher throw IllegalBlockSizeException, which
      surfaces as the wrapping EndeeException. */
  function AesDecrypted(data: seq<byte>, keyHex: Option<string>, lib: Lib): Result<seq<byte>> {
    if keyHex.None? then Err(Endee("AES decryption failed"))
    else match HexDecoded(keyHex.value)
      case Err(_) => Err(Endee("AES decryption failed"))
      case Ok(key) =>
        if |key| != AesKeySize then Err(IllegalArgument(KeySizeMessage))
        else if |data| < IvSize then Err(IllegalArgument(ShortDataMessage))
        else if (|data| - IvSize) % BlockSize != 0 then Err(Endee("AES decryption failed"))
        else Ok(Unpadded(lib.aesCbcDecrypt(key, data[..IvSize], data[IvSize..])))
  }

  method AesEncrypt(data: array<byte>, keyHex: Option<string>, iv: seq<byte>, lib: Lib)
    returns (r: Result<array<byte>>)
    requires |iv| == IvSize
    ensures r.Ok? <==> AesEncrypted(data[..], keyHex, iv, lib).Ok?
    ensures r.Err? ==> r.error == AesEncrypted(data[..], keyHex, iv, lib).error
    ensures r.Ok? ==> fresh(r.value) && r.value[..] == AesEncrypted(data[..], keyHex, iv, lib).value
  {
    if keyHex.None? {
      return Err(Endee("AES encryption failed"));
    }
    var decoded := HexToBytes(keyHex.value);
    if decoded.Err? {
      return Err(Endee("AES encryption failed"));
    }
    var key := decoded.value;
    if key.Length != AesKeySize {
      return Err(IllegalArgument(KeySizeMessage));
    }
    var paddedData := Pkcs7Pad(data);
    var ciphertext := lib.aesCbcEncrypt(key[..], iv, paddedData[..]);
    var result := new byte[|iv| + |ciphertext|];
    ArrayCopy(iv, 0, result, 0, |iv|);
    ArrayCopy(ciphertext, 0, result, |iv|, |ciphertext|);
    assert result[..] == iv + ciphertext;
    return Ok(result);
  }

  method AesDecrypt(data: array<byte>, keyHex: Option<string>, lib: Lib) returns (r: Result<array<byte>>)
    ensures r.Ok? <==> AesDecrypted(data[..], keyHex, lib).Ok?
    ensures r.Err? ==> r.error == AesDecrypted(data[..], keyHex, lib).error
    ensures r.Ok? ==> r.value[..] == AesDecrypted(data[..], keyHex, lib).value
  {
    if keyHex.None? {
      return Err(Endee("AES decryption failed"));
    }
    var decoded := HexToBytes(keyHex.value);
    if decoded.Err? {
      return Err(Endee("AES decryption failed"));
    }
    var key := decoded.value;
    if key.Length != AesKeySize {
      return Err(IllegalArgument(KeySizeMessage));
    }
    if data.Length < IvSize {
      return Err(IllegalArgument(ShortDataMessage));
    }
    var iv := CopyOfRange(data, 0, IvSize);
    var ciphertext := CopyOfRange(data, IvSize, data.Length);
    assert iv[..] == data[..][..IvSize] && ciphertext[..] == data[..][IvSize..];
    if ciphertext.Length % BlockSize != 0 {
      return Err(Endee("AES decryption failed"));
    }
    var plain := lib.aesCbcDecrypt(key[..], iv[..], ciphertext[..]);
    var paddedData := new byte[|plain|](k requires 0 <= k < |plain| => plain[k]);
    assert paddedData[..] == plain;
    var unpadded := Pkcs7Unpad(paddedData);
    return Ok(unpadded);
  }

  /** Output layout of aesEncrypt: the IV, then one ciphertext block per block
      of padded input. */
  lemma AesEncryptLayout(data: seq<byte>, keyHex: string, iv: seq<byte>, lib: Lib)
    requires AesLaw(lib) && |iv| == IvSize && |keyHex| == 64
    ensures AesEncrypted(data, Some(keyHex), iv, lib).Ok?
    ensures AesEncrypted(data, Some(keyHex), iv, lib).value[..IvSize] == iv
    ensures |AesEncrypted(data, Some(keyHex), iv, lib).value| == IvSize + |Padded(data)|
  {
    AnyKeyOf64CharsDecodesTo32Bytes(keyHex);
    var key := HexDecoded(keyHex).value;
    var p := Padded(data);
    var ct := lib.aesCbcEncrypt(key, iv, p);
    assert |ct| == |p| by {
      assert |key| == 32 && |iv| == 16 && |p| % AesBlockSize == 0;
    }
    assert AesEncrypted(data, Some(keyHex), iv, lib) == Ok(iv + ct);
    assert (iv + ct)[..IvSize] == iv;
  }

  /** aesEncrypt accepts a key exactly when it has 64 characters. */
  lemma AesKeyAccepted(data: seq<byte>, keyHex: string, iv: seq<byte>, lib: Lib)
    requires |iv| == IvSize
    ensures AesEncrypted(data, Some(keyHex), iv, lib).Ok? <==> |keyHex| == 64
    ensures |keyHex| % 2 == 0 && |keyHex| != 64 ==>
      AesEncrypted(data, Some(keyHex), iv, lib) == Err(IllegalArgument(KeySizeMessage))
    ensures |keyHex| % 2 == 1 ==>
      AesEncrypted(data, Some(keyHex), iv, lib) == Err(Endee("AES encryption failed"))
  {
  }

  /** aesDecrypt checks the key before the data, rejects data too short to
      hold the IV, and otherwise fails only on a ciphertext of partial blocks. */
  lemma AesDecryptAccepted(data: seq<byte>, keyHex: string, lib: Lib)
    ensures AesDecrypted(data, Some(keyHex), lib).Ok? <==>
      |keyHex| == 64 && |data| >= IvSize && (|data| - IvSize) % BlockSize == 0
    ensures |keyHex| % 2 == 0 && |keyHex| != 64 ==>
      AesDecrypted(data, Some(keyHex), lib) == Err(IllegalArgument(KeySizeMessage))
    ensures |keyHex| % 2 == 1 ==> AesDecrypted(data, Some(keyHex), lib) == Err(Endee("AES decryption failed"))
    ensures |keyHex| == 64 && |data| < IvSize ==>
      AesDecrypted(data, Some(keyHex), lib) == Err(IllegalArgument(ShortDataMessage))
  {
    AnyKeyOf64CharsDecodesTo32Bytes(keyHex);
  }

  /** aesDecrypt undoes aesEncrypt under the same key, whatever the IV. */
  lemma AesRoundTrip(data: seq<byte>, keyHex: string, iv: seq<byte>, lib: Lib)
    requires AesLaw(lib) && |iv| == IvSize && |keyHex| == 64
    ensures AesEncrypted(data, Some(keyHex), iv, lib).Ok?
    ensures AesDecrypted(AesEncrypted(data, Some(keyHex), iv, lib).value, Some(keyHex), lib) == Ok(data)
  {
    AnyKeyOf64CharsDecodesTo32Bytes(keyHex);
    var key := HexDecoded(keyHex).value;
    var ct := lib.aesCbcEncrypt(key, iv, Padded(data));
    var e := iv + ct;
    assert e[..IvSize] == iv && e[IvSize..] == ct;
    UnpadPad(data);
  }

  // ---------------------------------------------------------------------------
  // jsonZip / jsonUnzip

  /** jsonZip: nothing for a null or empty map, otherwise the zlib-compressed
      UTF-8 JSON text. It takes no key and never encrypts. */
  function JsonZip(data: Option<MetaMap>, lib: Lib): (r: seq<byte>)
    ensures data.None? || data.value == map[] ==> r == []
  {
    if data.None? || data.value == map[] then []
    else lib.zlibDeflate(lib.utf8Encode(lib.toJson(JObj(data.value))))
  }

  /** JsonUtils.fromJson(json, Map.class): an object gives its map, the JSON
      literal null gives a null map, and text that is not JSON or is another
      kind of value throws EndeeException("Failed to deserialize JSON"). */
  function FromJsonMap(json: string, lib: Lib): (r: Result<Option<MetaMap>>)
    ensures r.Ok? <==> lib.parseJson(json) == Some(JNull) || (lib.parseJson(json).Some? && lib.parseJson(json).value.JObj?)
    ensures r.Err? ==> r.error == Endee(DeserializeFailure)
  {
    match lib.parseJson(json)
    case Some(JObj(m)) => Ok(Some(m))
    case Some(JNull) => Ok(None)
    case _ => Err(Endee(DeserializeFailure))
  }

  const DeserializeFailure: string := "Failed to deserialize JSON"

  /** jsonUnzip(data, key): every exception on the way (bad key, short data,
      corrupt stream, text that is not a JSON object) is caught and gives the
      empty map. The result is null (None) only for the JSON text null. */
  function JsonUnzip(data: Option<seq<byte>>, key: Option<string>, lib: Lib): (r: Option<MetaMap>)
    ensures data.None? || data.value == [] ==> r == Some(map[])
  {
    if data.None? || data.value == [] then Some(map[])
    else
      var buffer := if key.Some? && key.value != "" then AesDecrypted(data.value, key, lib) else Ok(data.value);
      match buffer
      case Err(_) => Some(map[])
      case Ok(b) =>
        match lib.zlibInflate(b)
        case None => Some(map[])
        case Some(decompressed) =>
          match FromJsonMap(lib.utf8Decode(decompressed), lib)
          case Ok(m) => m
          case Err(_) => Some(map[])
  }

  /** jsonUnzip(jsonZip(m)) == m without a key, the empty map included. */
  lemma JsonRoundTrip(m: MetaMap, lib: Lib)
    requires JsonRoundTrips(lib, JObj(m)) && Utf8Law(lib) && ZlibLaw(lib)
    ensures JsonUnzip(Some(JsonZip(Some(m), lib)), None, lib) == Some(m)
  {
    if m != map[] {
      var json := lib.toJson(JObj(m));
      var bytes := lib.utf8Encode(json);
      assert lib.zlibInflate(lib.zlibDeflate(bytes)) == Some(bytes);
      assert lib.utf8Decode(bytes) == json;
      assert lib.parseJson(json) == Some(JObj(m));
    }
  }

  /** With a key, the bytes aesEncrypt makes of jsonZip(m) unzip back to m. */
  lemma JsonEncryptedRoundTrip(m: MetaMap, keyHex: string, iv: seq<byte>, lib: Lib)
    requires Sound(lib) && JsonRoundTrips(lib, JObj(m)) && |iv| == IvSize && |keyHex| == 64 && m != map[]
    ensures AesEncrypted(JsonZip(Some(m), lib), Some(keyHex), iv, lib).Ok?
    ensures JsonUnzip(Some(AesEncrypted(JsonZip(Some(m), lib), Some(keyHex), iv, lib).value), Some(keyHex), lib)
         == Some(m)
  {
    var z := JsonZip(Some(m), lib);
    AesRoundTrip(z, keyHex, iv, lib);
    var json := lib.toJson(JObj(m));
    var bytes := lib.utf8Encode(json);
    assert lib.zlibInflate(z) == Some(bytes);
    assert lib.utf8Decode(bytes) == json;
    assert lib.parseJson(json) == Some(JObj(m));
  }

  /** A non-empty key that is not 64 characters long never fails the decode:
      it gives the empty map. */
  lemma JsonUnzipBadKey(data: seq<byte>, keyHex: string, lib: Lib)
    requires data != [] && keyHex != "" && |keyHex| != 64
    ensures JsonUnzip(Some(data), Some(keyHex), lib) == Some(map[])
  {
  }

  /** Corrupt compressed bytes give the empty map rather than an error. */
  lemma JsonUnzipCorrupt(data: seq<byte>, lib: Lib)
    requires data != [] && lib.zlibInflate(data).None?
    ensures JsonUnzip(Some(data), None, lib) == Some(map[])
  {
  }

  /** The null map comes only from the JSON text null. */
  lemma JsonUnzipNull(data: seq<byte>, lib: Lib)
    requires data != [] && JsonUnzip(Some(data), None, lib).None?
    ensures lib.zlibInflate(data).Some?
    ensures lib.parseJson(lib.utf8Decode(lib.zlibInflate(data).value)) == Some(JNull)
  {
  }
}
