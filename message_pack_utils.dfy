/** MessagePackUtils: the layout of the tuples exchanged with the server.
    A MessagePack document is modelled as the pre-order sequence of its values
    (an array contributes its header, then its elements), so the packer and the
    unpacker are cursors over a sequence of tokens rather than over bytes. */
module MessagePackUtils {
  import opened Base
  import opened Exceptions

  /** One MessagePack value of a format family; an array or a map is its
      header, followed in the stream by its elements. A bin token is the
      binary header together with its payload. */
  datatype Token =
    | Nil
    | Bool(b: bool)
    | Int(i: int)
    | Float(x: real)
    | Str(text: string)
    | Bin(bytes: seq<byte>)
    | ArrayHeader(size: nat)
    | MapHeader(size: nat)

  /** ValueType.name() of msgpack-core for the value a token starts. */
  function ValueTypeName(t: Token): string {
    match t
    case Nil => "NIL"
    case Bool(_) => "BOOLEAN"
    case Int(_) => "INTEGER"
    case Float(_) => "FLOAT"
    case Str(_) => "STRING"
    case Bin(_) => "BINARY"
    case ArrayHeader(_) => "ARRAY"
    case MapHeader(_) => "MAP"
  }

  function Floats(xs: seq<real>): (r: seq<Token>)
    ensures |r| == |xs|
  {
    seq(|xs|, i requires 0 <= i < |xs| => Float(xs[i]))
  }

  function IntTokens(xs: seq<int32>): (r: seq<Token>)
    ensures |r| == |xs|
  {
    seq(|xs|, i requires 0 <= i < |xs| => Int(xs[i]))
  }

  // ---------------------------------------------------------------------------
  // packVectors

  /** One element of the List<Object[]> handed to packVectors: the five
      fields of every record, and the sparse pair of a hybrid record. */
  datatype UpsertTuple = UpsertTuple(
    id: string,
    meta: seq<byte>,
    filter: string,
    norm: real,
    vector: seq<real>,
    sparse: Option<(seq<int32>, seq<real>)>)
  {
    /** vector.length of the Object[]: 7 with the sparse pair, else 5. */
    function Arity(): nat {
      if sparse.Some? then 7 else 5
    }
  }

  /** An array of doubles: its header, then one float per element. */
  function FloatArray(xs: seq<real>): seq<Token> {
    [ArrayHeader(|xs|)] + Floats(xs)
  }

  /** An array of ints: its header, then one integer per element. */
  function IntArray(xs: seq<int32>): seq<Token> {
    [ArrayHeader(|xs|)] + IntTokens(xs)
  }

  /** The sparse pair of a hybrid record; nothing for a dense one. */
  function SparseTokens(t: UpsertTuple): seq<Token> {
    match t.sparse
    case None => []
    case Some((indices, values)) => IntArray(indices) + FloatArray(values)
  }

  /** What packVectorTuple writes for one record. */
  function TupleTokens(t: UpsertTuple): seq<Token> {
    [ArrayHeader(t.Arity()), Str(t.id), Bin(t.meta), Str(t.filter), Float(t.norm)]
      + (FloatArray(t.vector) + SparseTokens(t))
  }

  /** The tuples of a batch, one after the other, in input order. */
  function TuplesTokens(ts: seq<UpsertTuple>): seq<Token> {
    if ts == [] then [] else TuplesTokens(ts[..|ts| - 1]) + TupleTokens(ts[|ts| - 1])
  }

  /** One turn of the loop of packVectors. */
  lemma PackStep(n: nat, ts: seq<UpsertTuple>, i: nat, written: seq<Token>)
    requires i < |ts| && written == [ArrayHeader(n)] + TuplesTokens(ts[..i])
    ensures written + TupleTokens(ts[i]) == [ArrayHeader(n)] + TuplesTokens(ts[..i + 1])
  {
    assert ts[..i + 1][..i] == ts[..i];
    assert TuplesTokens(ts[..i + 1]) == TuplesTokens(ts[..i]) + TupleTokens(ts[i]);
    Regroup([ArrayHeader(n)], TuplesTokens(ts[..i]), TupleTokens(ts[i]));
  }

  /** What packVectors writes: the batch size, then every tuple. */
  function BatchTokens(ts: seq<UpsertTuple>): seq<Token> {
    [ArrayHeader(|ts|)] + TuplesTokens(ts)
  }

  /** MessageBufferPacker: the values written so far. */
  class Packer {
    var written: seq<Token>

    constructor()
      ensures written == []
    {
      written := [];
    }

    method PackArrayHeader(size: nat)
      modifies this
      ensures written == old(written) + [ArrayHeader(size)]
    {
      written := written + [ArrayHeader(size)];
    }

    method PackString(s: string)
      modifies this
      ensures written == old(written) + [Str(s)]
    {
      written := written + [Str(s)];
    }

    /** packBinaryHeader(payload.length) followed by writePayload(payload). */
    method PackBinary(payload: seq<byte>)
      modifies this
      ensures written == old(written) + [Bin(payload)]
    {
      written := written + [Bin(payload)];
    }

    method PackDouble(x: real)
      modifies this
      ensures written == old(written) + [Float(x)]
    {
      written := written + [Float(x)];
    }

    method PackInt(i: int32)
      modifies this
      ensures written == old(written) + [Int(i)]
    {
      written := written + [Int(i)];
    }
  }

  method PackDoubles(packer: Packer, xs: seq<real>)
    modifies packer
    ensures packer.written == old(packer.written) + FloatArray(xs)
  {
    packer.PackArrayHeader(|xs|);
    var k := 0;
    while k < |xs|
      invariant 0 <= k <= |xs|
      invariant packer.written == old(packer.written) + [ArrayHeader(|xs|)] + Floats(xs[..k])
    {
      packer.PackDouble(xs[k]);
      assert Floats(xs[..k + 1]) == Floats(xs[..k]) + [Float(xs[k])];
      k := k + 1;
    }
    assert xs[..k] == xs;
  }

  method PackInts(packer: Packer, xs: seq<int32>)
    modifies packer
    ensures packer.written == old(packer.written) + IntArray(xs)
  {
    packer.PackArrayHeader(|xs|);
    var k := 0;
    while k < |xs|
      invariant 0 <= k <= |xs|
      invariant packer.written == old(packer.written) + [ArrayHeader(|xs|)] + IntTokens(xs[..k])
    {
      packer.PackInt(xs[k]);
      assert IntTokens(xs[..k + 1]) == IntTokens(xs[..k]) + [Int(xs[k])];
      k := k + 1;
    }
    assert xs[..k] == xs;
  }

  method PackVectorTuple(packer: Packer, t: UpsertTuple)
    modifies packer
    ensures packer.written == old(packer.written) + TupleTokens(t)
  {
    ghost var before := packer.written;
    packer.PackArrayHeader(t.Arity());
    packer.PackString(t.id);
    packer.PackBinary(t.meta);
    packer.PackString(t.filter);
    packer.PackDouble(t.norm);
    ghost var head := [ArrayHeader(t.Arity()), Str(t.id), Bin(t.meta), Str(t.filter), Float(t.norm)];
    assert packer.written == before + head;
    PackDoubles(packer, t.vector);
    if t.sparse.Some? {
      var (indices, values) := t.sparse.value;
      PackInts(packer, indices);
      PackDoubles(packer, values);
      assert packer.written == before + head + FloatArray(t.vector) + IntArray(indices) + FloatArray(values);
    }
    Associate(before, head, FloatArray(t.vector), SparseTokens(t));
  }

  lemma Associate(a: seq<Token>, b: seq<Token>, c: seq<Token>, d: seq<Token>)
    ensures a + b + c + d == a + (b + (c + d))
  {
  }

  /** packVectors. Packing into a memory buffer cannot raise the IOException
      that the source would rethrow as "Failed to pack vectors". */
  method PackVectors(vectors: seq<UpsertTuple>) returns (out: seq<Token>)
    ensures out == BatchTokens(vectors)
  {
    var packer := new Packer();
    packer.PackArrayHeader(|vectors|);
    var i := 0;
    while i < |vectors|
      invariant 0 <= i <= |vectors|
      invariant packer.written == [ArrayHeader(|vectors|)] + TuplesTokens(vectors[..i])
    {
      ghost var w := packer.written;
      PackVectorTuple(packer, vectors[i]);
      PackStep(|vectors|, vectors, i, w);
      i := i + 1;
    }
    assert vectors[..i] == vectors;
    out := packer.written;
  }

  // ---------------------------------------------------------------------------
  // Reading: each reader takes the remaining tokens and gives the value read
  // and the tokens after it, or the exception msgpack-core throws.

  function ReadArrayHeader(toks: seq<Token>): Result<(nat, seq<Token>)> {
    if toks == [] then Err(InsufficientBuffer)
    else if toks[0].ArrayHeader? then Ok((toks[0].size, toks[1..]))
    else Err(MessageType("Array"))
  }

  function ReadString(toks: seq<Token>): Result<(string, seq<Token>)> {
    if toks == [] then Err(InsufficientBuffer)
    else if toks[0].Str? then Ok((toks[0].text, toks[1..]))
    else Err(MessageType("String"))
  }

  /** unpackBinaryHeader followed by readPayload of that many bytes. */
  function ReadBinary(toks: seq<Token>): Result<(seq<byte>, seq<Token>)> {
    if toks == [] then Err(InsufficientBuffer)
    else if toks[0].Bin? then Ok((toks[0].bytes, toks[1..]))
    else Err(MessageType("Binary"))
  }

  const NumericMessage: string := "Expected numeric value (int/float), got "

  /** unpackNumberAsDouble: a float as itself, an integer as its value, and
      any other value kind an IllegalStateException naming it. */
  function ReadNumber(toks: seq<Token>): (r: Result<(real, seq<Token>)>)
    ensures toks == [] ==> r == Err(InsufficientBuffer)
    ensures toks != [] && toks[0].Float? ==> r == Ok((toks[0].x, toks[1..]))
    ensures toks != [] && toks[0].Int? ==> r == Ok((toks[0].i as real, toks[1..]))
    ensures toks != [] && !toks[0].Float? && !toks[0].Int? ==>
      r == Err(IllegalState(NumericMessage + ValueTypeName(toks[0])))
  {
    if toks == [] then Err(InsufficientBuffer)
    else match toks[0]
      case Float(x) => Ok((x, toks[1..]))
      case Int(i) => Ok((i as real, toks[1..]))
      case t => Err(IllegalState(NumericMessage + ValueTypeName(t)))
  }

  /** An integer and a float encoding of the same number read alike. */
  lemma NumberEncodingsAgree(i: int, rest: seq<Token>)
    ensures ReadNumber([Int(i)] + rest) == ReadNumber([Float(i as real)] + rest)
  {
  }

  /** The loop that reads n numbers into vec, acc holding those read so far. */
  function ReadNumbers(n: nat, acc: seq<real>, toks: seq<Token>): Result<(seq<real>, seq<Token>)>
    decreases n
  {
    if n == 0 then Ok((acc, toks))
    else
      var p :- ReadNumber(toks);
      ReadNumbers(n - 1, acc + [p.0], p.1)
  }

  /** The elements of an int array, read strictly as integers (the server's
      reading of the sparse indices). */
  function ReadInts(n: nat, acc: seq<int32>, toks: seq<Token>): Result<(seq<int32>, seq<Token>)>
    decreases n
  {
    if n == 0 then Ok((acc, toks))
    else if toks == [] then Err(InsufficientBuffer)
    else if toks[0].Int? && -0x8000_0000 <= toks[0].i < 0x8000_0000 then ReadInts(n - 1, acc + [toks[0].i], toks[1..])
    else Err(MessageType("Integer"))
  }

  lemma {:induction false} ReadNumbersFloats(xs: seq<real>, acc: seq<real>, rest: seq<Token>)
    ensures ReadNumbers(|xs|, acc, Floats(xs) + rest) == Ok((acc + xs, rest))
    decreases |xs|
  {
    var toks := Floats(xs) + rest;
    if xs == [] {
      assert toks == rest && acc + xs == acc;
    } else {
      assert toks[0] == Float(xs[0]);
      assert ReadNumber(toks) == Ok((xs[0], toks[1..]));
      assert toks[1..] == Floats(xs[1..]) + rest;
      ReadNumbersFloats(xs[1..], acc + [xs[0]], rest);
      assert acc + [xs[0]] + xs[1..] == acc + xs;
    }
  }

  lemma {:induction false} ReadIntsInts(xs: seq<int32>, acc: seq<int32>, rest: seq<Token>)
    ensures ReadInts(|xs|, acc, IntTokens(xs) + rest) == Ok((acc + xs, rest))
    decreases |xs|
  {
    var toks := IntTokens(xs) + rest;
    if xs == [] {
      assert toks == rest && acc + xs == acc;
    } else {
      assert toks[0] == Int(xs[0]);
      assert toks[1..] == IntTokens(xs[1..]) + rest;
      ReadIntsInts(xs[1..], acc + [xs[0]], rest);
      assert acc + [xs[0]] + xs[1..] == acc + xs;
    }
  }

  // ---------------------------------------------------------------------------
  // unpackQueryResults

  /** One decoded Object[] of unpackQueryResults: its length, the five fields,
      and the vector, which is read only when the length exceeds 5. */
  datatype ResultTuple = ResultTuple(
    size: nat,
    similarity: real,
    id: string,
    meta: seq<byte>,
    filter: string,
    norm: real,
    vector: Option<seq<real>>)

  /** The loop body of unpackQueryResults. Each field is read before it is
      stored, so a tuple shorter than 5 fails with the index error only after
      its value has been read. */
  function ReadResultTuple(toks: seq<Token>): Result<(ResultTuple, seq<Token>)> {
    var h :- ReadArrayHeader(toks);
    var (size, t0) := h;
    var sim :- ReadNumber(t0);
    if size <= 0 then Err(IndexOutOfBounds) else
    var id :- ReadString(sim.1);
    if size <= 1 then Err(IndexOutOfBounds) else
    var meta :- ReadBinary(id.1);
    if size <= 2 then Err(IndexOutOfBounds) else
    var filter :- ReadString(meta.1);
    if size <= 3 then Err(IndexOutOfBounds) else
    var norm :- ReadNumber(filter.1);
    if size <= 4 then Err(IndexOutOfBounds) else
    var t := ResultTuple(size, sim.0, id.0, meta.0, filter.0, norm.0, None);
    if size > 5 then
      var v :- ReadArrayHeader(norm.1);
      var vec :- ReadNumbers(v.0, [], v.1);
      Ok((t.(vector := Some(vec.0)), vec.1))
    else Ok((t, norm.1))
  }

  function ReadResultTuples(n: nat, acc: seq<ResultTuple>, toks: seq<Token>): Result<(seq<ResultTuple>, seq<Token>)>
    decreases n
  {
    if n == 0 then Ok((acc, toks))
    else
      var p :- ReadResultTuple(toks);
      ReadResultTuples(n - 1, acc + [p.0], p.1)
  }

  /** What unpackQueryResults returns or throws. Tokens after the outer
      array are not looked at. */
  function DecodeQueryResults(data: seq<Token>): Result<seq<ResultTuple>> {
    var h :- ReadArrayHeader(data);
    var ts :- ReadResultTuples(h.0, [], h.1);
    Ok(ts.0)
  }

  /** MessageUnpacker over a fixed input: the tokens not yet read. */
  class Unpacker {
    var rest: seq<Token>

    constructor(data: seq<Token>)
      ensures rest == data
    {
      rest := data;
    }

    method UnpackArrayHeader() returns (r: Result<nat>)
      modifies this
      ensures Consumed(ReadArrayHeader(old(rest)), r, rest)
    {
      if rest == [] {
        return Err(InsufficientBuffer);
      }
      if !rest[0].ArrayHeader? {
        return Err(MessageType("Array"));
      }
      r := Ok(rest[0].size);
      rest := rest[1..];
    }

    method UnpackString() returns (r: Result<string>)
      modifies this
      ensures Consumed(ReadString(old(rest)), r, rest)
    {
      if rest == [] {
        return Err(InsufficientBuffer);
      }
      if !rest[0].Str? {
        return Err(MessageType("String"));
      }
      r := Ok(rest[0].text);
      rest := rest[1..];
    }

    /** unpackBinaryHeader followed by readPayload. */
    method UnpackBinary() returns (r: Result<seq<byte>>)
      modifies this
      ensures Consumed(ReadBinary(old(rest)), r, rest)
    {
      if rest == [] {
        return Err(InsufficientBuffer);
      }
      if !rest[0].Bin? {
        return Err(MessageType("Binary"));
      }
      r := Ok(rest[0].bytes);
      rest := rest[1..];
    }

    /** unpackValue, for the scalar values it is used on; of an array or a
        map only the header is taken. */
    method UnpackValue() returns (r: Result<Token>)
      modifies this
      ensures old(rest) == [] ==> r == Err(InsufficientBuffer)
      ensures old(rest) != [] ==> r == Ok(old(rest)[0]) && rest == old(rest)[1..]
    {
      if rest == [] {
        return Err(InsufficientBuffer);
      }
      r := Ok(rest[0]);
      rest := rest[1..];
    }
  }

  /** A cursor method did what the reader function says: on success it
      returned the value and left the reader's remaining tokens. */
  predicate Consumed<T(==)>(spec: Result<(T, seq<Token>)>, r: Result<T>, rest: seq<Token>) {
    match spec
    case Ok((v, after)) => r == Ok(v) && rest == after
    case Err(e) => r == Err(e)
  }

  method UnpackNumberAsDouble(unpacker: Unpacker) returns (r: Result<real>)
    modifies unpacker
    ensures Consumed(ReadNumber(old(unpacker.rest)), r, unpacker.rest)
  {
    var value := unpacker.UnpackValue();
    if value.Err? {
      return Err(value.error);
    }
    match value.value
    case Float(x) => r := Ok(x);
    case Int(i) => r := Ok(i as real);
    case t => r := Err(IllegalState(NumericMessage + ValueTypeName(t)));
  }

  /** The vec loop: vecLen numbers into a fresh double[]. */
  method UnpackNumbers(unpacker: Unpacker, vecLen: nat) returns (r: Result<array<real>>)
    modifies unpacker
    ensures match ReadNumbers(vecLen, [], old(unpacker.rest))
      case Ok((vs, after)) => r.Ok? && r.value[..] == vs && unpacker.rest == after
      case Err(e) => r == Err(e)
  {
    var vec := new real[vecLen];
    ghost var start := unpacker.rest;
    var j := 0;
    while j < vecLen
      invariant 0 <= j <= vecLen
      invariant ReadNumbers(vecLen, [], start) == ReadNumbers(vecLen - j, vec[..j], unpacker.rest)
      modifies unpacker, vec
    {
      var x := UnpackNumberAsDouble(unpacker);
      if x.Err? {
        return Err(x.error);
      }
      vec[j] := x.value;
      assert vec[..j + 1] == vec[..j] + [x.value];
      j := j + 1;
    }
    assert vec[..j] == vec[..];
    return Ok(vec);
  }

  method UnpackResultTuple(unpacker: Unpacker) returns (r: Result<ResultTuple>)
    modifies unpacker
    ensures Consumed(ReadResultTuple(old(unpacker.rest)), r, unpacker.rest)
  {
    var tupleSize := unpacker.UnpackArrayHeader();
    if tupleSize.Err? { return Err(tupleSize.error); }
    var size := tupleSize.value;
    var similarity := UnpackNumberAsDouble(unpacker);
    if similarity.Err? { return Err(similarity.error); }
    if size <= 0 { return Err(IndexOutOfBounds); }
    var vectorId := unpacker.UnpackString();
    if vectorId.Err? { return Err(vectorId.error); }
    if size <= 1 { return Err(IndexOutOfBounds); }
    var meta := unpacker.UnpackBinary();
    if meta.Err? { return Err(meta.error); }
    if size <= 2 { return Err(IndexOutOfBounds); }
    var filter := unpacker.UnpackString();
    if filter.Err? { return Err(filter.error); }
    if size <= 3 { return Err(IndexOutOfBounds); }
    var norm := UnpackNumberAsDouble(unpacker);
    if norm.Err? { return Err(norm.error); }
    if size <= 4 { return Err(IndexOutOfBounds); }
    var tuple := ResultTuple(size, similarity.value, vectorId.value, meta.value, filter.value, norm.value, None);
    if size > 5 {
      var vecLen := unpacker.UnpackArrayHeader();
      if vecLen.Err? { return Err(vecLen.error); }
      var vec := UnpackNumbers(unpacker, vecLen.value);
      if vec.Err? { return Err(vec.error); }
      tuple := tuple.(vector := Some(vec.value[..]));
    }
    return Ok(tuple);
  }

  method UnpackQueryResults(data: seq<Token>) returns (r: Result<seq<ResultTuple>>)
    ensures r == DecodeQueryResults(data)
  {
    var results: seq<ResultTuple> := [];
    var unpacker := new Unpacker(data);
    var header := unpacker.UnpackArrayHeader();
    if header.Err? {
      return Err(header.error);
    }
    var arraySize := header.value;
    ghost var start := unpacker.rest;
    var i := 0;
    while i < arraySize
      invariant 0 <= i <= arraySize
      invariant ReadResultTuples(arraySize, [], start) == ReadResultTuples(arraySize - i, results, unpacker.rest)
    {
      var tuple := UnpackResultTuple(unpacker);
      if tuple.Err? {
        return Err(tuple.error);
      }
      results := results + [tuple.value];
      i := i + 1;
    }
    return Ok(results);
  }

  // ---------------------------------------------------------------------------
  // The server's side of a query response, as the reference for the decoder.

  /** A well-formed result tuple: length 5 without a vector, 6 with one. */
  predicate WellFormed(t: ResultTuple) {
    if t.vector.Some? then t.size == 6 else t.size == 5
  }

  /** How the server writes one result; similarity and norm may be sent as
      integers when they are whole numbers (intSimilarity, intNorm). */
  function ResultTokens(t: ResultTuple, intSimilarity: Option<int>, intNorm: Option<int>): seq<Token>
    requires intSimilarity.Some? ==> intSimilarity.value as real == t.similarity
    requires intNorm.Some? ==> intNorm.value as real == t.norm
  {
    [ArrayHeader(t.size),
     if intSimilarity.Some? then Int(intSimilarity.value) else Float(t.similarity),
     Str(t.id), Bin(t.meta), Str(t.filter),
     if intNorm.Some? then Int(intNorm.value) else Float(t.norm)]
      + match t.vector
        case None => []
        case Some(v) => [ArrayHeader(|v|)] + Floats(v)
  }

  /** The tuples of a response, all with float-encoded numbers. */
  function ResultsTokens(ts: seq<ResultTuple>): seq<Token> {
    if ts == [] then [] else ResultTokens(ts[0], None, None) + ResultsTokens(ts[1..])
  }

  lemma ReadResultTupleOf(t: ResultTuple, intSimilarity: Option<int>, intNorm: Option<int>, rest: seq<Token>)
    requires WellFormed(t)
    requires intSimilarity.Some? ==> intSimilarity.value as real == t.similarity
    requires intNorm.Some? ==> intNorm.value as real == t.norm
    ensures ReadResultTuple(ResultTokens(t, intSimilarity, intNorm) + rest) == Ok((t, rest))
  {
    var toks := ResultTokens(t, intSimilarity, intNorm) + rest;
    var tail := (match t.vector case None => [] case Some(v) => [ArrayHeader(|v|)] + Floats(v)) + rest;
    assert ReadArrayHeader(toks) == Ok((t.size, toks[1..]));
    assert ReadNumber(toks[1..]) == Ok((t.similarity, toks[2..]));
    assert ReadString(toks[2..]) == Ok((t.id, toks[3..]));
    assert ReadBinary(toks[3..]) == Ok((t.meta, toks[4..]));
    assert ReadString(toks[4..]) == Ok((t.filter, toks[5..]));
    assert ReadNumber(toks[5..]) == Ok((t.norm, toks[6..]));
    assert toks[6..] == tail;
    var base := ResultTuple(t.size, t.similarity, t.id, t.meta, t.filter, t.norm, None);
    if t.vector.Some? {
      var v := t.vector.value;
      assert tail == [ArrayHeader(|v|)] + (Floats(v) + rest);
      assert ReadArrayHeader(tail) == Ok((|v|, Floats(v) + rest));
      ReadNumbersFloats(v, [], rest);
      assert [] + v == v;
      assert ReadNumbers(|v|, [], Floats(v) + rest) == Ok((v, rest));
      assert base.(vector := Some(v)) == t;
    } else {
      assert tail == rest;
      assert base == t;
    }
  }

  /** One turn of the outer loop of unpackQueryResults. */
  lemma ReadResultTuplesStep(n: nat, acc: seq<ResultTuple>, toks: seq<Token>)
    requires n > 0 && ReadResultTuple(toks).Ok?
    ensures ReadResultTuples(n, acc, toks)
         == ReadResultTuples(n - 1, acc + [ReadResultTuple(toks).value.0], ReadResultTuple(toks).value.1)
  {
  }

  /** Reading the first of several server tuples, then the others. */
  lemma ReadResultTuplesCons(ts: seq<ResultTuple>, acc: seq<ResultTuple>, rest: seq<Token>)
    requires ts != [] && WellFormed(ts[0])
    requires ReadResultTuples(|ts[1..]|, acc + [ts[0]], ResultsTokens(ts[1..]) + rest) == Ok((acc + [ts[0]] + ts[1..], rest))
    ensures ReadResultTuples(|ts|, acc, ResultsTokens(ts) + rest) == Ok((acc + ts, rest))
  {
    var tail := ResultsTokens(ts[1..]) + rest;
    var toks := ResultsTokens(ts) + rest;
    assert ResultsTokens(ts) == ResultTokens(ts[0], None, None) + ResultsTokens(ts[1..]);
    Regroup(ResultTokens(ts[0], None, None), ResultsTokens(ts[1..]), rest);
    ReadResultTupleOf(ts[0], None, None, tail);
    ReadResultTuplesStep(|ts|, acc, toks);
    Regroup(acc, [ts[0]], ts[1..]);
    assert [ts[0]] + ts[1..] == ts;
  }

  lemma ReadResultTuplesNil(acc: seq<ResultTuple>, rest: seq<Token>)
    ensures ReadResultTuples(0, acc, ResultsTokens([]) + rest) == Ok((acc + [], rest))
  {
    assert ResultsTokens([]) + rest == rest;
    assert acc + [] == acc;
  }

  lemma {:induction false} ReadResultTuplesOf(ts: seq<ResultTuple>, acc: seq<ResultTuple>, rest: seq<Token>)
    requires forall k :: 0 <= k < |ts| ==> WellFormed(ts[k])
    ensures ReadResultTuples(|ts|, acc, ResultsTokens(ts) + rest) == Ok((acc + ts, rest))
    decreases |ts|
  {
    if ts != [] {
      ReadResultTuplesOf(ts[1..], acc + [ts[0]], rest);
      ReadResultTuplesCons(ts, acc, rest);
    } else {
      ReadResultTuplesNil(acc, rest);
    }
  }

  /** unpackQueryResults reads back every well-formed response, in order,
      each tuple with its vector exactly when it was sent with six fields. */
  lemma QueryResultsRoundTrip(ts: seq<ResultTuple>, trailing: seq<Token>)
    requires forall k :: 0 <= k < |ts| ==> WellFormed(ts[k])
    ensures DecodeQueryResults([ArrayHeader(|ts|)] + (ResultsTokens(ts) + trailing)) == Ok(ts)
  {
    ReadResultTuplesOf(ts, [], trailing);
    DecodeQueryResultsOf(ResultsTokens(ts) + trailing, |ts|);
    assert [] + ts == ts;
  }

  /** The outer loop of unpackQueryResults over the tuples that follow the
      outer header. */
  lemma DecodeQueryResultsOf(body: seq<Token>, n: nat)
    ensures ReadResultTuples(n, [], body).Ok? ==>
      DecodeQueryResults([ArrayHeader(n)] + body) == Ok(ReadResultTuples(n, [], body).value.0)
  {
    assert ([ArrayHeader(n)] + body)[1..] == body;
  }

  /** A similarity or norm sent as an integer reads as the same number. */
  lemma IntegerEncodedResult(t: ResultTuple, similarity: int, norm: int, rest: seq<Token>)
    requires WellFormed(t) && t.similarity == similarity as real && t.norm == norm as real
    ensures ReadResultTuple(ResultTokens(t, Some(similarity), Some(norm)) + rest)
         == ReadResultTuple(ResultTokens(t, None, None) + rest)
  {
    ReadResultTupleOf(t, Some(similarity), Some(norm), rest);
    ReadResultTupleOf(t, None, None, rest);
  }

  /** A tuple that announces fewer than five fields fails with the index error. */
  lemma ShortResultTupleFails(size: nat, similarity: real, id: string, meta: seq<byte>, filter: string, norm: real)
    requires size < 5
    ensures DecodeQueryResults([ArrayHeader(1), ArrayHeader(size), Float(similarity), Str(id), Bin(meta), Str(filter), Float(norm)])
         == Err(IndexOutOfBounds)
  {
    var toks := [ArrayHeader(size), Float(similarity), Str(id), Bin(meta), Str(filter), Float(norm)];
    assert toks[1..][1..][1..][1..][1..] == [Float(norm)];
    assert ReadResultTuple(toks) == Err(IndexOutOfBounds);
  }

  /** A non-numeric similarity is reported with the value kind. */
  lemma NonNumericSimilarityFails(id: string)
    ensures DecodeQueryResults([ArrayHeader(1), ArrayHeader(5), Str(id)])
         == Err(IllegalState("Expected numeric value (int/float), got STRING"))
  {
    var toks := [ArrayHeader(5), Str(id)];
    assert ReadArrayHeader(toks) == Ok((5, [Str(id)]));
    assert ReadNumber([Str(id)]) == Err(IllegalState(NumericMessage + "STRING"));
    assert NumericMessage + "STRING" == "Expected numeric value (int/float), got STRING";
    assert ReadResultTuple(toks) == Err(IllegalState("Expected numeric value (int/float), got STRING"));
  }

  /** Input that ends before a promised tuple fails with msgpack's own
      insufficient-buffer error, which is not an IOException and so is not
      wrapped. */
  lemma TruncatedResultsFail(n: nat)
    requires n > 0
    ensures DecodeQueryResults([ArrayHeader(n)]) == Err(InsufficientBuffer)
  {
  }

  // ---------------------------------------------------------------------------
  // unpackVector

  /** The Object[] of unpackVector: id, meta, filter, norm and vector. */
  datatype VectorTuple = VectorTuple(id: string, meta: seq<byte>, filter: string, norm: real, vector: seq<real>)

  /** What unpackVector returns or throws. */
  function DecodeVector(toks: seq<Token>): Result<VectorTuple> {
    var h :- ReadArrayHeader(toks);
    var (size, t0) := h;
    var id :- ReadString(t0);
    if size <= 0 then Err(IndexOutOfBounds) else
    var meta :- ReadBinary(id.1);
    if size <= 1 then Err(IndexOutOfBounds) else
    var filter :- ReadString(meta.1);
    if size <= 2 then Err(IndexOutOfBounds) else
    var norm :- ReadNumber(filter.1);
    if size <= 3 then Err(IndexOutOfBounds) else
    var v :- ReadArrayHeader(norm.1);
    var vec :- ReadNumbers(v.0, [], v.1);
    if size <= 4 then Err(IndexOutOfBounds) else
    Ok(VectorTuple(id.0, meta.0, filter.0, norm.0, vec.0))
  }

  method UnpackVector(data: seq<Token>) returns (r: Result<VectorTuple>)
    ensures r == DecodeVector(data)
  {
    var unpacker := new Unpacker(data);
    var tupleSize := unpacker.UnpackArrayHeader();
    if tupleSize.Err? { return Err(tupleSize.error); }
    var size := tupleSize.value;
    var id := unpacker.UnpackString();
    if id.Err? { return Err(id.error); }
    if size <= 0 { return Err(IndexOutOfBounds); }
    var meta := unpacker.UnpackBinary();
    if meta.Err? { return Err(meta.error); }
    if size <= 1 { return Err(IndexOutOfBounds); }
    var filter := unpacker.UnpackString();
    if filter.Err? { return Err(filter.error); }
    if size <= 2 { return Err(IndexOutOfBounds); }
    var norm := UnpackNumberAsDouble(unpacker);
    if norm.Err? { return Err(norm.error); }
    if size <= 3 { return Err(IndexOutOfBounds); }
    var vecLen := unpacker.UnpackArrayHeader();
    if vecLen.Err? { return Err(vecLen.error); }
    var vec := UnpackNumbers(unpacker, vecLen.value);
    if vec.Err? { return Err(vec.error); }
    if size <= 4 { return Err(IndexOutOfBounds); }
    return Ok(VectorTuple(id.value, meta.value, filter.value, norm.value, vec.value[..]));
  }

  /** unpackVector reads the same five-field layout packVectorTuple writes:
      any packed record gives back its id, meta, filter, norm and vector (the
      sparse pair of a seven-field record is left unread). */
  lemma VectorRoundTrip(t: UpsertTuple, trailing: seq<Token>)
    ensures DecodeVector(TupleTokens(t) + trailing) == Ok(VectorTuple(t.id, t.meta, t.filter, t.norm, t.vector))
  {
    var after := SparseTokens(t) + trailing;
    var toks := TupleTokens(t) + trailing;
    assert toks == [ArrayHeader(t.Arity()), Str(t.id), Bin(t.meta), Str(t.filter), Float(t.norm)]
      + (FloatArray(t.vector) + after);
    assert ReadArrayHeader(toks) == Ok((t.Arity(), toks[1..]));
    assert ReadString(toks[1..]) == Ok((t.id, toks[2..]));
    assert ReadBinary(toks[2..]) == Ok((t.meta, toks[3..]));
    assert ReadString(toks[3..]) == Ok((t.filter, toks[4..]));
    assert ReadNumber(toks[4..]) == Ok((t.norm, toks[5..]));
    assert toks[5..] == FloatArray(t.vector) + after;
    ReadFloatArrayOf(t.vector, after);
  }

  /** Reading back a packed array of doubles. */
  lemma ReadFloatArrayOf(xs: seq<real>, rest: seq<Token>)
    ensures ReadArrayHeader(FloatArray(xs) + rest) == Ok((|xs|, Floats(xs) + rest))
    ensures ReadNumbers(|xs|, [], Floats(xs) + rest) == Ok((xs, rest))
  {
    assert FloatArray(xs) + rest == [ArrayHeader(|xs|)] + (Floats(xs) + rest);
    ReadNumbersFloats(xs, [], rest);
    assert [] + xs == xs;
  }

  /** Reading back a packed array of ints. */
  lemma ReadIntArrayOf(xs: seq<int32>, rest: seq<Token>)
    ensures ReadArrayHeader(IntArray(xs) + rest) == Ok((|xs|, IntTokens(xs) + rest))
    ensures ReadInts(|xs|, [], IntTokens(xs) + rest) == Ok((xs, rest))
  {
    assert IntArray(xs) + rest == [ArrayHeader(|xs|)] + (IntTokens(xs) + rest);
    ReadIntsInts(xs, [], rest);
    assert [] + xs == xs;
  }

  // ---------------------------------------------------------------------------
  // The server's reading of an upsert batch, as the reference for packVectors.

  function ReadUpsertTuple(toks: seq<Token>): Result<(UpsertTuple, seq<Token>)> {
    var h :- ReadArrayHeader(toks);
    var (size, t0) := h;
    if size != 5 && size != 7 then Err(MessageType("upsert tuple")) else
    var dense :- ReadDenseFields(t0);
    if size == 5 then Ok(dense)
    else
      var sparse :- ReadSparseFields(dense.1);
      Ok((dense.0.(sparse := Some(sparse.0)), sparse.1))
  }

  /** The five fields every tuple has: id, meta, filter, norm and vector. */
  function ReadDenseFields(toks: seq<Token>): Result<(UpsertTuple, seq<Token>)> {
    var id :- ReadString(toks);
    var meta :- ReadBinary(id.1);
    var filter :- ReadString(meta.1);
    var norm :- ReadNumber(filter.1);
    var v :- ReadArrayHeader(norm.1);
    var vec :- ReadNumbers(v.0, [], v.1);
    Ok((UpsertTuple(id.0, meta.0, filter.0, norm.0, vec.0, None), vec.1))
  }

  /** The two arrays of a hybrid tuple: indices, then values. */
  function ReadSparseFields(toks: seq<Token>): Result<((seq<int32>, seq<real>), seq<Token>)> {
    var ih :- ReadArrayHeader(toks);
    var indices :- ReadInts(ih.0, [], ih.1);
    var vh :- ReadArrayHeader(indices.1);
    var values :- ReadNumbers(vh.0, [], vh.1);
    Ok(((indices.0, values.0), values.1))
  }

  function ReadUpsertTuples(n: nat, acc: seq<UpsertTuple>, toks: seq<Token>): Result<(seq<UpsertTuple>, seq<Token>)>
    decreases n
  {
    if n == 0 then Ok((acc, toks))
    else
      var p :- ReadUpsertTuple(toks);
      ReadUpsertTuples(n - 1, acc + [p.0], p.1)
  }

  function ReadUpsertBatch(data: seq<Token>): Result<seq<UpsertTuple>> {
    var h :- ReadArrayHeader(data);
    var ts :- ReadUpsertTuples(h.0, [], h.1);
    Ok(ts.0)
  }

  lemma ReadUpsertTupleOf(t: UpsertTuple, rest: seq<Token>)
    ensures ReadUpsertTuple(TupleTokens(t) + rest) == Ok((t, rest))
  {
    var after := SparseTokens(t) + rest;
    var toks := TupleTokens(t) + rest;
    var fields := [Str(t.id), Bin(t.meta), Str(t.filter), Float(t.norm)] + (FloatArray(t.vector) + after);
    assert toks == [ArrayHeader(t.Arity())] + fields;
    assert ReadArrayHeader(toks) == Ok((t.Arity(), fields));
    ReadDenseFieldsOf(t, after);
    if t.sparse.Some? {
      var (indices, values) := t.sparse.value;
      assert after == IntArray(indices) + (FloatArray(values) + rest);
      ReadSparseFieldsOf(indices, values, rest);
      assert t.(sparse := None).(sparse := Some((indices, values))) == t;
    } else {
      assert after == rest;
      assert t.(sparse := None) == t;
    }
  }

  lemma ReadDenseFieldsOf(t: UpsertTuple, after: seq<Token>)
    ensures ReadDenseFields([Str(t.id), Bin(t.meta), Str(t.filter), Float(t.norm)] + (FloatArray(t.vector) + after))
      == Ok((t.(sparse := None), after))
  {
    var toks := [Str(t.id), Bin(t.meta), Str(t.filter), Float(t.norm)] + (FloatArray(t.vector) + after);
    assert ReadString(toks) == Ok((t.id, toks[1..]));
    assert ReadBinary(toks[1..]) == Ok((t.meta, toks[2..]));
    assert ReadString(toks[2..]) == Ok((t.filter, toks[3..]));
    assert ReadNumber(toks[3..]) == Ok((t.norm, toks[4..]));
    assert toks[4..] == FloatArray(t.vector) + after;
    ReadFloatArrayOf(t.vector, after);
  }

  lemma ReadSparseFieldsOf(indices: seq<int32>, values: seq<real>, rest: seq<Token>)
    ensures ReadSparseFields(IntArray(indices) + (FloatArray(values) + rest)) == Ok(((indices, values), rest))
  {
    ReadIntArrayOf(indices, FloatArray(values) + rest);
    ReadFloatArrayOf(values, rest);
  }

  lemma {:induction false} TuplesTokensCons(ts: seq<UpsertTuple>)
    requires ts != []
    ensures TuplesTokens(ts) == TupleTokens(ts[0]) + TuplesTokens(ts[1..])
    decreases |ts|
  {
    if |ts| > 1 {
      var init := ts[..|ts| - 1];
      TuplesTokensCons(init);
      assert init[1..] == ts[1..][..|ts[1..]| - 1];
      assert init[0] == ts[0];
    } else {
      assert ts[..0] == [] && ts[1..] == [];
    }
  }

  lemma ReadUpsertTuplesStep(n: nat, acc: seq<UpsertTuple>, toks: seq<Token>)
    requires n > 0 && ReadUpsertTuple(toks).Ok?
    ensures ReadUpsertTuples(n, acc, toks)
         == ReadUpsertTuples(n - 1, acc + [ReadUpsertTuple(toks).value.0], ReadUpsertTuple(toks).value.1)
  {
  }

  /** Reading the first of several upsert tuples, then the others. */
  lemma ReadUpsertTuplesCons(ts: seq<UpsertTuple>, acc: seq<UpsertTuple>, rest: seq<Token>)
    requires ts != []
    requires ReadUpsertTuples(|ts[1..]|, acc + [ts[0]], TuplesTokens(ts[1..]) + rest) == Ok((acc + [ts[0]] + ts[1..], rest))
    ensures ReadUpsertTuples(|ts|, acc, TuplesTokens(ts) + rest) == Ok((acc + ts, rest))
  {
    TuplesTokensCons(ts);
    var tail := TuplesTokens(ts[1..]) + rest;
    var toks := TuplesTokens(ts) + rest;
    Regroup(TupleTokens(ts[0]), TuplesTokens(ts[1..]), rest);
    ReadUpsertTupleOf(ts[0], tail);
    ReadUpsertTuplesStep(|ts|, acc, toks);
    Regroup(acc, [ts[0]], ts[1..]);
    assert [ts[0]] + ts[1..] == ts;
  }

  lemma ReadUpsertTuplesNil(acc: seq<UpsertTuple>, rest: seq<Token>)
    ensures ReadUpsertTuples(0, acc, TuplesTokens([]) + rest) == Ok((acc + [], rest))
  {
    assert TuplesTokens([]) + rest == rest;
    assert acc + [] == acc;
  }

  lemma {:induction false} ReadUpsertTuplesOf(ts: seq<UpsertTuple>, acc: seq<UpsertTuple>, rest: seq<Token>)
    ensures ReadUpsertTuples(|ts|, acc, TuplesTokens(ts) + rest) == Ok((acc + ts, rest))
    decreases |ts|
  {
    if ts != [] {
      ReadUpsertTuplesOf(ts[1..], acc + [ts[0]], rest);
      ReadUpsertTuplesCons(ts, acc, rest);
    } else {
      ReadUpsertTuplesNil(acc, rest);
    }
  }

  /** What packVectors writes reads back as the same records, in order, each
      with five fields or seven. */
  lemma PackVectorsRoundTrip(ts: seq<UpsertTuple>)
    ensures ReadUpsertBatch(BatchTokens(ts)) == Ok(ts)
  {
    assert BatchTokens(ts) == [ArrayHeader(|ts|)] + (TuplesTokens(ts) + []);
    assert ReadArrayHeader(BatchTokens(ts)) == Ok((|ts|, TuplesTokens(ts) + []));
    ReadUpsertTuplesOf(ts, [], []);
    assert [] + ts == ts;
  }
}
