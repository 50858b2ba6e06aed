/** Index: the client of one index. The model covers what the client decides
    before and after the HTTP exchange: cosine normalisation, the validation
    and tuple assembly of upsert, the validation and JSON payload of query, and
    the mapping of decoded tuples into results. The HTTP exchange itself is
    replaced by its inputs and outputs: the request body is returned, and the
    response body is a parameter. */
module IndexClient {
  import opened Base
  import opened Exceptions
  import opened Foreign
  import opened Types
  import opened ValidationUtils
  import opened CryptoUtils
  import opened MessagePackUtils

  const MaxBatchSize: nat := 1000
  const MaxTopK: int := 512
  const MaxEf: int := 1024

  const BatchTooLargeMessage: string := "Cannot insert more than 1000 vectors at a time"
  const DenseOnlyUpsertMessage: string :=
    "Cannot insert sparse data into a dense-only index. Create index with sparseDimension > 0 for hybrid support."
  const BothSparseMessage: string := "Both sparse_indices and sparse_values must be provided for hybrid vectors."
  const TopKMessage: string := "top_k cannot be greater than 512 and less than 0"
  const EfMessage: string := "ef search cannot be greater than 1024"
  const NoQueryVectorMessage: string := "At least one of 'vector' or 'sparseIndices'/'sparseValues' must be provided."
  const DenseOnlyQueryMessage: string :=
    "Cannot perform sparse search on a dense-only index. Create index with sparseDimension > 0 for hybrid support."
  const QuerySparseLengthMessage: string := "sparseIndices and sparseValues must have the same length."

  function DimensionMismatchMessage(expected: int, got: int): string {
    "Vector dimension mismatch: expected " + IntToString(expected) + ", got " + IntToString(got)
  }

  function SparseLengthMessage(indices: int, values: int): string {
    "sparseIndices and sparseValues must have the same length. Got " + IntToString(indices)
      + " indices and " + IntToString(values) + " values."
  }

  function SparseIndexMessage(index: int, sparseDimension: int): string {
    "Sparse index " + IntToString(index) + " is out of bounds. Must be in range [0,"
      + IntToString(sparseDimension) + ")."
  }

  // ---------------------------------------------------------------------------
  // Arithmetic of normalizeVector

  /** The sum of squares, accumulated from the front. */
  function SumSquares(v: seq<real>): real {
    if v == [] then 0.0 else SumSquares(v[..|v| - 1]) + v[|v| - 1] * v[|v| - 1]
  }

  lemma {:induction false} SumSquaresNonNegative(v: seq<real>)
    ensures SumSquares(v) >= 0.0
  {
    if v != [] {
      SumSquaresNonNegative(v[..|v| - 1]);
    }
  }

  /** Every element divided by norm. */
  function Scaled(v: seq<real>, norm: real): (r: seq<real>)
    requires norm != 0.0
    ensures |r| == |v|
  {
    seq(|v|, i requires 0 <= i < |v| => v[i] / norm)
  }

  /** Dividing every element by norm divides the sum of squares by nn, the
      square of norm. */
  lemma {:induction false} SumSquaresScaled(v: seq<real>, norm: real, nn: real)
    requires norm != 0.0 && nn == norm * norm
    ensures SumSquares(Scaled(v, norm)) * nn == SumSquares(v)
  {
    if v != [] {
      var n := |v|;
      var w := Scaled(v, norm);
      var init := v[..n - 1];
      assert w[..n - 1] == Scaled(init, norm);
      SumSquaresScaled(init, norm, nn);
      DivideThenMultiply(v[n - 1], norm);
      ScaleStep(SumSquares(w[..n - 1]), w[n - 1], norm, nn, SumSquares(init), v[n - 1]);
    }
  }

  lemma DivideThenMultiply(x: real, norm: real)
    requires norm != 0.0
    ensures (x / norm) * norm == x
  {
  }

  lemma ScaleStep(t: real, y: real, norm: real, nn: real, s: real, x: real)
    requires nn == norm * norm && t * nn == s && y * norm == x
    ensures (t + y * y) * nn == s + x * x
  {
    assert (y * y) * nn == (y * norm) * (y * norm);
  }

  /** Dividing by the Euclidean length gives unit length. */
  lemma ScaledToUnit(v: seq<real>, norm: real, s: real)
    requires norm != 0.0 && s == norm * norm && s == SumSquares(v) && s != 0.0
    ensures SumSquares(Scaled(v, norm)) == 1.0
  {
    SumSquaresScaled(v, norm, s);
    CancelFactor(SumSquares(Scaled(v, norm)), s);
  }

  lemma CancelFactor(a: real, s: real)
    requires s != 0.0 && a * s == s
    ensures a == 1.0
  {
    assert (a - 1.0) * s == 0.0;
  }

  lemma ZeroRoot(r: real)
    requires r >= 0.0 && r * r == 0.0
    ensures r == 0.0
  {
    if r > 0.0 {
      calc {
        0.0;
        == r * r;
        == r * (r - 0.0);
        > 0.0;
      }
    }
  }

  lemma PositiveRoot(r: real)
    requires r >= 0.0 && r * r != 0.0
    ensures r > 0.0
  {
  }

  /** The only non-negative square root of 1 is 1. */
  lemma UnitRoot(r: real)
    requires r >= 0.0 && r * r == 1.0
    ensures r == 1.0
  {
    if r < 1.0 {
      calc {
        r * r;
        <= r * 1.0;
        < 1.0;
      }
    } else if r > 1.0 {
      calc {
        r * r;
        >= r * 1.0;
        > 1.0;
      }
    }
  }

  /** The first sparse index outside [0, bound), if any. */
  function FirstOutOfRange(indices: seq<int32>, bound: int): (r: Option<int32>)
    ensures r.None? <==> forall k :: 0 <= k < |indices| ==> 0 <= indices[k] < bound
    ensures r.Some? ==> !(0 <= r.value < bound)
    ensures r.Some? ==> exists k :: 0 <= k < |indices| && indices[k] == r.value
                                  && forall j :: 0 <= j < k ==> 0 <= indices[j] < bound
  {
    if indices == [] then None
    else if indices[0] < 0 || indices[0] >= bound then Some(indices[0])
    else
      var r := FirstOutOfRange(indices[1..], bound);
      assert forall k :: 1 <= k < |indices| ==> indices[k] == indices[1..][k - 1];
      if r.Some? then
        var k :| 0 <= k < |indices[1..]| && indices[1..][k] == r.value
                 && forall j :: 0 <= j < k ==> 0 <= indices[1..][j] < bound;
        assert indices[k + 1] == r.value && forall j :: 0 <= j < k + 1 ==> 0 <= indices[j] < bound;
        r
      else r
  }

  /** The JSON of a List<Map<String, Object>> filter. */
  function FilterJson(filter: seq<MetaMap>): (j: Json)
    ensures j.JArr? && |j.elems| == |filter|
  {
    JArr(seq(|filter|, i requires 0 <= i < |filter| => JObj(filter[i])))
  }

  /** The fields of the given items, as they stand. */
  function Snapshot(items: seq<VectorItem>): (r: seq<ItemData>)
    reads set i | 0 <= i < |items| :: items[i]
    ensures |r| == |items|
  {
    seq(|items|, i reads set i | 0 <= i < |items| :: items[i] requires 0 <= i < |items| => items[i].Data())
  }

  /** true when the sparse array pair of a query is present: both non-null
      and non-empty. */
  predicate HasSparse(q: QueryData) {
    && q.sparseIndices.Some? && |q.sparseIndices.value| > 0
    && q.sparseValues.Some? && |q.sparseValues.value| > 0
  }

  /** The filter string of a decoded tuple: parsed with
      JsonUtils.fromJson(filterStr, Map.class) unless it is empty or "{}". */
  function ParseFilter(filterStr: string, lib: Lib): Result<Option<MetaMap>> {
    if filterStr != "" && filterStr != "{}" then FromJsonMap(filterStr, lib) else Ok(None)
  }

  /** One QueryResult of query's mapping loop. */
  function MappedResult(t: ResultTuple, includeVectors: bool, lib: Lib): Result<QueryResult> {
    var filter :- ParseFilter(t.filter, lib);
    Ok(QueryResult(
      t.id, t.similarity, 1.0 - t.similarity, JsonUnzip(Some(t.meta), None, lib), t.norm, filter,
      if includeVectors && t.size > 5 then t.vector else None))
  }

  /** The results of query's mapping loop: one per decoded tuple, in order,
      and the first filter that does not parse fails the whole query. */
  function MappedResults(ts: seq<ResultTuple>, includeVectors: bool, lib: Lib): Result<seq<QueryResult>> {
    if ts == [] then Ok([])
    else
      var done :- MappedResults(ts[..|ts| - 1], includeVectors, lib);
      var last :- MappedResult(ts[|ts| - 1], includeVectors, lib);
      Ok(done + [last])
  }

  /** The mapping succeeds exactly when every filter string parses, and then
      yields one result per tuple, in order. */
  lemma {:induction false} MappedResultsOk(ts: seq<ResultTuple>, includeVectors: bool, lib: Lib)
    ensures var r := MappedResults(ts, includeVectors, lib);
      && (r.Ok? <==> forall i :: 0 <= i < |ts| ==> ParseFilter(ts[i].filter, lib).Ok?)
      && (r.Ok? ==> |r.value| == |ts|)
      && (r.Ok? ==> forall i :: 0 <= i < |ts| ==> MappedResult(ts[i], includeVectors, lib) == Ok(r.value[i]))
  {
    if ts != [] {
      var init := ts[..|ts| - 1];
      MappedResultsOk(init, includeVectors, lib);
      assert forall i :: 0 <= i < |init| ==> init[i] == ts[i];
    }
  }

  /** The fields of every mapped result, when every filter parses. */
  lemma MappedResultsFields(ts: seq<ResultTuple>, includeVectors: bool, lib: Lib)
    requires forall k :: 0 <= k < |ts| ==> WellFormed(ts[k]) && ParseFilter(ts[k].filter, lib).Ok?
    ensures MappedResults(ts, includeVectors, lib).Ok?
    ensures var results := MappedResults(ts, includeVectors, lib).value;
      && |results| == |ts|
      && forall i :: 0 <= i < |ts| ==>
        && results[i].id == ts[i].id
        && results[i].similarity == ts[i].similarity
        && results[i].distance == 1.0 - ts[i].similarity
        && results[i].norm == ts[i].norm
        && results[i].meta == JsonUnzip(Some(ts[i].meta), None, lib)
        && results[i].vector == (if includeVectors then ts[i].vector else None)
        && (ts[i].filter == "" || ts[i].filter == "{}" ==> results[i].filter == None)
  {
    MappedResultsOk(ts, includeVectors, lib);
  }

  lemma {:induction false} MappedResultsPrefixErr(ts: seq<ResultTuple>, i: nat, includeVectors: bool, lib: Lib)
    requires i <= |ts| && MappedResults(ts[..i], includeVectors, lib).Err?
    ensures MappedResults(ts, includeVectors, lib) == MappedResults(ts[..i], includeVectors, lib)
    decreases |ts|
  {
    if i < |ts| {
      var init := ts[..|ts| - 1];
      assert init[..i] == ts[..i];
      MappedResultsPrefixErr(init, i, includeVectors, lib);
    } else {
      assert ts[..i] == ts;
    }
  }

  /** What getVector makes of a decoded tuple. */
  function VectorInfoOf(t: VectorTuple, lib: Lib): Result<VectorInfo> {
    var filter :- ParseFilter(t.filter, lib);
    Ok(VectorInfo(t.id, JsonUnzip(Some(t.meta), None, lib), filter, t.norm, t.vector))
  }

  /** getVector on a response body: decode, then map. */
  function GetVectorOutcome(response: seq<Token>, lib: Lib): Result<VectorInfo> {
    var t :- DecodeVector(response);
    VectorInfoOf(t, lib)
  }

  class Index {
    const name: string
    const token: Option<string>
    const url: string
    const count: int
    const spaceType: SpaceType
    const dimension: int32
    const precision: Precision
    const m: int32
    const sparseDimension: int32

    /** Index(name, token, url, version, params); version is not kept, and a
        null params, or a null field of it, gives the defaults. */
    constructor (name: string, token: Option<string>, url: string, version: int32, params: Option<IndexInfo>)
      ensures this.name == name && this.token == token && this.url == url
      ensures count == (if params.Some? then params.value.totalElements else 0)
      ensures spaceType == (if params.Some? && params.value.spaceType.Some? then params.value.spaceType.value else Cosine)
      ensures dimension == (if params.Some? then params.value.dimension else 0)
      ensures precision == (if params.Some? && params.value.precision.Some? then params.value.precision.value else Int8D)
      ensures m == (if params.Some? then params.value.m else 16)
      ensures sparseDimension ==
        (if params.Some? && params.value.sparseDimension.Some? then params.value.sparseDimension.value else 0)
    {
      this.name := name;
      this.token := token;
      this.url := url;
      count := if params.Some? then params.value.totalElements else 0;
      spaceType := if params.Some? && params.value.spaceType.Some? then params.value.spaceType.value else Cosine;
      dimension := if params.Some? then params.value.dimension else 0;
      precision := if params.Some? && params.value.precision.Some? then params.value.precision.value else Int8D;
      m := if params.Some? then params.value.m else 16;
      sparseDimension :=
        if params.Some? && params.value.sparseDimension.Some? then params.value.sparseDimension.value else 0;
    }

    /** isHybrid: the index takes sparse vectors exactly when some sparse
        index passes upsert's range check; a dense-only index rejects every
        sparse index. */
    function IsHybrid(): (hybrid: bool)
      ensures hybrid <==> FirstOutOfRange([0], sparseDimension as int).None?
      ensures !hybrid ==> forall i: int32 :: FirstOutOfRange([i], sparseDimension as int).Some?
    {
      sparseDimension > 0
    }

    // -------------------------------------------------------------------------
    // normalizeVector

    /** normalizeVector: (vector, norm). The vector is returned as it is, with
        norm 1, on a non-cosine index or when its norm is 0. */
    function Normalized(vector: seq<real>, lib: Lib): Result<(seq<real>, real)> {
      if |vector| != dimension as int then Err(IllegalArgument(DimensionMismatchMessage(dimension as int, |vector|)))
      else if spaceType != Cosine then Ok((vector, 1.0))
      else
        var norm := lib.sqrt(SumSquares(vector));
        if norm == 0.0 then Ok((vector, 1.0)) else Ok((Scaled(vector, norm), norm))
    }

    method NormalizeVector(vector: seq<real>, lib: Lib) returns (r: Result<(seq<real>, real)>)
      ensures r == Normalized(vector, lib)
    {
      if |vector| != dimension as int {
        return Err(IllegalArgument(DimensionMismatchMessage(dimension as int, |vector|)));
      }
      if spaceType != Cosine {
        return Ok((vector, 1.0));
      }
      var sumSquares := 0.0;
      var i := 0;
      while i < |vector|
        invariant 0 <= i <= |vector|
        invariant sumSquares == SumSquares(vector[..i])
      {
        assert vector[..i + 1][..i] == vector[..i];
        sumSquares := sumSquares + vector[i] * vector[i];
        i := i + 1;
      }
      assert vector[..i] == vector;
      var norm := lib.sqrt(sumSquares);
      if norm == 0.0 {
        return Ok((vector, 1.0));
      }
      var normalized := new real[|vector|];
      i := 0;
      while i < |vector|
        invariant 0 <= i <= |vector|
        invariant forall k :: 0 <= k < i ==> normalized[k] == vector[k] / norm
      {
        normalized[i] := vector[i] / norm;
        i := i + 1;
      }
      assert normalized[..] == Scaled(vector, norm);
      return Ok((normalized[..], norm));
    }

    /** Every outcome keeps the length, and norm times each returned element
        gives back the input element. */
    lemma NormalizedReconstructs(vector: seq<real>, lib: Lib)
      requires Normalized(vector, lib).Ok?
      ensures var (v, norm) := Normalized(vector, lib).value;
        |v| == |vector| == dimension as int && forall i :: 0 <= i < |v| ==> v[i] * norm == vector[i]
    {
      var (v, norm) := Normalized(vector, lib).value;
      if v != vector {
        forall i | 0 <= i < |v| ensures v[i] * norm == vector[i] {
          assert v[i] == vector[i] / norm;
        }
      }
    }

    /** Cosine normalisation of a non-zero vector yields unit length, and the
        norm returned is the Euclidean length of the input. */
    lemma NormalizedUnitLength(vector: seq<real>, lib: Lib)
      requires SqrtLaw(lib) && spaceType == Cosine && |vector| == dimension as int && SumSquares(vector) != 0.0
      ensures Normalized(vector, lib).Ok?
      ensures var (v, norm) := Normalized(vector, lib).value;
        SumSquares(v) == 1.0 && norm > 0.0 && norm * norm == SumSquares(vector)
    {
      SumSquaresNonNegative(vector);
      var s := SumSquares(vector);
      var norm := lib.sqrt(s);
      assert norm >= 0.0 && norm * norm == s;
      PositiveRoot(norm);
      ScaledToUnit(vector, norm, s);
      assert Normalized(vector, lib) == Ok((Scaled(vector, norm), norm));
    }

    /** The input comes back unchanged with norm 1 exactly on a non-cosine
        index, for the zero vector, or for a vector already of unit length. */
    lemma NormalizedIdentity(vector: seq<real>, lib: Lib)
      requires SqrtLaw(lib) && |vector| == dimension as int
      ensures Normalized(vector, lib) == Ok((vector, 1.0)) <==>
        spaceType != Cosine || SumSquares(vector) == 0.0 || SumSquares(vector) == 1.0
    {
      var s := SumSquares(vector);
      var norm := lib.sqrt(s);
      if spaceType == Cosine && s == 0.0 {
        ZeroRoot(norm);
      } else if spaceType == Cosine {
        NormalizedUnitLength(vector, lib);
        assert Normalized(vector, lib) == Ok((Scaled(vector, norm), norm));
        if s == 1.0 {
          UnitRoot(norm);
          assert Scaled(vector, norm) == vector;
        } else {
          assert norm != 1.0;
        }
      }
    }

    /** Normalising a normalised vector changes nothing. */
    lemma NormalizedIdempotent(vector: seq<real>, lib: Lib)
      requires SqrtLaw(lib) && Normalized(vector, lib).Ok?
      ensures Normalized(Normalized(vector, lib).value.0, lib).Ok?
      ensures Normalized(Normalized(vector, lib).value.0, lib).value.0 == Normalized(vector, lib).value.0
    {
      var v := Normalized(vector, lib).value.0;
      NormalizedReconstructs(vector, lib);
      NormalizedIdentity(v, lib);
      if spaceType == Cosine && SumSquares(vector) != 0.0 {
        NormalizedUnitLength(vector, lib);
      } else {
        NormalizedIdentity(vector, lib);
      }
    }

    // -------------------------------------------------------------------------
    // upsert

    /** The checks upsert makes of one item's sparse arrays, a null array
        counting as empty. */
    predicate SparseAccepted(d: ItemData) {
      var indices := d.sparseIndices.GetOr([]);
      var values := d.sparseValues.GetOr([]);
      if IsHybrid() then
        && |indices| > 0 && |values| > 0 && |indices| == |values|
        && forall k :: 0 <= k < |indices| ==> 0 <= indices[k] < sparseDimension
      else |indices| == 0 && |values| == 0
    }

    /** The loop body of upsert for one item: normalisation, compressed meta,
        the sparse checks in order, the filter's JSON, and the Object[] of 7
        fields on a hybrid index or 5 otherwise. Items reach it only after
        the ids were validated, so the id is never null here. */
    function ItemTuple(d: ItemData, lib: Lib): Result<UpsertTuple> {
      var normalized :- Normalized(d.vector, lib);
      var metaData := JsonZip(Some(d.meta.GetOr(map[])), lib);
      var indices := d.sparseIndices.GetOr([]);
      var values := d.sparseValues.GetOr([]);
      var _ :- SparseCheck(indices, values);
      var filterJson := lib.toJson(JObj(d.filter.GetOr(map[])));
      Ok(UpsertTuple(d.id.GetOr(""), metaData, filterJson, normalized.1, normalized.0,
        if IsHybrid() then Some((indices, values)) else None))
    }

    /** The sparse checks of upsert, in order. */
    function SparseCheck(indices: seq<int32>, values: seq<real>): Result<()> {
      if !IsHybrid() && (|indices| > 0 || |values| > 0) then Err(IllegalArgument(DenseOnlyUpsertMessage))
      else if IsHybrid() && (|indices| == 0 || |values| == 0) then Err(IllegalArgument(BothSparseMessage))
      else if IsHybrid() && |indices| != |values| then
        Err(IllegalArgument(SparseLengthMessage(|indices|, |values|)))
      else if IsHybrid() && FirstOutOfRange(indices, sparseDimension as int).Some? then
        Err(IllegalArgument(SparseIndexMessage(FirstOutOfRange(indices, sparseDimension as int).value, sparseDimension as int)))
      else Ok(())
    }

    /** An item is accepted exactly when its vector has the index's dimension
        and its sparse arrays pass; the tuple then has 7 fields on a hybrid
        index and 5 otherwise, and carries the id, normalised vector, norm,
        compressed meta and filter JSON. */
    lemma ItemTupleAccepted(d: ItemData, lib: Lib)
      ensures ItemTuple(d, lib).Ok? <==> |d.vector| == dimension as int && SparseAccepted(d)
      ensures ItemTuple(d, lib).Ok? ==>
        var t := ItemTuple(d, lib).value;
        && t.Arity() == (if IsHybrid() then 7 else 5)
        && t.id == d.id.GetOr("")
        && (t.vector, t.norm) == Normalized(d.vector, lib).value
        && t.meta == JsonZip(Some(d.meta.GetOr(map[])), lib)
        && t.filter == lib.toJson(JObj(d.filter.GetOr(map[])))
        && (IsHybrid() ==> t.sparse == Some((d.sparseIndices.GetOr([]), d.sparseValues.GetOr([]))))
    {
    }

    /** The tuples of all items, in order; the first failing item decides. */
    function ItemTuples(items: seq<ItemData>, lib: Lib): Result<seq<UpsertTuple>> {
      if items == [] then Ok([])
      else
        var done :- ItemTuples(items[..|items| - 1], lib);
        var last :- ItemTuple(items[|items| - 1], lib);
        Ok(done + [last])
    }

    /** All items' tuples exist exactly when each item's does, one per item,
        in order. */
    lemma {:induction false} ItemTuplesOk(items: seq<ItemData>, lib: Lib)
      ensures var r := ItemTuples(items, lib);
        && (r.Ok? <==> forall i :: 0 <= i < |items| ==> ItemTuple(items[i], lib).Ok?)
        && (r.Ok? ==> |r.value| == |items|)
        && (r.Ok? ==> forall i :: 0 <= i < |items| ==> ItemTuple(items[i], lib) == Ok(r.value[i]))
    {
      if items != [] {
        var init := items[..|items| - 1];
        ItemTuplesOk(init, lib);
        ItemTuplesSnoc(items, lib);
      }
    }

    lemma ItemTuplesSnoc(items: seq<ItemData>, lib: Lib)
      requires items != []
      ensures var init := items[..|items| - 1];
        ItemTuples(items, lib) ==
          match ItemTuples(init, lib)
          case Err(e) => Err(e)
          case Ok(done) => (match ItemTuple(items[|items| - 1], lib) case Err(e) => Err(e) case Ok(last) => Ok(done + [last]))
      ensures forall i :: 0 <= i < |items| - 1 ==> items[..|items| - 1][i] == items[i]
    {
    }

    lemma {:induction false} ItemTuplesPrefixErr(items: seq<ItemData>, i: nat, lib: Lib)
      requires i <= |items| && ItemTuples(items[..i], lib).Err?
      ensures ItemTuples(items, lib) == ItemTuples(items[..i], lib)
      decreases |items|
    {
      if i < |items| {
        var init := items[..|items| - 1];
        assert init[..i] == items[..i];
        ItemTuplesPrefixErr(init, i, lib);
      } else {
        assert items[..i] == items;
      }
    }

    /** The ids upsert validates: a null id becomes "". */
    function UpsertIds(items: seq<ItemData>): (ids: seq<Option<string>>)
      ensures |ids| == |items|
    {
      seq(|items|, i requires 0 <= i < |items| => Some(items[i].id.GetOr("")))
    }

    /** upsert up to the request: the batch limit, then the ids, then every
        item's tuple. */
    function UpsertBatch(items: seq<ItemData>, lib: Lib): Result<seq<UpsertTuple>> {
      if |items| > MaxBatchSize then Err(IllegalArgument(BatchTooLargeMessage))
      else
        var _ :- CheckIds(UpsertIds(items));
        ItemTuples(items, lib)
    }

    /** The MessagePack body upsert sends. */
    function UpsertPayload(items: seq<ItemData>, lib: Lib): Result<seq<Token>> {
      var batch :- UpsertBatch(items, lib);
      Ok(BatchTokens(batch))
    }

    method BuildTuple(item: VectorItem, lib: Lib) returns (r: Result<UpsertTuple>)
      ensures r == ItemTuple(item.Data(), lib)
    {
      var result := NormalizeVector(item.vector, lib);
      if result.Err? {
        return Err(result.error);
      }
      var (normalizedVector, norm) := result.value;
      var metaData := JsonZip(Some(if item.meta.Some? then item.meta.value else map[]), lib);
      var sparseIndices := if item.sparseIndices.Some? then item.sparseIndices.value else [];
      var sparseValues := if item.sparseValues.Some? then item.sparseValues.value else [];
      var sparseOk := ValidateSparse(sparseIndices, sparseValues);
      if sparseOk.Err? {
        return Err(sparseOk.error);
      }
      var filterJson := lib.toJson(JObj(if item.filter.Some? then item.filter.value else map[]));
      var id := if item.id.Some? then item.id.value else "";
      if IsHybrid() {
        return Ok(UpsertTuple(id, metaData, filterJson, norm, normalizedVector, Some((sparseIndices, sparseValues))));
      }
      return Ok(UpsertTuple(id, metaData, filterJson, norm, normalizedVector, None));
    }

    /** The sparse checks of upsert's loop body, in the order it makes them. */
    method ValidateSparse(sparseIndices: seq<int32>, sparseValues: seq<real>) returns (r: Result<()>)
      ensures r == SparseCheck(sparseIndices, sparseValues)
    {
      if !IsHybrid() && (|sparseIndices| > 0 || |sparseValues| > 0) {
        return Err(IllegalArgument(DenseOnlyUpsertMessage));
      }
      if IsHybrid() {
        if |sparseIndices| == 0 || |sparseValues| == 0 {
          return Err(IllegalArgument(BothSparseMessage));
        }
        if |sparseIndices| != |sparseValues| {
          return Err(IllegalArgument(SparseLengthMessage(|sparseIndices|, |sparseValues|)));
        }
        var outOfRange := CheckSparseIndices(sparseIndices, sparseDimension as int);
        if outOfRange.Some? {
          return Err(IllegalArgument(SparseIndexMessage(outOfRange.value as int, sparseDimension as int)));
        }
      }
      return Ok(());
    }

    /** The index loop of upsert: the first sparse index outside
        [0, bound), at which the item is rejected. */
    method CheckSparseIndices(sparseIndices: seq<int32>, bound: int) returns (r: Option<int32>)
      ensures r == FirstOutOfRange(sparseIndices, bound)
    {
      var k := 0;
      while k < |sparseIndices|
        invariant 0 <= k <= |sparseIndices|
        invariant FirstOutOfRange(sparseIndices, bound) == FirstOutOfRange(sparseIndices[k..], bound)
      {
        var idx := sparseIndices[k];
        if idx < 0 || idx >= bound {
          return Some(idx);
        }
        assert sparseIndices[k..][1..] == sparseIndices[k + 1..];
        k := k + 1;
      }
      return None;
    }

    /** upsert up to the HTTP request: the MessagePack body it would send. */
    method Upsert(items: seq<VectorItem>, lib: Lib) returns (r: Result<seq<Token>>)
      ensures r == UpsertPayload(Snapshot(items), lib)
    {
      if |items| > MaxBatchSize {
        return Err(IllegalArgument(BatchTooLargeMessage));
      }
      var data := Snapshot(items);
      var ids := UpsertIds(data);
      var valid := ValidateVectorIds(ids);
      if valid.Err? {
        return Err(valid.error);
      }
      var vectorBatch := BuildTuples(items, data, lib);
      if vectorBatch.Err? {
        return Err(vectorBatch.error);
      }
      var serializedData := PackVectors(vectorBatch.value);
      UpsertPayloadOf(data, lib, vectorBatch.value);
      return Ok(serializedData);
    }

    /** The loop of upsert that turns every item into its tuple, stopping at
        the first item that fails. */
    method BuildTuples(items: seq<VectorItem>, ghost data: seq<ItemData>, lib: Lib) returns (r: Result<seq<UpsertTuple>>)
      requires data == Snapshot(items)
      ensures r == ItemTuples(data, lib)
    {
      var vectorBatch: seq<UpsertTuple> := [];
      var i := 0;
      while i < |items|
        invariant 0 <= i <= |items|
        invariant ItemTuples(data[..i], lib) == Ok(vectorBatch)
      {
        var tuple := BuildTuple(items[i], lib);
        assert items[i].Data() == data[i];
        ItemTuplesStep(data, i, lib);
        if tuple.Err? {
          ItemTuplesPrefixErr(data, i + 1, lib);
          return Err(tuple.error);
        }
        vectorBatch := vectorBatch + [tuple.value];
        i := i + 1;
      }
      assert data[..i] == data;
      return Ok(vectorBatch);
    }

    lemma ItemTuplesStep(items: seq<ItemData>, i: nat, lib: Lib)
      requires i < |items|
      ensures ItemTuples(items[..i + 1], lib) ==
        match ItemTuples(items[..i], lib)
        case Err(e) => Err(e)
        case Ok(done) => (match ItemTuple(items[i], lib) case Err(e) => Err(e) case Ok(last) => Ok(done + [last]))
    {
      assert items[..i + 1][..i] == items[..i];
    }

    lemma UpsertPayloadOf(items: seq<ItemData>, lib: Lib, batch: seq<UpsertTuple>)
      requires |items| <= MaxBatchSize && CheckIds(UpsertIds(items)).Ok?
      requires ItemTuples(items, lib) == Ok(batch)
      ensures UpsertPayload(items, lib) == Ok(BatchTokens(batch))
    {
    }

    /** upsert accepts a batch exactly when it holds at most 1000 items, every
        id is non-null, non-empty and unique, and every item passes its
        checks. */
    lemma UpsertAcceptedIff(items: seq<ItemData>, lib: Lib)
      ensures UpsertBatch(items, lib).Ok? <==>
        && |items| <= MaxBatchSize
        && (forall i :: 0 <= i < |items| ==> items[i].id.Some? && items[i].id.value != "")
        && (forall i, j :: 0 <= i < j < |items| ==> items[i].id != items[j].id)
        && (forall i :: 0 <= i < |items| ==> |items[i].vector| == dimension as int && SparseAccepted(items[i]))
    {
      UpsertIdsAccepted(items);
      ItemTuplesAccepted(items, lib);
    }

    /** The id check passes exactly when every id is present, non-empty and
        unique. */
    lemma UpsertIdsAccepted(items: seq<ItemData>)
      ensures CheckIds(UpsertIds(items)).Ok? <==>
        && (forall i :: 0 <= i < |items| ==> items[i].id.Some? && items[i].id.value != "")
        && (forall i, j :: 0 <= i < j < |items| ==> items[i].id != items[j].id)
    {
      var ids := UpsertIds(items);
      ValidateSucceedsIff(ids);
      assert forall k :: 0 <= k < |items| ==> ids[k] == Some(items[k].id.GetOr(""));
      var idsOk := forall k :: 0 <= k < |items| ==> items[k].id.Some? && items[k].id.value != "";
      if idsOk {
        assert forall k :: 0 <= k < |items| ==> ids[k] == items[k].id;
      } else {
        var k :| 0 <= k < |items| && !(items[k].id.Some? && items[k].id.value != "");
        assert ids[k] == Some("");
      }
    }

    /** Every item has its tuple exactly when every vector has the index's
        dimension and every sparse pair is accepted. */
    lemma ItemTuplesAccepted(items: seq<ItemData>, lib: Lib)
      ensures ItemTuples(items, lib).Ok? <==>
        forall i :: 0 <= i < |items| ==> |items[i].vector| == dimension as int && SparseAccepted(items[i])
    {
      ItemTuplesOk(items, lib);
      forall i | 0 <= i < |items|
        ensures ItemTuple(items[i], lib).Ok? <==> |items[i].vector| == dimension as int && SparseAccepted(items[i])
      {
        ItemTupleAccepted(items[i], lib);
      }
    }

    /** The sparse rules stated per index kind: a dense-only index rejects any
        non-empty sparse array, and a hybrid one rejects a missing side, a
        length mismatch and an index outside [0, sparseDimension). */
    lemma UpsertSparseRules(d: ItemData, lib: Lib)
      requires |d.vector| == dimension as int
      ensures !IsHybrid() ==>
        (ItemTuple(d, lib).Ok? <==> |d.sparseIndices.GetOr([])| == 0 && |d.sparseValues.GetOr([])| == 0)
      ensures !IsHybrid() && (|d.sparseIndices.GetOr([])| > 0 || |d.sparseValues.GetOr([])| > 0) ==>
        ItemTuple(d, lib) == Err(IllegalArgument(DenseOnlyUpsertMessage))
      ensures IsHybrid() && (|d.sparseIndices.GetOr([])| == 0 || |d.sparseValues.GetOr([])| == 0) ==>
        ItemTuple(d, lib) == Err(IllegalArgument(BothSparseMessage))
      ensures IsHybrid() && |d.sparseIndices.GetOr([])| > 0 && |d.sparseValues.GetOr([])| > 0
        && |d.sparseIndices.GetOr([])| != |d.sparseValues.GetOr([])|
        ==> ItemTuple(d, lib) == Err(IllegalArgument(SparseLengthMessage(|d.sparseIndices.GetOr([])|, |d.sparseValues.GetOr([])|)))
    {
      ItemTupleAccepted(d, lib);
    }

    /** An accepted batch is sent as one tuple per item, in input order. */
    lemma UpsertPayloadLayout(items: seq<ItemData>, lib: Lib)
      requires UpsertBatch(items, lib).Ok?
      ensures var batch := UpsertBatch(items, lib).value;
        && |batch| == |items|
        && UpsertPayload(items, lib) == Ok(BatchTokens(batch))
        && ReadUpsertBatch(BatchTokens(batch)) == Ok(batch)
        && forall i :: 0 <= i < |items| ==> ItemTuple(items[i], lib) == Ok(batch[i])
    {
      var batch := UpsertBatch(items, lib).value;
      ItemTuplesOk(items, lib);
      assert ItemTuples(items, lib) == Ok(batch);
      PackVectorsRoundTrip(batch);
    }

    /** What upsert stores, getVector gives back: the id, the normalised vector
        and its norm, the metadata (a null meta as the empty map), and the
        filter, which is null when it was null or empty. */
    lemma UpsertThenGetVector(d: ItemData, lib: Lib, trailing: seq<Token>)
      requires Sound(lib) && ItemTuple(d, lib).Ok?
      requires JsonRoundTrips(lib, JObj(d.meta.GetOr(map[]))) && JsonRoundTrips(lib, JObj(d.filter.GetOr(map[])))
      ensures var t := ItemTuple(d, lib).value;
        GetVectorOutcome(TupleTokens(t) + trailing, lib)
        == Ok(VectorInfo(t.id, Some(d.meta.GetOr(map[])),
                         if d.filter.GetOr(map[]) == map[] then None else Some(d.filter.value),
                         t.norm, t.vector))
    {
      var t := ItemTuple(d, lib).value;
      GetVectorOfPacked(t, trailing, lib);
      JsonRoundTrip(d.meta.GetOr(map[]), lib);
      var f := d.filter.GetOr(map[]);
      var text := lib.toJson(JObj(f));
      assert lib.parseJson(text) == Some(JObj(f));
      if f != map[] {
        assert lib.parseJson("{}") == Some(JObj(map[]));
        assert text != "{}";
        assert text != "";
      }
    }

    // -------------------------------------------------------------------------
    // query

    /** query up to the HTTP request: its checks in order, then the payload. */
    function QueryBody(q: QueryData, lib: Lib): Result<map<string, Json>> {
      if q.topK > MaxTopK || q.topK < 0 then Err(IllegalArgument(TopKMessage))
      else if q.ef > MaxEf then Err(IllegalArgument(EfMessage))
      else if q.vector.None? && !HasSparse(q) then Err(IllegalArgument(NoQueryVectorMessage))
      else if HasSparse(q) && !IsHybrid() then Err(IllegalArgument(DenseOnlyQueryMessage))
      else if HasSparse(q) && |q.sparseIndices.value| != |q.sparseValues.value| then
        Err(IllegalArgument(QuerySparseLengthMessage))
      else
        var base := map["k" := JInt(q.topK), "ef" := JInt(q.ef), "include_vectors" := JBool(q.includeVectors)];
        var withVector :-
          if q.vector.Some? then
            var normalized :- Normalized(q.vector.value, lib);
            Ok(base["vector" := Doubles(normalized.0)])
          else Ok(base);
        var withSparse :=
          if HasSparse(q) then
            withVector["sparse_indices" := Ints(q.sparseIndices.value)]["sparse_values" := Doubles(q.sparseValues.value)]
          else withVector;
        Ok(if q.filter.Some? then withSparse["filter" := JStr(lib.toJson(FilterJson(q.filter.value)))] else withSparse)
    }

    method BuildQueryBody(options: QueryOptions, lib: Lib) returns (r: Result<map<string, Json>>)
      ensures r == QueryBody(options.Data(), lib)
    {
      if options.topK > MaxTopK || options.topK < 0 {
        return Err(IllegalArgument(TopKMessage));
      }
      if options.ef > MaxEf {
        return Err(IllegalArgument(EfMessage));
      }
      var hasSparse := options.sparseIndices.Some? && |options.sparseIndices.value| > 0
        && options.sparseValues.Some? && |options.sparseValues.value| > 0;
      var hasDense := options.vector.Some?;
      if !hasDense && !hasSparse {
        return Err(IllegalArgument(NoQueryVectorMessage));
      }
      if hasSparse && !IsHybrid() {
        return Err(IllegalArgument(DenseOnlyQueryMessage));
      }
      if hasSparse && |options.sparseIndices.value| != |options.sparseValues.value| {
        return Err(IllegalArgument(QuerySparseLengthMessage));
      }
      var data: map<string, Json> := map[];
      data := data["k" := JInt(options.topK)];
      data := data["ef" := JInt(options.ef)];
      data := data["include_vectors" := JBool(options.includeVectors)];
      if hasDense {
        var result := NormalizeVector(options.vector.value, lib);
        if result.Err? {
          return Err(result.error);
        }
        data := data["vector" := Doubles(result.value.0)];
      }
      if hasSparse {
        data := data["sparse_indices" := Ints(options.sparseIndices.value)];
        data := data["sparse_values" := Doubles(options.sparseValues.value)];
      }
      if options.filter.Some? {
        data := data["filter" := JStr(lib.toJson(FilterJson(options.filter.value)))];
      }
      return Ok(data);
    }

    /** query validation: topK in [0, 512], ef at most 1024 and not bounded
        below, a dense vector or a sparse pair with both sides non-empty, the
        pair only on a hybrid index and with equal lengths, and a dense
        vector of the index's dimension. Sparse indices are not range-checked. */
    lemma QueryAcceptedIff(q: QueryData, lib: Lib)
      ensures QueryBody(q, lib).Ok? <==>
        && 0 <= q.topK <= MaxTopK
        && q.ef <= MaxEf
        && (q.vector.Some? || HasSparse(q))
        && (HasSparse(q) ==> IsHybrid() && |q.sparseIndices.value| == |q.sparseValues.value|)
        && (q.vector.Some? ==> |q.vector.value| == dimension as int)
    {
    }

    /** The payload always has k, ef and include_vectors; it has the
        normalised vector exactly when a dense vector is given, the sparse
        arrays exactly when the pair is present, and the filter JSON exactly
        when the filter is non-null. */
    lemma QueryPayloadShape(q: QueryData, lib: Lib)
      requires QueryBody(q, lib).Ok?
      ensures var data := QueryBody(q, lib).value;
        && data["k"] == JInt(q.topK) && data["ef"] == JInt(q.ef) && data["include_vectors"] == JBool(q.includeVectors)
        && ("vector" in data <==> q.vector.Some?)
        && (q.vector.Some? ==> data["vector"] == Doubles(Normalized(q.vector.value, lib).value.0))
        && ("sparse_indices" in data <==> HasSparse(q)) && ("sparse_values" in data <==> HasSparse(q))
        && (HasSparse(q) ==>
              data["sparse_indices"] == Ints(q.sparseIndices.value) && data["sparse_values"] == Doubles(q.sparseValues.value))
        && ("filter" in data <==> q.filter.Some?)
        && (q.filter.Some? ==> data["filter"] == JStr(lib.toJson(FilterJson(q.filter.value))))
        && data.Keys <= {"k", "ef", "include_vectors", "vector", "sparse_indices", "sparse_values", "filter"}
    {
      var base := map["k" := JInt(q.topK), "ef" := JInt(q.ef), "include_vectors" := JBool(q.includeVectors)];
      var withVector := if q.vector.Some? then base["vector" := Doubles(Normalized(q.vector.value, lib).value.0)] else base;
      var withSparse :=
        if HasSparse(q) then
          withVector["sparse_indices" := Ints(q.sparseIndices.value)]["sparse_values" := Doubles(q.sparseValues.value)]
        else withVector;
      assert QueryBody(q, lib).value
        == if q.filter.Some? then withSparse["filter" := JStr(lib.toJson(FilterJson(q.filter.value)))] else withSparse;
    }

    /** A sparse pair with one side empty counts as no sparse search: without
        a dense vector the query is rejected, with one it carries no sparse
        arrays. */
    lemma OneSidedSparseIsIgnored(q: QueryData, lib: Lib)
      requires 0 <= q.topK <= MaxTopK && q.ef <= MaxEf
      requires q.sparseIndices.Some? && |q.sparseIndices.value| > 0 && q.sparseValues == Some([])
      ensures q.vector.None? ==> QueryBody(q, lib) == Err(IllegalArgument(NoQueryVectorMessage))
      ensures QueryBody(q, lib).Ok? ==> "sparse_indices" !in QueryBody(q, lib).value
    {
    }

    method MapQueryResults(decoded: seq<ResultTuple>, includeVectors: bool, lib: Lib) returns (r: Result<seq<QueryResult>>)
      ensures r == MappedResults(decoded, includeVectors, lib)
    {
      var results: seq<QueryResult> := [];
      var i := 0;
      while i < |decoded|
        invariant 0 <= i <= |decoded|
        invariant MappedResults(decoded[..i], includeVectors, lib) == Ok(results)
      {
        var tuple := decoded[i];
        var meta := JsonUnzip(Some(tuple.meta), None, lib);
        var filter: Option<MetaMap> := None;
        assert decoded[..i + 1][..i] == decoded[..i];
        if tuple.filter != "" && tuple.filter != "{}" {
          var parsedFilter := FromJsonMap(tuple.filter, lib);
          if parsedFilter.Err? {
            MappedResultsPrefixErr(decoded, i + 1, includeVectors, lib);
            return Err(parsedFilter.error);
          }
          filter := parsedFilter.value;
        }
        var vector := if includeVectors && tuple.size > 5 then tuple.vector else None;
        var result := QueryResult(tuple.id, tuple.similarity, 1.0 - tuple.similarity, meta, tuple.norm, filter, vector);
        assert MappedResult(tuple, includeVectors, lib) == Ok(result);
        results := results + [result];
        i := i + 1;
      }
      assert decoded[..i] == decoded;
      return Ok(results);
    }

    /** query as a whole, with the response body as a parameter. */
    function QueryOutcome(q: QueryData, response: seq<Token>, lib: Lib): Result<(map<string, Json>, seq<QueryResult>)> {
      var body :- QueryBody(q, lib);
      var decoded :- DecodeQueryResults(response);
      var results :- MappedResults(decoded, q.includeVectors, lib);
      Ok((body, results))
    }

    /** query up to and after the HTTP exchange: the JSON payload sent and the
        results made of the response body. */
    method Query(options: QueryOptions, response: seq<Token>, lib: Lib)
      returns (r: Result<(map<string, Json>, seq<QueryResult>)>)
      ensures r == QueryOutcome(options.Data(), response, lib)
    {
      var body := BuildQueryBody(options, lib);
      if body.Err? {
        return Err(body.error);
      }
      var decoded := UnpackQueryResults(response);
      if decoded.Err? {
        return Err(decoded.error);
      }
      var results := MapQueryResults(decoded.value, options.includeVectors, lib);
      if results.Err? {
        return Err(results.error);
      }
      return Ok((body.value, results.value));
    }

    /** Results keep the server's order; each has distance 1 - similarity,
        a vector only when vectors were asked for and sent, and no filter
        when the filter string was empty or "{}". */
    lemma QueryResultsMapping(q: QueryData, ts: seq<ResultTuple>, trailing: seq<Token>, lib: Lib)
      requires QueryBody(q, lib).Ok?
      requires forall k :: 0 <= k < |ts| ==> WellFormed(ts[k]) && ParseFilter(ts[k].filter, lib).Ok?
      ensures QueryOutcome(q, [ArrayHeader(|ts|)] + (ResultsTokens(ts) + trailing), lib).Ok?
      ensures var results := QueryOutcome(q, [ArrayHeader(|ts|)] + (ResultsTokens(ts) + trailing), lib).value.1;
        && |results| == |ts|
        && forall i :: 0 <= i < |ts| ==>
          && results[i].id == ts[i].id
          && results[i].similarity == ts[i].similarity
          && results[i].distance == 1.0 - ts[i].similarity
          && results[i].norm == ts[i].norm
          && results[i].meta == JsonUnzip(Some(ts[i].meta), None, lib)
          && results[i].vector == (if q.includeVectors then ts[i].vector else None)
          && (ts[i].filter == "" || ts[i].filter == "{}" ==> results[i].filter == None)
    {
      QueryResultsRoundTrip(ts, trailing);
      MappedResultsFields(ts, q.includeVectors, lib);
    }

    // -------------------------------------------------------------------------
    // getVector

    method GetVector(response: seq<Token>, lib: Lib) returns (r: Result<VectorInfo>)
      ensures r == GetVectorOutcome(response, lib)
    {
      var vectorObj := UnpackVector(response);
      if vectorObj.Err? {
        return Err(vectorObj.error);
      }
      var t := vectorObj.value;
      var meta := JsonUnzip(Some(t.meta), None, lib);
      var filter: Option<MetaMap> := None;
      if t.filter != "" && t.filter != "{}" {
        var parsedFilter := FromJsonMap(t.filter, lib);
        if parsedFilter.Err? {
          return Err(parsedFilter.error);
        }
        filter := parsedFilter.value;
      }
      return Ok(VectorInfo(t.id, meta, filter, t.norm, t.vector));
    }

    /** getVector on the record packVectorTuple wrote: it fails only when the
        stored filter text is not a JSON object or null, and then with the
        deserialisation error; otherwise it gives back the id, norm and vector
        as stored, the unzipped metadata, and no filter for "" or "{}". */
    lemma GetVectorOfPacked(t: UpsertTuple, trailing: seq<Token>, lib: Lib)
      ensures GetVectorOutcome(TupleTokens(t) + trailing, lib).Ok? <==> ParseFilter(t.filter, lib).Ok?
      ensures GetVectorOutcome(TupleTokens(t) + trailing, lib).Err? ==>
        GetVectorOutcome(TupleTokens(t) + trailing, lib).error == Endee(DeserializeFailure)
      ensures GetVectorOutcome(TupleTokens(t) + trailing, lib).Ok? ==>
        var v := GetVectorOutcome(TupleTokens(t) + trailing, lib).value;
        && v.id == t.id && v.norm == t.norm && v.vector == t.vector
        && v.meta == JsonUnzip(Some(t.meta), None, lib)
        && (t.filter == "" || t.filter == "{}" ==> v.filter.None?)
    {
      VectorRoundTrip(t, trailing);
    }
  }
}
