/** The io.endee.client.types package: the two wire enums, the three option
    objects with their builders, and the plain result records. */
module Types {
  import opened Base
  import opened Exceptions

  // ---------------------------------------------------------------------------
  // Enum lookup shared by SpaceType.fromValue and Precision.fromValue: the
  // first constant, in declaration order, whose wire string equals the
  // argument ignoring case.

  function FindIgnoringCase<T>(candidates: seq<T>, wire: T -> string, value: string): (r: Option<T>)
    ensures r.Some? ==> r.value in candidates && EqualsIgnoreCase(wire(r.value), value)
    ensures r.None? ==> forall t :: t in candidates ==> !EqualsIgnoreCase(wire(t), value)
  {
    if candidates == [] then None
    else if EqualsIgnoreCase(wire(candidates[0]), value) then Some(candidates[0])
    else FindIgnoringCase(candidates[1..], wire, value)
  }

  lemma {:induction false} EqualsIgnoreCaseTransitive(a: string, b: string, c: string)
    requires EqualsIgnoreCase(a, b) && EqualsIgnoreCase(b, c)
    ensures EqualsIgnoreCase(a, c)
  {
  }

  /** When the wire strings are lower case and pairwise distinct, any casing of
      the wire string of t finds t. */
  lemma {:induction false} FindIgnoringCaseFinds<T>(candidates: seq<T>, wire: T -> string, t: T, value: string)
    requires t in candidates
    requires forall u :: u in candidates ==> ToLower(wire(u)) == wire(u)
    requires forall u, v :: u in candidates && v in candidates && wire(u) == wire(v) ==> u == v
    requires EqualsIgnoreCase(value, wire(t))
    ensures FindIgnoringCase(candidates, wire, value) == Some(t)
  {
    var c := candidates[0];
    if EqualsIgnoreCase(wire(c), value) {
      EqualsIgnoreCaseTransitive(wire(c), value, wire(t));
      assert ToLower(wire(c)) == wire(c) && ToLower(wire(t)) == wire(t);
      assert forall i :: 0 <= i < |wire(c)| ==> wire(c)[i] == ToLowerChar(wire(c)[i]);
      assert forall i :: 0 <= i < |wire(t)| ==> wire(t)[i] == ToLowerChar(wire(t)[i]);
      assert wire(c) == wire(t);
    } else {
      assert t != c;
      assert t in candidates[1..];
      FindIgnoringCaseFinds(candidates[1..], wire, t, value);
    }
  }

  // ---------------------------------------------------------------------------
  // SpaceType

  datatype SpaceType = Cosine | L2 | IP {
    /** getValue(), which toString() also returns. */
    function Value(): string {
      match this
      case Cosine => "cosine"
      case L2 => "l2"
      case IP => "ip"
    }
  }

  /** SpaceType.values(), in declaration order. */
  const SpaceTypes: seq<SpaceType> := [Cosine, L2, IP]

  function SpaceTypeWire(t: SpaceType): string {
    t.Value()
  }

  function SpaceTypeFromValue(value: string): Result<SpaceType> {
    match FindIgnoringCase(SpaceTypes, SpaceTypeWire, value)
    case Some(t) => Ok(t)
    case None => Err(IllegalArgument("Unknown space type: " + value))
  }

  /** Exactly three constants, with three distinct lower-case wire strings. */
  lemma SpaceTypeConstants()
    ensures forall t: SpaceType :: t in SpaceTypes
    ensures |SpaceTypes| == 3
    ensures [Cosine.Value(), L2.Value(), IP.Value()] == ["cosine", "l2", "ip"]
    ensures forall t: SpaceType, u: SpaceType :: t.Value() == u.Value() ==> t == u
    ensures forall t: SpaceType :: ToLower(t.Value()) == t.Value()
  {
    forall t: SpaceType ensures t in SpaceTypes {
      assert t == SpaceTypes[0] || t == SpaceTypes[1] || t == SpaceTypes[2];
    }
  }

  /** fromValue ignores case: every casing of a wire string gives its constant. */
  lemma SpaceTypeFromValueIgnoresCase(t: SpaceType, value: string)
    requires EqualsIgnoreCase(value, t.Value())
    ensures SpaceTypeFromValue(value) == Ok(t)
  {
    SpaceTypeConstants();
    FindIgnoringCaseFinds(SpaceTypes, SpaceTypeWire, t, value);
  }

  /** fromValue(getValue()) is the identity on the constants. */
  lemma SpaceTypeRoundTrip(t: SpaceType)
    ensures SpaceTypeFromValue(t.Value()) == Ok(t)
  {
    SpaceTypeFromValueIgnoresCase(t, t.Value());
  }

  /** fromValue succeeds exactly on the casings of the three wire strings and
      otherwise throws IllegalArgumentException naming the argument. */
  lemma SpaceTypeFromValueUnknown(value: string)
    ensures SpaceTypeFromValue(value).Ok? <==> exists t: SpaceType :: EqualsIgnoreCase(value, t.Value())
    ensures SpaceTypeFromValue(value).Err? ==>
      SpaceTypeFromValue(value) == Err(IllegalArgument("Unknown space type: " + value))
  {
    if exists t: SpaceType :: EqualsIgnoreCase(value, t.Value()) {
      var t: SpaceType :| EqualsIgnoreCase(value, t.Value());
      SpaceTypeFromValueIgnoresCase(t, value);
    } else {
      assert forall t :: t in SpaceTypes ==> !EqualsIgnoreCase(SpaceTypeWire(t), value);
    }
  }

  // ---------------------------------------------------------------------------
  // Precision

  datatype Precision = Binary | Int8D | Int16D | Float32 | Float16 {
    /** getValue(), which toString() also returns. */
    function Value(): string {
      match this
      case Binary => "binary"
      case Int8D => "int8d"
      case Int16D => "int16d"
      case Float32 => "float32"
      case Float16 => "float16"
    }
  }

  /** Precision.values(), in declaration order. */
  const Precisions: seq<Precision> := [Binary, Int8D, Int16D, Float32, Float16]

  function PrecisionWire(p: Precision): string {
    p.Value()
  }

  function PrecisionFromValue(value: string): Result<Precision> {
    match FindIgnoringCase(Precisions, PrecisionWire, value)
    case Some(p) => Ok(p)
    case None => Err(IllegalArgument("Unknown precision: " + value))
  }

  /** Exactly five constants, with five distinct lower-case wire strings. */
  lemma PrecisionConstants()
    ensures forall p: Precision :: p in Precisions
    ensures |Precisions| == 5
    ensures [Binary.Value(), Int8D.Value(), Int16D.Value(), Float32.Value(), Float16.Value()]
         == ["binary", "int8d", "int16d", "float32", "float16"]
    ensures forall p: Precision, q: Precision :: p.Value() == q.Value() ==> p == q
    ensures forall p: Precision :: ToLower(p.Value()) == p.Value()
  {
    forall p: Precision ensures p in Precisions && ToLower(p.Value()) == p.Value() {
      assert p == Precisions[0] || p == Precisions[1] || p == Precisions[2]
        || p == Precisions[3] || p == Precisions[4];
      PrecisionLowerCase(p);
    }
  }

  lemma PrecisionLowerCase(p: Precision)
    ensures ToLower(p.Value()) == p.Value()
  {
    var v := p.Value();
    assert forall i :: 0 <= i < |v| ==> ToLowerChar(v[i]) == v[i];
  }

  lemma PrecisionFromValueIgnoresCase(p: Precision, value: string)
    requires EqualsIgnoreCase(value, p.Value())
    ensures PrecisionFromValue(value) == Ok(p)
  {
    PrecisionConstants();
    FindIgnoringCaseFinds(Precisions, PrecisionWire, p, value);
  }

  lemma PrecisionRoundTrip(p: Precision)
    ensures PrecisionFromValue(p.Value()) == Ok(p)
  {
    PrecisionFromValueIgnoresCase(p, p.Value());
  }

  lemma PrecisionFromValueUnknown(value: string)
    ensures PrecisionFromValue(value).Ok? <==> exists p: Precision :: EqualsIgnoreCase(value, p.Value())
    ensures PrecisionFromValue(value).Err? ==>
      PrecisionFromValue(value) == Err(IllegalArgument("Unknown precision: " + value))
  {
    if exists p: Precision :: EqualsIgnoreCase(value, p.Value()) {
      var p: Precision :| EqualsIgnoreCase(value, p.Value());
      PrecisionFromValueIgnoresCase(p, value);
    } else {
      assert forall p :: p in Precisions ==> !EqualsIgnoreCase(PrecisionWire(p), value);
    }
  }

  // ---------------------------------------------------------------------------
  // QueryOptions and its Builder

  class QueryOptions {
    var vector: Option<seq<real>>
    var topK: int32
    var filter: Option<seq<MetaMap>>
    var ef: int32
    var includeVectors: bool
    var sparseIndices: Option<seq<int32>>
    var sparseValues: Option<seq<real>>

    constructor ()
      ensures vector == None && filter == None && sparseIndices == None && sparseValues == None
      ensures topK == 0 && ef == 128 && !includeVectors
    {
      vector := None;
      topK := 0;
      filter := None;
      ef := 128;
      includeVectors := false;
      sparseIndices := None;
      sparseValues := None;
    }

    /** The options' current field values. */
    function Data(): QueryData
      reads this
    {
      QueryData(vector, topK, filter, ef, includeVectors, sparseIndices, sparseValues)
    }
  }

  /** The fields of a QueryOptions at one moment. */
  datatype QueryData = QueryData(
    vector: Option<seq<real>>,
    topK: int32,
    filter: Option<seq<MetaMap>>,
    ef: int32,
    includeVectors: bool,
    sparseIndices: Option<seq<int32>>,
    sparseValues: Option<seq<real>>)

  /** QueryOptions.Builder: every setter writes one field of the one shared
      options object (its frame names that field alone) and returns the builder. */
  class QueryOptionsBuilder {
    const options: QueryOptions

    constructor ()
      ensures fresh(options)
      ensures options.vector == None && options.filter == None
      ensures options.sparseIndices == None && options.sparseValues == None
      ensures options.topK == 0 && options.ef == 128 && !options.includeVectors
    {
      options := new QueryOptions();
    }

    method Vector(vector: Option<seq<real>>) returns (b: QueryOptionsBuilder)
      modifies options`vector
      ensures b == this && options.vector == vector
    {
      options.vector := vector;
      b := this;
    }

    method TopK(topK: int32) returns (b: QueryOptionsBuilder)
      modifies options`topK
      ensures b == this && options.topK == topK
    {
      options.topK := topK;
      b := this;
    }

    method Filter(filter: Option<seq<MetaMap>>) returns (b: QueryOptionsBuilder)
      modifies options`filter
      ensures b == this && options.filter == filter
    {
      options.filter := filter;
      b := this;
    }

    method Ef(ef: int32) returns (b: QueryOptionsBuilder)
      modifies options`ef
      ensures b == this && options.ef == ef
    {
      options.ef := ef;
      b := this;
    }

    method IncludeVectors(includeVectors: bool) returns (b: QueryOptionsBuilder)
      modifies options`includeVectors
      ensures b == this && options.includeVectors == includeVectors
    {
      options.includeVectors := includeVectors;
      b := this;
    }

    method SparseIndices(sparseIndices: Option<seq<int32>>) returns (b: QueryOptionsBuilder)
      modifies options`sparseIndices
      ensures b == this && options.sparseIndices == sparseIndices
    {
      options.sparseIndices := sparseIndices;
      b := this;
    }

    method SparseValues(sparseValues: Option<seq<real>>) returns (b: QueryOptionsBuilder)
      modifies options`sparseValues
      ensures b == this && options.sparseValues == sparseValues
    {
      options.sparseValues := sparseValues;
      b := this;
    }

    /** build() hands out the builder's own options object, not a copy. */
    method Build() returns (o: QueryOptions)
      ensures o == options
    {
      o := options;
    }
  }

  // ---------------------------------------------------------------------------
  // CreateIndexOptions and its Builder

  class CreateIndexOptions {
    const name: Option<string>
    const dimension: int32
    var spaceType: SpaceType
    var m: int32
    var efCon: int32
    var precision: Precision
    var version: Option<int32>
    var sparseDimension: Option<int32>

    constructor (name: Option<string>, dimension: int32)
      ensures this.name == name && this.dimension == dimension
      ensures spaceType == Cosine && m == 16 && efCon == 128 && precision == Int8D
      ensures version == None && sparseDimension == None
    {
      this.name := name;
      this.dimension := dimension;
      spaceType := Cosine;
      m := 16;
      efCon := 128;
      precision := Int8D;
      version := None;
      sparseDimension := None;
    }

    /** The options' current field values. */
    function Data(): CreateIndexData
      reads this
    {
      CreateIndexData(name, dimension, spaceType, m, efCon, precision, version, sparseDimension)
    }
  }

  /** A snapshot of a CreateIndexOptions object. */
  datatype CreateIndexData = CreateIndexData(
    name: Option<string>, dimension: int32, spaceType: SpaceType, m: int32, efCon: int32,
    precision: Precision, version: Option<int32>, sparseDimension: Option<int32>)

  /** CreateIndexOptions.Builder: name and dimension are constants of the
      options object; every setter writes one of the other fields. */
  class CreateIndexOptionsBuilder {
    const options: CreateIndexOptions

    constructor (name: Option<string>, dimension: int32)
      ensures fresh(options)
      ensures options.name == name && options.dimension == dimension
      ensures options.spaceType == Cosine && options.m == 16 && options.efCon == 128
      ensures options.precision == Int8D && options.version == None && options.sparseDimension == None
    {
      options := new CreateIndexOptions(name, dimension);
    }

    method SpaceType(spaceType: SpaceType) returns (b: CreateIndexOptionsBuilder)
      modifies options`spaceType
      ensures b == this && options.spaceType == spaceType
    {
      options.spaceType := spaceType;
      b := this;
    }

    method M(m: int32) returns (b: CreateIndexOptionsBuilder)
      modifies options`m
      ensures b == this && options.m == m
    {
      options.m := m;
      b := this;
    }

    method EfCon(efCon: int32) returns (b: CreateIndexOptionsBuilder)
      modifies options`efCon
      ensures b == this && options.efCon == efCon
    {
      options.efCon := efCon;
      b := this;
    }

    method Precision(precision: Precision) returns (b: CreateIndexOptionsBuilder)
      modifies options`precision
      ensures b == this && options.precision == precision
    {
      options.precision := precision;
      b := this;
    }

    method Version(version: Option<int32>) returns (b: CreateIndexOptionsBuilder)
      modifies options`version
      ensures b == this && options.version == version
    {
      options.version := version;
      b := this;
    }

    method SparseDimension(sparseDimension: Option<int32>) returns (b: CreateIndexOptionsBuilder)
      modifies options`sparseDimension
      ensures b == this && options.sparseDimension == sparseDimension
    {
      options.sparseDimension := sparseDimension;
      b := this;
    }

    method Build() returns (o: CreateIndexOptions)
      ensures o == options
    {
      o := options;
    }
  }

  // ---------------------------------------------------------------------------
  // VectorItem and its Builder

  class VectorItem {
    const id: Option<string>
    const vector: seq<real>
    var meta: Option<MetaMap>
    var filter: Option<MetaMap>
    var sparseIndices: Option<seq<int32>>
    var sparseValues: Option<seq<real>>

    constructor (id: Option<string>, vector: seq<real>)
      ensures this.id == id && this.vector == vector
      ensures meta == None && filter == None && sparseIndices == None && sparseValues == None
    {
      this.id := id;
      this.vector := vector;
      meta := None;
      filter := None;
      sparseIndices := None;
      sparseValues := None;
    }

    /** The item's current field values. */
    function Data(): ItemData
      reads this
    {
      ItemData(id, vector, meta, filter, sparseIndices, sparseValues)
    }
  }

  /** The fields of a VectorItem at one moment. */
  datatype ItemData = ItemData(
    id: Option<string>,
    vector: seq<real>,
    meta: Option<MetaMap>,
    filter: Option<MetaMap>,
    sparseIndices: Option<seq<int32>>,
    sparseValues: Option<seq<real>>)

  class VectorItemBuilder {
    const item: VectorItem

    constructor (id: Option<string>, vector: seq<real>)
      ensures fresh(item)
      ensures item.id == id && item.vector == vector
      ensures item.meta == None && item.filter == None
      ensures item.sparseIndices == None && item.sparseValues == None
    {
      item := new VectorItem(id, vector);
    }

    method Meta(meta: Option<MetaMap>) returns (b: VectorItemBuilder)
      modifies item`meta
      ensures b == this && item.meta == meta
    {
      item.meta := meta;
      b := this;
    }

    method Filter(filter: Option<MetaMap>) returns (b: VectorItemBuilder)
      modifies item`filter
      ensures b == this && item.filter == filter
    {
      item.filter := filter;
      b := this;
    }

    method SparseIndices(sparseIndices: Option<seq<int32>>) returns (b: VectorItemBuilder)
      modifies item`sparseIndices
      ensures b == this && item.sparseIndices == sparseIndices
    {
      item.sparseIndices := sparseIndices;
      b := this;
    }

    method SparseValues(sparseValues: Option<seq<real>>) returns (b: VectorItemBuilder)
      modifies item`sparseValues
      ensures b == this && item.sparseValues == sparseValues
    {
      item.sparseValues := sparseValues;
      b := this;
    }

    method Build() returns (v: VectorItem)
      ensures v == item
    {
      v := item;
    }
  }

  // ---------------------------------------------------------------------------
  // Plain records the client fills in.

  /** IndexInfo, as Endee.getIndex fills it from the service's JSON. */
  datatype IndexInfo = IndexInfo(
    spaceType: Option<SpaceType>,
    dimension: int32,
    totalElements: int,
    precision: Option<Precision>,
    m: int32,
    sparseDimension: Option<int32>)

  /** QueryResult; meta and filter are None where the Java field stays null. */
  datatype QueryResult = QueryResult(
    id: string,
    similarity: real,
    distance: real,
    meta: Option<MetaMap>,
    norm: real,
    filter: Option<MetaMap>,
    vector: Option<seq<real>>)

  /** VectorInfo, as Index.getVector fills it. */
  datatype VectorInfo = VectorInfo(
    id: string,
    meta: Option<MetaMap>,
    filter: Option<MetaMap>,
    norm: real,
    vector: seq<real>)
}
