/** The Endee client object: the connection settings derived from the auth
    token, and the checks and request body of createIndex. */
module EndeeClient {
  import opened Base
  import opened Exceptions
  import opened Types
  import opened ValidationUtils

  const MaxDimension: int := 10000
  const DefaultBaseUrl: string := "http://127.0.0.1:8080/api/v1"

  const InvalidNameMessage: string :=
    "Invalid index name. Index name must be alphanumeric and can contain underscores and less than 48 characters"
  const DimensionTooLargeMessage: string := "Dimension cannot be greater than 10000"
  const NegativeSparseDimensionMessage: string := "Sparse dimension cannot be less than 0"

  /** The space-type strings the server understands. */
  const KnownSpaceTypes: seq<string> := ["cosine", "l2", "ip"]

  // ---------------------------------------------------------------------------
  // String.split(":")

  /** Every field between the colons of s, empty ones included: n colons give
      n + 1 fields. */
  function SplitAll(s: string): (r: seq<string>)
    ensures |r| >= 1
  {
    if s == [] then [""]
    else if s[0] == ':' then [""] + SplitAll(s[1..])
    else
      var t := SplitAll(s[1..]);
      [[s[0]] + t[0]] + t[1..]
  }

  /** The fields glued back together with a colon between neighbours. */
  function Join(parts: seq<string>): string
    requires |parts| >= 1
  {
    if |parts| == 1 then parts[0] else parts[0] + ":" + Join(parts[1..])
  }

  predicate ColonFree(s: string) {
    forall i :: 0 <= i < |s| ==> s[i] != ':'
  }

  /** The list with its trailing empty strings removed. */
  function DropTrailingEmpty(parts: seq<string>): (r: seq<string>)
    ensures |r| <= |parts| && r == parts[..|r|]
    ensures forall k :: |r| <= k < |parts| ==> parts[k] == ""
    ensures r == [] || r[|r| - 1] != ""
  {
    if |parts| > 0 && parts[|parts| - 1] == "" then DropTrailingEmpty(parts[..|parts| - 1]) else parts
  }

  /** Java's s.split(":"): an input without a colon comes back whole, and
      otherwise the fields are found and the trailing empty ones dropped.
      The two rules disagree only on the empty string. */
  function Split(s: string): (r: seq<string>)
    ensures s == "" ==> r == [""]
    ensures s != "" && ColonFree(s) ==> r == [s]
    ensures s != "" ==> |r| <= |SplitAll(s)| && r == SplitAll(s)[..|r|] && (r == [] || r[|r| - 1] != "")
    ensures s != "" ==> forall k :: |r| <= k < |SplitAll(s)| ==> SplitAll(s)[k] == ""
    ensures forall k :: 0 <= k < |r| ==> ColonFree(r[k])
  {
    if s == "" then [""]
    else
      JoinSplitAll(s);
      if ColonFree(s) then SplitAllColonFree(s); DropTrailingEmpty(SplitAll(s))
      else DropTrailingEmpty(SplitAll(s))
  }

  /** Splitting and joining again gives back the input, and no field holds a colon. */
  lemma {:induction false} JoinSplitAll(s: string)
    ensures Join(SplitAll(s)) == s
    ensures forall k :: 0 <= k < |SplitAll(s)| ==> ColonFree(SplitAll(s)[k])
  {
    if s != [] {
      JoinSplitAll(s[1..]);
      var t := SplitAll(s[1..]);
      if s[0] == ':' {
        assert SplitAll(s) == [""] + t;
        assert ([""] + t)[1..] == t;
        assert s == [s[0]] + s[1..];
      } else {
        var r := [[s[0]] + t[0]] + t[1..];
        assert SplitAll(s) == r;
        assert ColonFree(r[0]) by {
          forall i | 0 <= i < |r[0]| ensures r[0][i] != ':' {
            if i > 0 {
              assert r[0][i] == t[0][i - 1];
            }
          }
        }
        assert forall k :: 1 <= k < |r| ==> r[k] == t[k];
        if |t| == 1 {
          assert s == [s[0]] + s[1..];
        } else {
          assert r[1..] == t[1..];
          assert Join(r) == [s[0]] + (t[0] + ":" + Join(t[1..]));
          assert s == [s[0]] + s[1..];
        }
      }
    }
  }

  lemma {:induction false} SplitAllColonFree(a: string)
    requires ColonFree(a)
    ensures SplitAll(a) == [a]
  {
    if a != [] {
      assert ColonFree(a[1..]) by {
        forall i | 0 <= i < |a[1..]| ensures a[1..][i] != ':' {
          assert a[1..][i] == a[i + 1];
        }
      }
      SplitAllColonFree(a[1..]);
      assert [a[0]] + a[1..] == a;
    }
  }

  /** A colon between two strings separates their fields. */
  lemma {:induction false} SplitAllAppend(x: string, y: string)
    ensures SplitAll(x + ":" + y) == SplitAll(x) + SplitAll(y)
  {
    var s := x + ":" + y;
    if x == [] {
      assert s == [':'] + y;
      assert s[1..] == y;
    } else {
      assert s[0] == x[0];
      assert s[1..] == x[1..] + ":" + y;
      SplitAllAppend(x[1..], y);
      var t1 := SplitAll(x[1..]);
      var t2 := SplitAll(y);
      if x[0] == ':' {
        assert SplitAll(s) == [""] + (t1 + t2);
        Regroup([""], t1, t2);
      } else {
        var t := t1 + t2;
        assert SplitAll(s) == [[x[0]] + t[0]] + t[1..];
        assert t[0] == t1[0];
        assert t[1..] == t1[1..] + t2;
        Regroup([[x[0]] + t1[0]], t1[1..], t2);
      }
    }
  }

  /** Fields without colons survive joining and splitting again. */
  lemma {:induction false} SplitAllJoin(parts: seq<string>)
    requires |parts| >= 1
    requires forall k :: 0 <= k < |parts| ==> ColonFree(parts[k])
    ensures SplitAll(Join(parts)) == parts
  {
    SplitAllColonFree(parts[0]);
    if |parts| > 1 {
      SplitAllJoin(parts[1..]);
      SplitAllAppend(parts[0], Join(parts[1..]));
      assert [parts[0]] + parts[1..] == parts;
    }
  }

  /** Removing trailing empty fields never reaches past a non-empty last field
      of the head. */
  lemma {:induction false} DropTrailingEmptyAppend(p: seq<string>, q: seq<string>)
    requires p != [] && p[|p| - 1] != ""
    ensures DropTrailingEmpty(p + q) == p + DropTrailingEmpty(q)
  {
    if q == [] {
      assert p + q == p;
    } else if q[|q| - 1] == "" {
      assert (p + q)[..|p + q| - 1] == p + q[..|q| - 1];
      DropTrailingEmptyAppend(p, q[..|q| - 1]);
    }
  }

  // ---------------------------------------------------------------------------
  // Token parsing

  function RegionUrl(region: string): string {
    "https://" + region + ".endee.io/api/v1"
  }

  /** The (token, base URL) pair the constructor leaves behind. */
  function Connection(token: Option<string>): (Option<string>, string) {
    if token.Some? && token.value != "" then
      var parts := Split(token.value);
      if |parts| > 2 then (Some(parts[0] + ":" + parts[1]), RegionUrl(parts[2]))
      else (token, DefaultBaseUrl)
    else (token, DefaultBaseUrl)
  }

  /** No token, or an empty one, keeps the local server. */
  lemma ConnectionWithoutToken(token: Option<string>)
    requires token.None? || token.value == ""
    ensures Connection(token) == (token, DefaultBaseUrl)
  {
  }

  /** A token "a:b:region" (optionally followed by more colon-separated
      fields, which are ignored) is cut to "a:b" and selects the region's host. */
  lemma TokenWithRegion(a: string, b: string, region: string, extra: string)
    requires ColonFree(a) && ColonFree(b) && ColonFree(region) && region != ""
    requires extra == "" || extra[0] == ':'
    ensures Connection(Some(a + ":" + b + ":" + region + extra)) == (Some(a + ":" + b), RegionUrl(region))
  {
    var s := a + ":" + b + ":" + region + extra;
    var head := a + ":" + b + ":" + region;
    SplitAllColonFree(a);
    SplitAllColonFree(b);
    SplitAllColonFree(region);
    SplitAllAppend(a, b);
    SplitAllAppend(a + ":" + b, region);
    assert SplitAll(head) == [a, b, region];
    if extra == "" {
      assert s == head;
      assert DropTrailingEmpty([a, b, region]) == [a, b, region];
    } else {
      var rest := extra[1..];
      assert s == head + ":" + rest;
      SplitAllAppend(head, rest);
      DropTrailingEmptyAppend([a, b, region], SplitAll(rest));
    }
  }

  /** A token with only two fields is kept whole and the local server stays. */
  lemma TokenWithoutRegion(a: string, b: string)
    requires ColonFree(a) && ColonFree(b)
    ensures Connection(Some(a + ":" + b)) == (Some(a + ":" + b), DefaultBaseUrl)
  {
    SplitAllColonFree(a);
    SplitAllColonFree(b);
    SplitAllAppend(a, b);
    assert |a + ":" + b| > 0;
    assert |DropTrailingEmpty([a, b])| <= 2;
  }

  /** An empty third field is a trailing empty field that split drops, so
      "a:b:" is not read as naming a region. */
  lemma TokenWithEmptyRegion(a: string, b: string)
    requires ColonFree(a) && ColonFree(b)
    ensures Connection(Some(a + ":" + b + ":")) == (Some(a + ":" + b + ":"), DefaultBaseUrl)
  {
    var s := a + ":" + b + ":";
    SplitAllColonFree(a);
    SplitAllColonFree(b);
    SplitAllAppend(a, b);
    SplitAllAppend(a + ":" + b, "");
    assert s == a + ":" + b + ":" + "";
    assert SplitAll(s) == [a, b, ""];
    assert |DropTrailingEmpty([a, b, ""])| <= 2;
  }

  // ---------------------------------------------------------------------------
  // createIndex

  /** What createIndex checks, in its order, and the request body it builds. */
  function CreateIndexRequest(o: CreateIndexData): Result<map<string, Json>> {
    if !IsValidIndexName(o.name) then Err(IllegalArgument(InvalidNameMessage))
    else if o.dimension > MaxDimension then Err(IllegalArgument(DimensionTooLargeMessage))
    else if o.sparseDimension.Some? && o.sparseDimension.value < 0 then
      Err(IllegalArgument(NegativeSparseDimensionMessage))
    else
      var spaceType := ToLower(o.spaceType.Value());
      if spaceType !in KnownSpaceTypes then Err(IllegalArgument("Invalid space type: " + o.spaceType.Value()))
      else
        var data := map[
          "index_name" := JStr(o.name.value),
          "dim" := JInt(o.dimension),
          "space_type" := JStr(spaceType),
          "M" := JInt(o.m),
          "ef_con" := JInt(o.efCon),
          "checksum" := JInt(-1),
          "precision" := JStr(o.precision.Value())];
        var data := if o.sparseDimension.Some? then data["sparse_dim" := JInt(o.sparseDimension.value)] else data;
        var data := if o.version.Some? then data["version" := JInt(o.version.value)] else data;
        Ok(data)
  }

  /** The space-type check cannot fail: every constant's lower-cased wire
      string is one of the three known ones. */
  lemma SpaceTypeAlwaysKnown(t: SpaceType)
    ensures ToLower(t.Value()) in KnownSpaceTypes
  {
    SpaceTypeConstants();
  }

  /** createIndex goes on to the request exactly when the name is valid, the
      dimension is at most 10000 and a given sparse dimension is not negative;
      no lower bound is placed on the dimension. */
  lemma CreateIndexAcceptedIff(o: CreateIndexData)
    ensures CreateIndexRequest(o).Ok? <==>
      && IsValidIndexName(o.name)
      && o.dimension <= MaxDimension
      && (o.sparseDimension.None? || o.sparseDimension.value >= 0)
  {
    SpaceTypeAlwaysKnown(o.spaceType);
  }

  /** The first failing check decides the error. */
  lemma CreateIndexErrorOrder(o: CreateIndexData)
    ensures !IsValidIndexName(o.name) ==> CreateIndexRequest(o) == Err(IllegalArgument(InvalidNameMessage))
    ensures IsValidIndexName(o.name) && o.dimension > MaxDimension
      ==> CreateIndexRequest(o) == Err(IllegalArgument(DimensionTooLargeMessage))
    ensures IsValidIndexName(o.name) && o.dimension <= MaxDimension
      && o.sparseDimension.Some? && o.sparseDimension.value < 0
      ==> CreateIndexRequest(o) == Err(IllegalArgument(NegativeSparseDimensionMessage))
  {
  }

  /** The request body before the optional keys. */
  function FixedFields(o: CreateIndexData): map<string, Json>
    requires o.name.Some?
  {
    map[
      "index_name" := JStr(o.name.value),
      "dim" := JInt(o.dimension),
      "space_type" := JStr(o.spaceType.Value()),
      "M" := JInt(o.m),
      "ef_con" := JInt(o.efCon),
      "checksum" := JInt(-1),
      "precision" := JStr(o.precision.Value())]
  }

  /** An accepted request is the fixed fields, then sparse_dim and version
      when those options are set. */
  lemma CreateIndexLayers(o: CreateIndexData)
    requires CreateIndexRequest(o).Ok?
    ensures o.name.Some?
    ensures var withSparse :=
        if o.sparseDimension.Some? then FixedFields(o)["sparse_dim" := JInt(o.sparseDimension.value)] else FixedFields(o);
      CreateIndexRequest(o).value
        == if o.version.Some? then withSparse["version" := JInt(o.version.value)] else withSparse
  {
    SpaceTypeConstants();
  }

  /** An accepted request holds the seven fixed keys, plus sparse_dim and
      version exactly when those options are set. */
  lemma CreateIndexPayloadKeys(o: CreateIndexData)
    requires CreateIndexRequest(o).Ok?
    ensures CreateIndexRequest(o).value.Keys
      == {"index_name", "dim", "space_type", "M", "ef_con", "checksum", "precision"}
        + (if o.sparseDimension.Some? then {"sparse_dim"} else {})
        + (if o.version.Some? then {"version"} else {})
  {
    CreateIndexLayers(o);
  }

  /** Every key of an accepted request carries the option's value; the
      space type goes out as its wire string and the checksum as -1. */
  lemma CreateIndexPayload(o: CreateIndexData)
    requires CreateIndexRequest(o).Ok?
    ensures var data := CreateIndexRequest(o).value;
      && data["index_name"] == JStr(o.name.value)
      && data["dim"] == JInt(o.dimension)
      && data["space_type"] == JStr(o.spaceType.Value())
      && data["M"] == JInt(o.m)
      && data["ef_con"] == JInt(o.efCon)
      && data["checksum"] == JInt(-1)
      && data["precision"] == JStr(o.precision.Value())
      && (o.sparseDimension.Some? ==> data["sparse_dim"] == JInt(o.sparseDimension.value))
      && (o.version.Some? ==> data["version"] == JInt(o.version.value))
  {
    CreateIndexLayers(o);
    CreateIndexPayloadKeys(o);
  }

  // ---------------------------------------------------------------------------
  // The client object

  class Endee {
    var token: Option<string>
    var baseUrl: string
    const version: int32

    /** Endee(): no token and the local server. */
    constructor Local()
      ensures token == None && baseUrl == DefaultBaseUrl && version == 1
    {
      token := None;
      baseUrl := DefaultBaseUrl;
      version := 1;
    }

    /** Endee(token): a token with a third colon-separated field names the
        region host and is cut to its first two fields. */
    constructor (token: Option<string>)
      ensures (this.token, baseUrl) == Connection(token)
      ensures version == 1
    {
      this.token := token;
      baseUrl := DefaultBaseUrl;
      version := 1;
      if token.Some? && token.value != "" {
        var tokenParts := Split(token.value);
        if |tokenParts| > 2 {
          baseUrl := RegionUrl(tokenParts[2]);
          this.token := Some(tokenParts[0] + ":" + tokenParts[1]);
        }
      }
    }

    /** setBaseUrl: replaces the base URL, keeps the token, returns the URL. */
    method SetBaseUrl(url: string) returns (r: string)
      modifies this`baseUrl
      ensures baseUrl == url && r == url
      ensures token == old(token)
    {
      baseUrl := url;
      return url;
    }

    /** createIndex up to the HTTP call: the checks in order, then the body
        built key by key. */
    method CreateIndex(options: CreateIndexOptions) returns (r: Result<map<string, Json>>)
      ensures r == CreateIndexRequest(options.Data())
    {
      if !IsValidIndexName(options.name) {
        return Err(IllegalArgument(InvalidNameMessage));
      }
      if options.dimension > MaxDimension {
        return Err(IllegalArgument(DimensionTooLargeMessage));
      }
      if options.sparseDimension.Some? && options.sparseDimension.value < 0 {
        return Err(IllegalArgument(NegativeSparseDimensionMessage));
      }
      var normalizedSpaceType := ToLower(options.spaceType.Value());
      if normalizedSpaceType !in KnownSpaceTypes {
        return Err(IllegalArgument("Invalid space type: " + options.spaceType.Value()));
      }
      var data: map<string, Json> := map[];
      data := data["index_name" := JStr(options.name.value)];
      data := data["dim" := JInt(options.dimension)];
      data := data["space_type" := JStr(normalizedSpaceType)];
      data := data["M" := JInt(options.m)];
      data := data["ef_con" := JInt(options.efCon)];
      data := data["checksum" := JInt(-1)];
      data := data["precision" := JStr(options.precision.Value())];
      if options.sparseDimension.Some? {
        data := data["sparse_dim" := JInt(options.sparseDimension.value)];
      }
      if options.version.Some? {
        data := data["version" := JInt(options.version.value)];
      }
      return Ok(data);
    }
  }
}
