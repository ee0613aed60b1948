/** `VaultVersionedKeyValueTemplate`: the client for Vault's versioned key/value
    (KV v2) secrets engine. Every call it makes on `VaultOperations` is returned
    as a `Request`; every answer it gets back is a parameter. */
module KeyValueTemplate {
  import opened Wrappers
  import opened Text
  import opened VaultSupport

  const NotFound := 404

  const CreatedTime := "created_time"
  const DeletionTime := "deletion_time"
  const DestroyedKey := "destroyed"
  const VersionKey := "version"
  const VersionQuery := "?version="

  /** What the REST call of `read` came back with: a response (`null` for an
      empty body) or an `HttpStatusCodeException` with its status and body. */
  datatype HttpOutcome = Returned(response: Option<VaultResponse>) | HttpError(status: int, body: string)

  /** The outcome of `read`: `null`, a `Versioned` secret, or an exception. */
  datatype ReadResult = Absent | Found(secret: Versioned) | Failed(error: Failure)

  /** The range of a Java `Integer`; Jackson maps larger numbers to other types. */
  predicate IsInt32(n: int) {
    -0x8000_0000 <= n < 0x8000_0000
  }

  /** `key` holds a timestamp text that is not blank. */
  predicate TextAt(m: map<string, Json>, key: string) {
    key in m && m[key].JStr? && HasText(m[key].s)
  }

  /** `getDate` can read `key`: it is missing, `null`, blank, or parses. */
  predicate DateReadable(m: map<string, Json>, key: string, parse: string -> Option<Instant>) {
    || key !in m
    || m[key].JNull?
    || (m[key].JStr? && (HasText(m[key].s) ==> parse(m[key].s).Some?))
  }

  /** A metadata map from which `getMetadata` builds a value without throwing. */
  predicate WellFormedMetadata(m: map<string, Json>, parse: string -> Option<Instant>) {
    && DateReadable(m, CreatedTime, parse)
    && DateReadable(m, DeletionTime, parse)
    && TextAt(m, CreatedTime)
    && VersionKey in m && m[VersionKey].JNum? && IsInt32(m[VersionKey].n)
  }

  /** The position of the first `/` in `s`. */
  function FirstSlash(s: string): (r: Option<nat>)
    ensures r.Some? ==> r.value < |s| && s[r.value] == '/' && '/' !in s[..r.value]
    ensures r.None? ==> '/' !in s
  {
    if |s| == 0 then None
    else if s[0] == '/' then Some(0)
    else match FirstSlash(s[1..])
      case None => None
      case Some(i) =>
        assert s[..i + 1] == [s[0]] + s[1..][..i];
        Some(i + 1)
  }

  lemma {:induction false} SlashAfterSlashFree(a: string, b: string)
    requires '/' !in a
    ensures FirstSlash(a + "/" + b) == Some(|a|)
  {
    if |a| > 0 {
      assert (a + "/" + b)[1..] == a[1..] + "/" + b;
      SlashAfterSlashFree(a[1..], b);
    }
  }

  /** The JSON array a list of integers serializes to. */
  function NumbersJson(ns: seq<int>): (items: seq<Json>)
    ensures |items| == |ns|
  {
    if |ns| == 0 then [] else [JNum(ns[0])] + NumbersJson(ns[1..])
  }

  /** The integers of a JSON array holding integers only. */
  function Numbers(items: seq<Json>): Option<seq<int>>
  {
    if |items| == 0 then Some([])
    else if !items[0].JNum? then None
    else match Numbers(items[1..])
      case None => None
      case Some(rest) => Some([items[0].n] + rest)
  }

  /** `Collections.singletonMap("versions", versions)` as it is sent. */
  function VersionsBody(ns: seq<int>): Json {
    JObj(map["versions" := JArr(NumbersJson(ns))])
  }

  /** The version numbers a `{versions: [...]}` request body carries. */
  function VersionsOf(body: Json): Option<seq<int>> {
    if body.JObj? && "versions" in body.fields && body.fields["versions"].JArr?
    then Numbers(body.fields["versions"].items)
    else None
  }

  lemma {:induction false} NumbersRoundTrip(ns: seq<int>)
    ensures Numbers(NumbersJson(ns)) == Some(ns)
  {
    if |ns| > 0 {
      NumbersRoundTrip(ns[1..]);
      assert [ns[0]] + ns[1..] == ns;
    }
  }

  /** The version list of a delete, undelete or destroy request reads back unchanged. */
  lemma VersionsRoundTrip(ns: seq<int>)
    ensures VersionsOf(VersionsBody(ns)) == Some(ns)
  {
    NumbersRoundTrip(ns);
  }

  /** The compare-and-set version a write body asks for, if any. */
  function CasOf(body: Json): Option<int> {
    if && body.JObj? && "options" in body.fields
       && body.fields["options"].JObj? && "cas" in body.fields["options"].fields
       && body.fields["options"].fields["cas"].JNum?
    then Some(body.fields["options"].fields["cas"].n)
    else None
  }

  /** The body of a write request: the secret under `data` and, for a
      `Versioned` body only, the compare-and-set version under `options.cas`. */
  function WritePayload(body: Body): (j: Json)
    ensures j.JObj? && "data" in j.fields && j.fields["data"] == body.data
    ensures "options" in j.fields <==> body.VersionedBody?
    ensures j.fields.Keys <= {"data", "options"}
    ensures CasOf(j) == if body.VersionedBody? then Some(body.version.GetVersion()) else None
    ensures body.VersionedBody? ==> j.fields["options"] == JObj(map["cas" := JNum(body.version.GetVersion())])
  {
    match body
    case PlainBody(d) => JObj(map["data" := d])
    case VersionedBody(d, v) => JObj(map["data" := d, "options" := JObj(map["cas" := JNum(v.GetVersion())])])
  }

  class Template {
    /** The mount path of the secrets engine. */
    const mount: string

    constructor (mount: string)
      requires HasText(mount)
      ensures this.mount == mount
    {
      this.mount := mount;
    }

    /** Splits a path below the mount into its segment and the secret path. */
    function Endpoint(p: string): Option<(string, string)> {
      if |p| > |mount| && p[..|mount| + 1] == mount + "/" then
        var rest := p[|mount| + 1..];
        match FirstSlash(rest)
        case None => None
        case Some(i) => Some((rest[..i], rest[i + 1..]))
      else None
    }

    /** `mount/segment/path` splits back into its segment and secret path
        whenever the segment holds no `/`. */
    lemma EndpointSplits(segment: string, path: string)
      ensures '/' !in segment ==> Endpoint(mount + "/" + segment + "/" + path) == Some((segment, path))
    {
      if '/' !in segment {
        var p := mount + "/" + segment + "/" + path;
        assert p[..|mount| + 1] == mount + "/";
        var rest := p[|mount| + 1..];
        assert rest == segment + "/" + path;
        SlashAfterSlashFree(segment, path);
        assert rest[..|segment|] == segment;
        assert rest[|segment| + 1..] == path;
      }
    }

    /** `createBackendPath`: a path below the mount that determines its segment
        and secret path, so the endpoints `data`, `metadata`, `delete`,
        `undelete` and `destroy` never collide. */
    function BackendPath(segment: string, path: string): (r: string)
      ensures '/' !in segment ==> Endpoint(r) == Some((segment, path))
    {
      EndpointSplits(segment, path);
      mount + "/" + segment + "/" + path
    }

    /** `createDataPath`: the `data` endpoint of the secret path. */
    function DataPath(path: string): (r: string)
      ensures Endpoint(r) == Some(("data", path))
    {
      BackendPath("data", path)
    }

    /** The path `read` requests: the data path, with `?version=n` appended for a
        concrete version only. */
    function ReadPath(path: string, version: Version): (r: string)
      ensures version.Unversioned? ==> r == DataPath(path)
      ensures version.Ver? ==>
        var d := DataPath(path);
        && |r| > |d| + |VersionQuery|
        && r[..|d|] == d
        && r[|d|..|d| + |VersionQuery|] == VersionQuery
        && ParseDecimal(r[|d| + |VersionQuery|..]) == Some(version.n)
    {
      if version.IsVersioned() then
        var r := mount + "/data/" + path + "?version=" + FormatDecimal(version.GetVersion());
        FormatDecimalRoundTrip(version.n);
        assert r == DataPath(path) + VersionQuery + FormatDecimal(version.n);
        r
      else DataPath(path)
    }

    /** A read path holds a `?` exactly when a concrete version is asked for. */
    lemma QueryMarksVersion(path: string, v: Version)
      requires '?' !in mount && '?' !in path
      ensures '?' in ReadPath(path, v) <==> v.Ver?
    {
      var d := DataPath(path);
      assert '?' !in d;
      if v.Ver? {
        assert ReadPath(path, v)[|d|] == '?';
      }
    }

    /** With no `?` in the mount or the secret path, distinct versions are read
        from distinct URLs, and the latest is read without a query part. */
    lemma ReadPathDistinguishesVersions(path: string, v1: Version, v2: Version)
      requires '?' !in mount && '?' !in path
      requires ReadPath(path, v1) == ReadPath(path, v2)
      ensures v1 == v2
    {
      QueryMarksVersion(path, v1);
      QueryMarksVersion(path, v2);
      if v1.Ver? {
        assert Some(v1.n) == Some(v2.n);
      }
    }

    /** `toVersionList`: the numbers of the concrete versions, in order. */
    static function ToVersionList(vs: seq<Version>): (r: seq<int>)
      ensures |r| <= |vs|
      ensures forall i | 0 <= i < |r| :: Ver(r[i]) in vs
      ensures forall v | v in vs && v.IsVersioned() :: v.GetVersion() in r
    {
      if |vs| == 0 then []
      else (if vs[0].IsVersioned() then [vs[0].GetVersion()] else []) + ToVersionList(vs[1..])
    }

    static lemma {:induction false} ToVersionListConcat(a: seq<Version>, b: seq<Version>)
      ensures ToVersionList(a + b) == ToVersionList(a) + ToVersionList(b)
    {
      if |a| > 0 {
        assert (a + b)[1..] == a[1..] + b;
        ToVersionListConcat(a[1..], b);
      } else {
        assert a + b == b;
      }
    }

    /** The unversioned sentinel contributes nothing, wherever it stands. */
    static lemma DropsSentinel(a: seq<Version>, b: seq<Version>)
      ensures ToVersionList(a + [Unversioned] + b) == ToVersionList(a + b)
    {
      ToVersionListConcat(a + [Unversioned], b);
      ToVersionListConcat(a, [Unversioned]);
      ToVersionListConcat(a, b);
    }

    /** Concrete versions map one to one, in order, to their numbers. */
    static lemma {:induction false} ToVersionListOfConcrete(vs: seq<Version>)
      requires forall i | 0 <= i < |vs| :: vs[i].Ver?
      ensures |ToVersionList(vs)| == |vs|
      ensures forall i | 0 <= i < |vs| :: ToVersionList(vs)[i] == vs[i].n
    {
      if |vs| > 0 {
        ToVersionListOfConcrete(vs[1..]);
      }
    }

    /** `list`: lists the keys under the `metadata` endpoint. */
    function List(path: string): (r: Request)
      ensures r.ListKeys? && Endpoint(r.path) == Some(("metadata", path))
    {
      ListKeys(BackendPath("metadata", path))
    }

    /** `getDate`: `None` for a missing, `null` or blank field, the parsed
        instant for any other text. */
    static function GetDate(m: map<string, Json>, key: string, parse: string -> Option<Instant>): (r: Result<Option<Instant>, Failure>)
      ensures r == Success(None) <==> key !in m || m[key].JNull? || (m[key].JStr? && !HasText(m[key].s))
      ensures r.Success? && r.value.Some? ==> TextAt(m, key) && parse(m[key].s) == r.value
      ensures r.Failure? <==> !DateReadable(m, key, parse)
      ensures r.Failure? && key in m && !m[key].JStr? ==> r.error == BadField(key)
      ensures r.Failure? && key in m && m[key].JStr? ==> r.error == BadTimestamp(key, m[key].s)
    {
      if key !in m then Success(None)
      else match m[key]
        case JNull => Success(None)
        case JStr(s) =>
          if !HasText(s) then Success(None)
          else (match parse(s)
            case Some(t) => Success(Some(t))
            case None => Failure(BadTimestamp(key, s)))
        case _ => Failure(BadField(key))
    }

    /** The `(Integer)` cast of a metadata field, unboxed by `Version.from`. */
    static function IntegerField(m: map<string, Json>, key: string): (r: Result<int, Failure>)
      ensures r.Success? <==> key in m && m[key].JNum? && IsInt32(m[key].n)
      ensures r.Success? ==> r.value == m[key].n
    {
      if key in m && m[key].JNum? && IsInt32(m[key].n) then Success(m[key].n) else Failure(BadField(key))
    }

    /** The metadata `getMetadata` builds, field by field. */
    static function ParseMetadata(m: map<string, Json>, parse: string -> Option<Instant>): (r: Result<Metadata, Failure>)
      ensures r.Success? <==> WellFormedMetadata(m, parse)
      ensures r.Success? ==> parse(m[CreatedTime].s) == Some(r.value.createdAt)
      ensures r.Success? ==> (r.value.deletedAt.Some? <==> TextAt(m, DeletionTime))
      ensures r.Success? && r.value.deletedAt.Some? ==> parse(m[DeletionTime].s) == r.value.deletedAt
      ensures r.Success? ==> (r.value.destroyed <==> DestroyedKey in m && m[DestroyedKey] == JBool(true))
      ensures r.Success? ==> r.value.version == Ver(m[VersionKey].n)
    {
      var created :- GetDate(m, CreatedTime, parse);
      var deletion :- GetDate(m, DeletionTime, parse);
      if created.None? then Failure(BadField(CreatedTime))
      else
        var destroyed := DestroyedKey in m && m[DestroyedKey] == JBool(true);
        var version :- IntegerField(m, VersionKey);
        Success(Metadata(created.value, deletion, destroyed, From(version)))
    }

    /** `getMetadata`: fills a `MetadataBuilder` step by step. */
    static method GetMetadata(m: map<string, Json>, parse: string -> Option<Instant>) returns (r: Result<Metadata, Failure>)
      ensures r == ParseMetadata(m, parse)
    {
      var builder := new MetadataBuilder();
      var created := GetDate(m, CreatedTime, parse);
      if created.Failure? {
        return Failure(created.error);
      }
      var deletion := GetDate(m, DeletionTime, parse);
      if deletion.Failure? {
        return Failure(deletion.error);
      }
      if created.value.None? {
        return Failure(BadField(CreatedTime));
      }
      builder.CreatedAt(created.value.value);
      if deletion.value.Some? {
        builder.DeletedAt(deletion.value.value);
      }
      if DestroyedKey in m && m[DestroyedKey] == JBool(true) {
        builder.Destroyed();
      }
      var version := IntegerField(m, VersionKey);
      if version.Failure? {
        return Failure(version.error);
      }
      builder.Version(From(version.value));
      var md := builder.Build();
      r := Success(md);
    }

    /** How `read` turns a response into a `Versioned` secret. */
    static function Decode(response: VaultResponse, parse: string -> Option<Instant>): (r: ReadResult)
      ensures !r.Absent? && !(r.Failed? && r.error.StatusError?)
      ensures response.data.None? ==> r == Failed(MissingData)
      ensures r.Found? ==>
        && response.data.Some?
        && "metadata" in response.data.value && response.data.value["metadata"].JObj?
        && ParseMetadata(response.data.value["metadata"].fields, parse) == Success(r.secret.metadata)
        && (r.secret.data.Some? <==> "data" in response.data.value && response.data.value["data"].JObj?)
        && (r.secret.data.Some? ==> response.data.value["data"] == JObj(r.secret.data.value))
      ensures r.Found? <==>
        && response.data.Some?
        && "metadata" in response.data.value && response.data.value["metadata"].JObj?
        && WellFormedMetadata(response.data.value["metadata"].fields, parse)
        && ("data" !in response.data.value || response.data.value["data"].JNull? || response.data.value["data"].JObj?)
      ensures
        && response.data.Some?
        && "metadata" in response.data.value && response.data.value["metadata"].JObj?
        && WellFormedMetadata(response.data.value["metadata"].fields, parse)
        && "data" in response.data.value
        && !response.data.value["data"].JNull? && !response.data.value["data"].JObj?
        ==> r == Failed(BadField("data"))
    {
      match response.data
      case None => Failed(MissingData)
      case Some(responseData) =>
        if "metadata" !in responseData || !responseData["metadata"].JObj? then Failed(BadField("metadata"))
        else match ParseMetadata(responseData["metadata"].fields, parse)
          case Failure(e) => Failed(e)
          case Success(metadata) =>
            if "data" !in responseData || responseData["data"].JNull? then Found(Versioned(None, metadata))
            else if responseData["data"].JObj? then Found(Versioned(Some(responseData["data"].fields), metadata))
            else Failed(BadField("data"))
    }

    /** How `read` handles what its REST call came back with. */
    static function ReadOutcome(path: string, outcome: HttpOutcome, unwrap: string -> VaultResponse,
                                parse: string -> Option<Instant>): (r: ReadResult)
      ensures r.Absent? <==>
        outcome == Returned(None) || (outcome.HttpError? && outcome.status == NotFound && !Contains(outcome.body, DeletionTime))
      ensures r.Failed? && r.error.StatusError? <==> outcome.HttpError? && outcome.status != NotFound
      ensures r.Failed? && r.error.StatusError? ==> r.error == StatusError(path, outcome.status)
      ensures outcome.HttpError? && outcome.status == NotFound && Contains(outcome.body, DeletionTime) ==>
        r == Decode(unwrap(outcome.body), parse)
      ensures outcome.Returned? && outcome.response.Some? ==> r == Decode(outcome.response.value, parse)
    {
      match outcome
      case Returned(None) => Absent
      case Returned(Some(response)) => Decode(response, parse)
      case HttpError(status, body) =>
        if status != NotFound then Failed(StatusError(path, status))
        else if Contains(body, DeletionTime) then Decode(unwrap(body), parse)
        else Absent
    }

    /** A soft-deleted version answers 404 with its metadata in the body: the
        read then yields the metadata with the deletion time set and no data. */
    static lemma {:induction false} ReadSoftDeleted(path: string, body: string, unwrap: string -> VaultResponse,
                                                    parse: string -> Option<Instant>)
      requires Contains(body, DeletionTime)
      requires unwrap(body).data.Some?
      requires "metadata" in unwrap(body).data.value && unwrap(body).data.value["metadata"].JObj?
      requires WellFormedMetadata(unwrap(body).data.value["metadata"].fields, parse)
      requires TextAt(unwrap(body).data.value["metadata"].fields, DeletionTime)
      requires "data" !in unwrap(body).data.value || unwrap(body).data.value["data"].JNull?
      ensures ReadOutcome(path, HttpError(NotFound, body), unwrap, parse).Found?
      ensures ReadOutcome(path, HttpError(NotFound, body), unwrap, parse).secret.data.None?
      ensures ReadOutcome(path, HttpError(NotFound, body), unwrap, parse).secret.metadata.deletedAt.Some?
    {
      var md := unwrap(body).data.value["metadata"].fields;
      assert ParseMetadata(md, parse).Success?;
    }

    /** `read(path, version)`. A 404 is absence unless its body reports a
        deletion, in which case the deleted version's metadata is returned; any
        other error status fails with the secret path. */
    method Read(path: string, version: Version, outcome: HttpOutcome, unwrap: string -> VaultResponse,
                parse: string -> Option<Instant>) returns (request: Request, result: ReadResult)
      requires HasText(path)
      ensures request == Get(ReadPath(path, version))
      ensures result == ReadOutcome(path, outcome, unwrap, parse)
      ensures result.Absent? <==>
        outcome == Returned(None) || (outcome.HttpError? && outcome.status == NotFound && !Contains(outcome.body, DeletionTime))
      ensures result.Failed? && result.error.StatusError? <==> outcome.HttpError? && outcome.status != NotFound
      ensures result.Failed? && result.error.StatusError? ==> result.error == StatusError(path, outcome.status)
      ensures outcome.HttpError? && outcome.status == NotFound && Contains(outcome.body, DeletionTime) ==>
        result == Decode(unwrap(outcome.body), parse)
      ensures outcome.Returned? && outcome.response.Some? ==> result == Decode(outcome.response.value, parse)
    {
      request := Get(ReadPath(path, version));
      var response: Option<VaultResponse>;
      match outcome {
        case Returned(r) =>
          response := r;
        case HttpError(status, body) =>
          if status == NotFound {
            if Contains(body, DeletionTime) {
              response := Some(unwrap(body));
            } else {
              response := None;
            }
          } else {
            return request, Failed(StatusError(path, status));
          }
      }
      if response.None? {
        return request, Absent;
      }
      if response.value.data.None? {
        return request, Failed(MissingData);
      }
      // From here on, the steps of `Decode`, with the builder of `GetMetadata`.
      var responseData := response.value.data.value;
      if "metadata" !in responseData || !responseData["metadata"].JObj? {
        return request, Failed(BadField("metadata"));
      }
      var metadata := GetMetadata(responseData["metadata"].fields, parse);
      if metadata.Failure? {
        return request, Failed(metadata.error);
      }
      if "data" !in responseData || responseData["data"].JNull? {
        result := Found(Versioned(None, metadata.value));
      } else if responseData["data"].JObj? {
        result := Found(Versioned(Some(responseData["data"].fields), metadata.value));
      } else {
        result := Failed(BadField("data"));
      }
    }

    /** `write(path, body)`: the options map is put into the body before its
        `cas` entry is, and the body is serialized when it is sent. */
    method Write(path: string, body: Body, reply: Result<Option<VaultResponse>, Failure>,
                 parse: string -> Option<Instant>) returns (request: Request, result: Result<Metadata, Failure>)
      requires HasText(path)
      ensures request.Write? && Endpoint(request.path) == Some(("data", path))
      ensures request.body == WritePayload(body)
      ensures reply.Failure? ==> result == Failure(reply.error)
      ensures reply == Success(None) ==> result == Failure(NullResponse)
      ensures reply.Success? && reply.value.Some? ==>
        result == match reply.value.value.data
          case None => Failure(MissingData)
          case Some(d) => ParseMetadata(d, parse)
    {
      var data := new RequestMap();
      var requestOptions := new RequestMap();
      var payload: Json;
      if body.VersionedBody? {
        data.Put("data", Leaf(body.data));
        data.Put("options", Nested(requestOptions));
        requestOptions.Put("cas", Leaf(JNum(body.version.GetVersion())));
        assert requestOptions.FlatJson().fields == map["cas" := JNum(body.version.GetVersion())];
        assert data.slots == map["data" := Leaf(body.data), "options" := Nested(requestOptions)];
        assert forall c | c in data.Children() :: c == requestOptions;
        payload := data.ToJson();
        assert payload.fields == map["data" := body.data, "options" := requestOptions.FlatJson()];
      } else {
        data.Put("data", Leaf(body.data));
        assert data.slots == map["data" := Leaf(body.data)];
        payload := data.ToJson();
        assert payload.fields == map["data" := body.data];
      }
      request := Request.Write(DataPath(path), payload);
      match reply {
        case Failure(e) =>
          result := Failure(e);
        case Success(None) =>
          result := Failure(NullResponse);
        case Success(Some(response)) =>
          if response.data.None? {
            result := Failure(MissingData);
          } else {
            result := GetMetadata(response.data.value, parse);
          }
      }
    }

    /** `delete(path)`: deletes the latest version through the data endpoint. */
    function Delete(path: string): (r: Request)
      requires HasText(path)
      ensures r.Delete? && Endpoint(r.path) == Some(("data", path))
    {
      Request.Delete(DataPath(path))
    }

    /** The write of `{versions: [...]}` to an endpoint shared by `delete`,
        `undelete` and `destroy`. */
    function VersionsWrite(segment: string, path: string, vs: seq<Version>): (r: Request)
      requires '/' !in segment
      ensures r.Write? && Endpoint(r.path) == Some((segment, path))
      ensures r.body.JObj? && r.body.fields.Keys == {"versions"}
      ensures VersionsOf(r.body) == Some(ToVersionList(vs))
    {
      VersionsRoundTrip(ToVersionList(vs));
      Request.Write(BackendPath(segment, path), VersionsBody(ToVersionList(vs)))
    }

    /** `delete(path, versions...)`: an empty list deletes the latest version. */
    function DeleteVersions(path: string, vs: seq<Version>): (r: Request)
      requires HasText(path)
      ensures |vs| == 0 ==> r == Delete(path)
      ensures |vs| > 0 ==>
        && r.Write? && Endpoint(r.path) == Some(("delete", path))
        && r.body.JObj? && r.body.fields.Keys == {"versions"}
        && VersionsOf(r.body) == Some(ToVersionList(vs))
    {
      if |vs| == 0 then Delete(path) else VersionsWrite("delete", path, vs)
    }

    /** `undelete(path, versions...)`: an empty list is sent as it is. */
    function Undelete(path: string, vs: seq<Version>): (r: Request)
      requires HasText(path)
      ensures r.Write? && Endpoint(r.path) == Some(("undelete", path))
      ensures r.body.JObj? && r.body.fields.Keys == {"versions"}
      ensures VersionsOf(r.body) == Some(ToVersionList(vs))
    {
      VersionsWrite("undelete", path, vs)
    }

    /** `destroy(path, versions...)`: an empty list is sent as it is. */
    function Destroy(path: string, vs: seq<Version>): (r: Request)
      requires HasText(path)
      ensures r.Write? && Endpoint(r.path) == Some(("destroy", path))
      ensures r.body.JObj? && r.body.fields.Keys == {"versions"}
      ensures VersionsOf(r.body) == Some(ToVersionList(vs))
    {
      VersionsWrite("destroy", path, vs)
    }
  }
}
