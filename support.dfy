/** The value types the template exchanges with its callers and with the
    Vault collaborator: `Versioned`, `Versioned.Version`, `Versioned.Metadata`
    and its builder, `VaultResponse`, the JSON values Jackson produces, and the
    requests the template hands to `VaultOperations`. */
module VaultSupport {
  import opened Wrappers

  /** A JSON value as Jackson hands it over: objects are `Map<String, Object>`,
      numbers are integers. */
  datatype Json =
    | JNull
    | JBool(b: bool)
    | JNum(n: int)
    | JStr(s: string)
    | JArr(items: seq<Json>)
    | JObj(fields: map<string, Json>)

  /** `java.time.Instant`: seconds since the epoch and a nanosecond adjustment. */
  datatype Instant = Instant(epochSecond: int, nano: int)

  /** `Versioned.Version`: the sentinel meaning "the most recent version", or a
      concrete revision number. */
  datatype Version = Unversioned | Ver(n: int) {

    /** `Version.isVersioned`. */
    predicate IsVersioned() {
      Ver?
    }

    /** `Version.getVersion`; the sentinel's number is not fixed by this model. */
    function GetVersion(): int {
      if Ver? then n else UnversionedNumber
    }
  }

  /** Whatever number `getVersion` reports for the unversioned sentinel. */
  const UnversionedNumber: int

  /** `Version.from`. */
  function From(n: int): Version {
    Ver(n)
  }

  /** `Versioned.Metadata`. */
  datatype Metadata = Metadata(createdAt: Instant, deletedAt: Option<Instant>, destroyed: bool, version: Version)

  /** `Versioned<Map<String, Object>>` as `read` returns it: the secret (absent for
      a deleted or destroyed version) and its metadata. */
  datatype Versioned = Versioned(data: Option<map<string, Json>>, metadata: Metadata)

  /** The `body` argument of `write`: any plain object, or a `Versioned` wrapper
      carrying the version to compare and set against. */
  datatype Body = PlainBody(data: Json) | VersionedBody(data: Json, version: Version)

  /** `VaultResponse` reduced to its `data` field (`null` when absent). */
  datatype VaultResponse = VaultResponse(data: Option<map<string, Json>>)

  /** The exceptions the template raises or lets through. */
  datatype Failure =
      /** `VaultResponses.buildException(e, path)` for an HTTP error status. */
    | StatusError(path: string, status: int)
      /** An exception thrown inside `VaultOperations`, passed on unchanged. */
    | Raised(cause: string)
      /** A `NullPointerException` on a `null` response to a write. */
    | NullResponse
      /** `getRequiredData` on a response without data. */
    | MissingData
      /** A `ClassCastException` or `NullPointerException` on a response field. */
    | BadField(key: string)
      /** A `DateTimeParseException` on a timestamp field. */
    | BadTimestamp(key: string, text: string)

  /** The calls the template makes on `VaultOperations` and its `RestOperations`. */
  datatype Request =
    | ListKeys(path: string)
    | Get(path: string)
    | Write(path: string, body: Json)
    | Delete(path: string)

  /** `Versioned.Metadata.MetadataBuilder`: collects the fields one by one. */
  class MetadataBuilder {
    var createdAt: Option<Instant>
    var deletedAt: Option<Instant>
    var destroyed: bool
    var version: Option<Version>

    constructor ()
      ensures createdAt == None && deletedAt == None && !destroyed && version == None
    {
      createdAt, deletedAt, destroyed, version := None, None, false, None;
    }

    method CreatedAt(t: Instant)
      modifies this
      ensures createdAt == Some(t)
      ensures deletedAt == old(deletedAt) && destroyed == old(destroyed) && version == old(version)
    {
      createdAt := Some(t);
    }

    method DeletedAt(t: Instant)
      modifies this
      ensures deletedAt == Some(t)
      ensures createdAt == old(createdAt) && destroyed == old(destroyed) && version == old(version)
    {
      deletedAt := Some(t);
    }

    method Destroyed()
      modifies this
      ensures destroyed
      ensures createdAt == old(createdAt) && deletedAt == old(deletedAt) && version == old(version)
    {
      destroyed := true;
    }

    method Version(v: Version)
      modifies this
      ensures version == Some(v)
      ensures createdAt == old(createdAt) && deletedAt == old(deletedAt) && destroyed == old(destroyed)
    {
      version := Some(v);
    }

    /** The metadata collected so far; creation time and version must be set. */
    method Build() returns (md: Metadata)
      requires createdAt.Some? && version.Some?
      ensures md.createdAt == createdAt.value && md.version == version.value
      ensures md.deletedAt == deletedAt && md.destroyed == destroyed
    {
      md := Metadata(createdAt.value, deletedAt, destroyed, version.value);
    }
  }

  /** What a request map holds under a key: a plain value, or another request
      map by reference (the map itself, not a copy of it). */
  datatype Slot = Leaf(value: Json) | Nested(child: RequestMap)

  /** The `LinkedHashMap` the template fills to build a request body. */
  class RequestMap {
    var slots: map<string, Slot>

    constructor ()
      ensures slots == map[]
    {
      slots := map[];
    }

    /** `Map.put`. */
    method Put(key: string, value: Slot)
      modifies this
      ensures slots == old(slots)[key := value]
    {
      slots := slots[key := value];
    }

    /** The maps this one refers to. */
    function Children(): set<RequestMap>
      reads this
    {
      set k | k in slots && slots[k].Nested? :: slots[k].child
    }

    predicate IsFlat()
      reads this
    {
      forall k | k in slots :: slots[k].Leaf?
    }

    /** The JSON object a map of plain values serializes to. */
    function FlatJson(): (j: Json)
      reads this
      requires IsFlat()
      ensures j.JObj? && j.fields.Keys == slots.Keys
    {
      JObj(map k | k in slots :: slots[k].value)
    }

    /** The JSON object this map serializes to when it is sent: nested maps are
        serialized with the contents they hold at that moment. */
    function ToJson(): (j: Json)
      reads this, Children()
      requires forall c | c in Children() :: c.IsFlat()
      ensures j.JObj? && j.fields.Keys == slots.Keys
    {
      JObj(map k | k in slots :: match slots[k] case Leaf(v) => v case Nested(c) => c.FlatJson())
    }
  }
}
