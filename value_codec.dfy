/**
 * The value codec: how a payload becomes the stored string and back.
 * Serialisation libraries are outside the model; the codec is a parameter
 * holding the four primitive conversions, each of which may fail.
 */
module ValueCodec {
  import opened Wrappers

  /** A payload as the cache sees it. */
  datatype Value =
    | Null                                      // Java null: an absent value
    | Obj(state: string, externalizable: bool)  // an object; the flag is `instanceof Externalizable`
    | Items(elements: seq<Value>)               // a java.util.Collection

  /** The value type a cache kind is declared with: the decoding target. */
  datatype ValueKind =
    | ClientRoute
    | NodeId
    | NodeIdList
    | StringList
    | ClientSessionInfo
    | Roster
    | ClusterCrossProxyInfo
    | LocalMUCRoom
    | AnySerializable
    | Declared(typeName: string)  // a value type of a cache class declared outside the factory

  /**
   * The primitive conversions. `isExternalizableType` says whether the raw
   * class of a declared value type implements Externalizable; the external
   * writer includes the Base64 step, the external reader undoes it.
   */
  datatype Codec = Codec(
    isExternalizableType: ValueKind -> bool,
    writeExternal: Value -> Option<string>,
    readExternal: (ValueKind, string) -> Option<Value>,
    writeJson: Value -> Option<string>,
    readJson: (ValueKind, string) -> Option<Value>)

  predicate IsExternalizable(v: Value) {
    v.Obj? && v.externalizable
  }

  /**
   * The encoding half of createSafeRedisCacheEntry: dispatch on the runtime
   * value; None stands for the swallowed failure.
   */
  function Encode(c: Codec, v: Value): (stored: Option<string>)
    ensures IsExternalizable(v) ==> stored == c.writeExternal(v)
    ensures !IsExternalizable(v) ==> stored == c.writeJson(v)
  {
    if IsExternalizable(v) then c.writeExternal(v) else c.writeJson(v)
  }

  /**
   * deserializedRedisCacheEntryValue: dispatch on the declared value type;
   * a missing stored value or a failing reader gives null.
   */
  function Decode(c: Codec, kind: ValueKind, stored: Option<string>): (v: Value)
    ensures stored.None? ==> v == Null
    ensures stored.Some? && c.isExternalizableType(kind) ==>
      v == (if c.readExternal(kind, stored.value).Some? then c.readExternal(kind, stored.value).value else Null)
    ensures stored.Some? && !c.isExternalizableType(kind) ==>
      v == (if c.readJson(kind, stored.value).Some? then c.readJson(kind, stored.value).value else Null)
    ensures v != Null && stored.Some? ==>
      Some(v) == (if c.isExternalizableType(kind) then c.readExternal(kind, stored.value) else c.readJson(kind, stored.value))
  {
    match stored
    case None => Null
    case Some(s) =>
      var r := if c.isExternalizableType(kind) then c.readExternal(kind, s) else c.readJson(kind, s);
      if r.Some? then r.value else Null
  }

  /**
   * What the codec promises for a value put into a cache of the given
   * declared type: the value is Externalizable exactly when the declared
   * type is, and the matching reader inverts the matching writer.
   */
  ghost predicate Faithful(c: Codec, kind: ValueKind, v: Value) {
    if c.isExternalizableType(kind) then
      && IsExternalizable(v)
      && (c.writeExternal(v).Some? ==> c.readExternal(kind, c.writeExternal(v).value) == Some(v))
    else
      && !IsExternalizable(v)
      && (c.writeJson(v).Some? ==> c.readJson(kind, c.writeJson(v).value) == Some(v))
  }

  /** A written value reads back as itself; a failed write reads back as null. */
  lemma RoundTrip(c: Codec, kind: ValueKind, v: Value)
    requires Faithful(c, kind, v)
    ensures Encode(c, v).Some? ==> Decode(c, kind, Encode(c, v)) == v
    ensures Encode(c, v).None? ==> Decode(c, kind, Encode(c, v)) == Null
  {
  }
}
