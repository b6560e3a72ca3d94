/** `parse_conda_lock_file`: the version gate between the decoded YAML
    document and the `Lockfile` constructor. */
module Reader {
  import opened LockfileModel

  /** `isinstance(version, int) and version <= maxVersion`. In Python a `bool`
      is an `int` (`True == 1`, `False == 0`), so booleans pass the type test. */
  predicate Accept(version: Value, maxVersion: int)
  {
    match version
    case IntValue(i) => i <= maxVersion
    case BoolValue(b) => (if b then 1 else 0) <= maxVersion
    case _ => false
  }

  /** The value `content.pop("version", None)` returns. */
  function VersionOf(content: map<string, Value>): Value
  {
    if "version" in content then content["version"] else NoneValue
  }

  /** What reading a decoded document gives: the keyword arguments passed to
      `Lockfile(**content)`, or the error raised before that call. */
  function ReadResult(path: string, doc: Value): (r: Result<map<string, Value>, ReadError>)
    ensures !doc.MapValue? ==> r == Err(MalformedDocument)
    ensures doc.MapValue? ==> (r.Ok? <==> Accept(VersionOf(doc.entries), LockfileVersion))
    ensures doc.MapValue? && r.Err? ==> r.error == UnknownVersion(path, VersionOf(doc.entries))
    ensures r.Ok? ==> r.value.Keys == doc.entries.Keys - {"version"}
    ensures r.Ok? ==> forall k :: k in r.value ==> r.value[k] == doc.entries[k]
  {
    if !doc.MapValue? then Err(MalformedDocument)
    else
      var version := VersionOf(doc.entries);
      if Accept(version, LockfileVersion) then Ok(doc.entries - {"version"})
      else Err(UnknownVersion(path, version))
  }

  /** `parse_conda_lock_file` after the file has been decoded: pops `version`
      from the mapping in place, checks it, and hands the rest on. */
  method ParseCondaLockFile(path: string, doc: Value) returns (r: Result<map<string, Value>, ReadError>)
    ensures r == ReadResult(path, doc)
  {
    if !doc.MapValue? {
      return Err(MalformedDocument);
    }
    var content := doc.entries;
    var version := NoneValue;
    if "version" in content {
      version := content["version"];
      content := content - {"version"};
    }
    assert content == doc.entries - {"version"};
    if !(Accept(version, LockfileVersion)) {
      return Err(UnknownVersion(path, version));
    }
    return Ok(content);
  }

  /** A document without a `version` key is refused, naming `None`. */
  lemma MissingVersionRejected(path: string, content: map<string, Value>)
    requires "version" !in content
    ensures ReadResult(path, MapValue(content)) == Err(UnknownVersion(path, NoneValue))
  {
  }

  /** A version newer than the supported one is refused. */
  lemma NewerVersionRejected(path: string, content: map<string, Value>, v: int)
    requires "version" in content && content["version"] == IntValue(v)
    requires v > LockfileVersion
    ensures ReadResult(path, MapValue(content)) == Err(UnknownVersion(path, IntValue(v)))
  {
  }

  /** Any integer version up to the supported one is accepted, and the
      constructor receives every other key unchanged. */
  lemma SupportedVersionAccepted(path: string, content: map<string, Value>, v: int)
    requires "version" in content && content["version"] == IntValue(v)
    requires v <= LockfileVersion
    ensures ReadResult(path, MapValue(content)) == Ok(content - {"version"})
  {
  }

  /** A version that is neither an integer nor a boolean (a string, a float,
      a list, a mapping, `None`) is refused whatever it says. */
  lemma NonIntegerVersionRejected(path: string, content: map<string, Value>)
    requires "version" in content
    requires !content["version"].IntValue? && !content["version"].BoolValue?
    ensures ReadResult(path, MapValue(content)).Err?
  {
  }

  /** Accepting a version accepts every older integer version too. */
  lemma AcceptOlder(v: Value, w: int, maxVersion: int)
    requires Accept(v, maxVersion)
    requires v.IntValue? && w <= v.i
    ensures Accept(IntValue(w), maxVersion)
  {
  }
}
