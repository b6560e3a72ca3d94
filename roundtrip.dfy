/** How the writer's dumped mapping and the reader's version gate fit
    together. */
module RoundTrip {
  import opened LockfileModel
  import opened Writer
  import opened Reader

  /** A file written by this implementation passes its own version gate,
      and the constructor receives exactly the fields that were set. */
  lemma WrittenIsReadable(path: string, lockfile: Lockfile)
    requires "version" !in lockfile.setFields
    ensures ReadResult(path, MapValue(Dumped(lockfile))) == Ok(lockfile.setFields)
  {
    var d := Dumped(lockfile);
    assert d - {"version"} == lockfile.setFields;
  }

  /** Reading an accepted document and writing the record back out gives the
      same mapping with only the version replaced by the current one: the
      version read is never kept. */
  lemma ReadThenWriteRestamps(path: string, doc: Value, package: seq<Package>, metadata: Metadata)
    requires ReadResult(path, doc).Ok?
    ensures doc.MapValue?
    ensures Dumped(Lockfile(package, metadata, ReadResult(path, doc).value))
      == doc.entries["version" := IntValue(LockfileVersion)]
  {
    var fields := ReadResult(path, doc).value;
    var d := Dumped(Lockfile(package, metadata, fields));
    var e := doc.entries["version" := IntValue(LockfileVersion)];
    assert d.Keys == e.Keys;
  }
}
