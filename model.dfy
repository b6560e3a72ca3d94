/** The values the lockfile reader and writer handle: the decoded YAML tree,
    the parts of the `Lockfile` record that the core interprets, and the
    supported format version. */
module LockfileModel {

  /** A node of the tree `yaml.safe_load` produces. Floats are kept only as
      their source text, and other scalars (timestamps, for one) are left
      out: the core never looks inside them. */
  datatype Value =
    | NoneValue
    | BoolValue(b: bool)
    | IntValue(i: int)
    | FloatValue(literal: string)
    | StrValue(s: string)
    | ListValue(items: seq<Value>)
    | MapValue(entries: map<string, Value>)

  /** `Lockfile.version`, the newest format version this implementation reads
      and the one it stamps on every file it writes. */
  const LockfileVersion: int := 1

  /** A package entry; `category` is the only field the core interprets. */
  datatype Package = Package(category: string)

  /** The lockfile metadata; `sources` are the input specifications the
      lock was solved from, in their stored order. */
  datatype Metadata = Metadata(sources: seq<string>)

  /** A `Lockfile` record: the package list and metadata the help text is
      derived from, and `setFields`, the mapping
      `content.dict(by_alias=True, exclude_unset=True)` returns for it. */
  datatype Lockfile = Lockfile(package: seq<Package>, metadata: Metadata, setFields: map<string, Value>)

  /** Why reading a lockfile fails. */
  datatype ReadError =
      /** The decoded document is not a mapping, so `content.pop` raises. */
    | MalformedDocument
      /** `ValueError`: the popped version is not an accepted integer; the
          message names the path and the value. */
    | UnknownVersion(path: string, version: Value)

  datatype Result<T, E> = Ok(value: T) | Err(error: E)
}
