# conda-lock lockfile reader and writer

This project models the two branching parts of conda-lock's lockfile module,
`conda_lock/src_parser/lockfile.py`, and proves properties of them:

- **Reading** (`parse_conda_lock_file`). The decoded YAML document has its
  `version` key popped; a missing key gives `None`. The file is accepted
  only when that value is an integer (a Python `bool` counts as one) no
  greater than `Lockfile.version`. Every other key goes on to the
  `Lockfile` constructor unchanged. A rejected file raises a `ValueError`
  that names the path and the value.
- **Writing** (`write_conda_lock_file`). With help text switched on, the
  writer prints four comment blocks:
  - an introduction;
  - a dev-dependencies block, when some package is in the `dev` category;
  - an extras block, when some category is neither `main` nor `dev`, listing
    those categories sorted and giving one `-e X` flag for each;
  - a closing block whose re-solve command gives one `-f S` flag per
    metadata source, in stored order.

  Each block goes through `write_section`. It drops an empty first line and
  an empty last line and prints every other line as `("# " + line).rstrip()`.
  After the comments comes the dumped mapping: the record's set fields,
  stamped with the current `Lockfile.version`.

Modules:

- **`Text`**: Python's `str.rstrip()`, `str.split`, `str.join`, the `prefix + x`
  generator, and how a flag list reads back as words.
- **`Order`**: Python's string order and `sorted()` of a set of strings,
  with a proof that the sorted list is unique.
- **`LockfileModel`**: the decoded YAML tree (`Value`), the `Lockfile`
  record, the supported version, and the read errors.
- **`Reader`**: the version gate, as a function and as the method that pops
  the key from the mapping in place.
- **`Writer`**: the categories and extras, `write_section` as a loop that
  appends to the output, the help blocks, the dumped mapping, and
  `write_conda_lock_file`.
- **`WriterFacts`**: the layout of the preamble, which blocks appear and
  when, and the properties of `write_section`.
- **`RoundTrip`**: writing and then reading, and reading and then writing.
- **`Examples`**: concrete extras and flag strings.

The file's contents after `write_conda_lock_file` are modelled as two
parts:

- the sequence of comment lines printed, which `WriteSection` appends to
  one line at a time;
- the mapping handed to `yaml.dump`.

`path.name` is a string parameter. The help-block prose is kept as
constants, character for character as the source has it after `dedent`.

## Model

| member | source | states |
|---|---|---|
| Reader.ReadResult | conda_lock/src_parser/lockfile.py:18-22 | a document that is not a mapping is an error; for a mapping, reading succeeds iff the popped version is accepted; a failure names the path and the popped value (`None` when absent); a success hands on exactly the keys other than `version`, with their values unchanged |
| Reader.ParseCondaLockFile | conda_lock/src_parser/lockfile.py:18-22 | popping `version` from the mapping in place, then checking it, gives exactly the result `ReadResult` describes |
| Reader.MissingVersionRejected | conda_lock/src_parser/lockfile.py:18-20 | a mapping without `version` is refused, with `None` as the value in the error |
| Reader.NewerVersionRejected | conda_lock/src_parser/lockfile.py:19-20 | an integer version above `Lockfile.version` is refused, naming that version |
| Reader.SupportedVersionAccepted | conda_lock/src_parser/lockfile.py:18-22 | any integer version up to `Lockfile.version` is accepted, and the constructor receives the mapping minus `version` |
| Reader.NonIntegerVersionRejected | conda_lock/src_parser/lockfile.py:19-20 | a version that is neither an int nor a bool is refused, whatever its value |
| Reader.AcceptOlder | conda_lock/src_parser/lockfile.py:19 | accepting a version means accepting every smaller integer version |
| Text.RStrip | conda_lock/src_parser/lockfile.py:37 | `rstrip()` leaves a prefix that does not end in whitespace, and only whitespace was removed |
| Text.Split | conda_lock/src_parser/lockfile.py:33 | `split("\n")` gives at least one piece, and no piece holds the separator |
| Text.JoinSplit | conda_lock/src_parser/lockfile.py:33 | joining the pieces of a split with the separator gives the original text back |
| Text.SplitJoin | conda_lock/src_parser/lockfile.py:33 | splitting a join of separator-free pieces gives those pieces back |
| Text.FlagWords | conda_lock/src_parser/lockfile.py:63 | the flag string, read back as space-separated words, is `flag x0 flag x1 ...`: one flag before each element, in the order given |
| Text.InterleaveAt | conda_lock/src_parser/lockfile.py:71 | in the flag words, word `2i` is the flag and word `2i+1` is the i-th element |
| Order.LessTotal | conda_lock/src_parser/lockfile.py:58 | Python's string order is total: of two distinct strings one is smaller |
| Order.LessTransitive | conda_lock/src_parser/lockfile.py:58 | Python's string order is transitive |
| Order.Sorted | conda_lock/src_parser/lockfile.py:58 | `sorted` of a set lists every element exactly once, in strictly increasing order |
| Order.AscendingUnique | conda_lock/src_parser/lockfile.py:58 | two strictly increasing lists with the same elements are equal, so `sorted` has only one possible answer |
| Writer.CategoriesSameElements | conda_lock/src_parser/lockfile.py:30 | the category set depends only on which packages occur, not on their order or multiplicity |
| Writer.CategoriesAppend | conda_lock/src_parser/lockfile.py:30 | the categories of two package lists together are the union of the categories of each |
| Writer.Extras | conda_lock/src_parser/lockfile.py:58 | the extras are strictly increasing and hold exactly the categories other than `main` and `dev` |
| Writer.Comment | conda_lock/src_parser/lockfile.py:37 | a printed line starts with `#`, never ends in whitespace, is a prefix of `"# " + line`, and is the bare `#` iff the line is all whitespace |
| Writer.Trimmed | conda_lock/src_parser/lockfile.py:34-36 | the lines kept form one contiguous run, and a line falls outside it iff it is empty and first or last |
| Writer.CommentBlock | conda_lock/src_parser/lockfile.py:33-37 | a block prints at most as many lines as it has, each starting with `#` and without trailing whitespace |
| Writer.WriteSection | conda_lock/src_parser/lockfile.py:32-37 | the loop over the block's lines appends exactly the comments of the lines that are not skipped, in order, to what was printed before |
| Writer.HelpText | conda_lock/src_parser/lockfile.py:39-73 | every line of the preamble starts with `#` and has no trailing whitespace |
| Writer.Dumped | conda_lock/src_parser/lockfile.py:75-79 | the dumped mapping has the set fields plus `version`, which is `Lockfile.version` unless a set field of that name overrides it; set fields keep their values |
| Writer.WriteCondaLockFile | conda_lock/src_parser/lockfile.py:25-81 | help text is on by default; without help text no comment line is printed; with it, the printed lines are the preamble; the dumped mapping is the stamped set fields |
| WriterFacts.SectionOfDedented | conda_lock/src_parser/lockfile.py:33-37 | a block written as a triple-quoted literal prints exactly one comment per line; only the literal's opening and closing empty lines are dropped |
| WriterFacts.HelpTextLayout | conda_lock/src_parser/lockfile.py:39-73 | the preamble is intro, then dev if `dev` is a category, then extras if there are any, then closing, each block one comment per line |
| WriterFacts.CommentBlockAt | conda_lock/src_parser/lockfile.py:34-37 | every line that is not skipped is printed, as its comment, at its position less the skipped first line; the block prints its line count minus the skipped lines |
| WriterFacts.BlankInteriorLine | conda_lock/src_parser/lockfile.py:35-37 | an empty line inside a block is printed as the bare `#`, at its own position less the skipped first line |
| WriterFacts.BlockLineCount | conda_lock/src_parser/lockfile.py:34-37 | every block, empty or not, prints its line count minus the skipped first and last empty lines |
| WriterFacts.CommentWhole | conda_lock/src_parser/lockfile.py:37 | a line ending in a non-space character is printed as `"# " + line` unchanged |
| WriterFacts.DevHeaderMarked | conda_lock/src_parser/lockfile.py:54 | the dev block's first line prints as the dev marker and does not begin like the extras header |
| WriterFacts.ExtrasHeaderMarked | conda_lock/src_parser/lockfile.py:62 | the extras block's first line begins with the extras marker, whatever the extras are, and is not the dev marker |
| WriterFacts.IntroUnmarked | conda_lock/src_parser/lockfile.py:39-50 | no line of the intro block prints as the dev marker or begins with the extras marker |
| WriterFacts.ClosingUnmarked | conda_lock/src_parser/lockfile.py:66-73 | no line of the closing block prints as either marker |
| WriterFacts.DevBlockIff | conda_lock/src_parser/lockfile.py:30-57 | the dev block's first line is in the preamble iff some package is in the `dev` category |
| WriterFacts.ExtrasBlockIff | conda_lock/src_parser/lockfile.py:58-65 | some preamble line begins like the extras header iff the extras are not empty |
| WriterFacts.ExtrasCommandPrinted | conda_lock/src_parser/lockfile.py:59-65 | with extras, the install command with one `-e` flag per extra is printed |
| WriterFacts.HelpTextEnds | conda_lock/src_parser/lockfile.py:39-73 | the intro block always opens the preamble and the closing block always ends it; the last line is the re-solve command |
| WriterFacts.ExtrasDistinct | conda_lock/src_parser/lockfile.py:58 | the extras hold no duplicates |
| WriterFacts.ExtrasDetermined | conda_lock/src_parser/lockfile.py:30-58 | any increasing listing of the packages' categories other than `main` and `dev` is the extras list |
| WriterFacts.ExtrasIgnorePackageOrder | conda_lock/src_parser/lockfile.py:30-58 | package lists with the same packages, in any order or multiplicity, give the same extras |
| RoundTrip.WrittenIsReadable | conda_lock/src_parser/lockfile.py:18-22 | a written mapping passes the version gate, and the constructor receives exactly the set fields (when none is called `version`) |
| RoundTrip.ReadThenWriteRestamps | conda_lock/src_parser/lockfile.py:75-79 | reading an accepted document and writing the record back gives the document with only its version replaced by `Lockfile.version`, for a record whose set fields are the keyword mapping it was built from |
| Examples.ExtrasSorted | conda_lock/src_parser/lockfile.py:58 | categories `main`, `b`, `a` give the extras `a`, `b` |
| Examples.ExtrasSkipDev | conda_lock/src_parser/lockfile.py:58 | categories `main`, `dev`, `test` give the single extra `test` |
| Examples.MainOnlyNoExtras | conda_lock/src_parser/lockfile.py:51-59 | packages all in `main` give neither a dev block nor extras |
| Examples.SourceFlags | conda_lock/src_parser/lockfile.py:71 | sources `env.yml`, `extra.yml` give the flags `-f env.yml -f extra.yml` |
| Examples.NoSourceFlags | conda_lock/src_parser/lockfile.py:71 | no sources give an empty flag string |

## Left out

- The file existence check and its `FileNotFoundError` (lines 13-14), opening the file, and `print` to it: this is I/O. The output is the returned sequence of comment lines, and `path.name` is a parameter.
- `yaml.safe_load` and `yaml.dump` (lines 17, 75-81): a foreign codec. The decoded document is a `Value` tree handed to the reader, and the dumped mapping is the writer's result, not YAML text.
- The pydantic parts of `Lockfile(**content)` and `content.dict(by_alias=True, exclude_unset=True)` (lines 22, 78): strict construction, aliases and unset-field tracking are library internals. The reader returns the keyword mapping the constructor receives; `setFields` stands for the mapping `dict` returns.
- `Lockfile.version` is defined outside this file; it is modelled as the constant 1.
- `textwrap.dedent` is a library call. Each block is modelled as its text after dedenting: an opening newline, the block's lines joined by newlines, and a closing newline. The triple-quoted literals' closing lines hold only indentation, which `dedent` reduces to nothing.
- The text of the `ValueError` message: the error carries the path and the value instead.
- The `package` entries' fields other than `category`, and the metadata other than `sources`: the help text reads nothing else.
- Reader.ReadResult: the version read is not kept (`Lockfile(**content)` receives the mapping without it), negative integers are accepted, and `True`/`False` pass as 1/0, as `isinstance(version, int)` does.
- Reader.ReadResult: a document that is not a mapping makes `content.pop("version", None)` raise in the code: `AttributeError` for an empty file (`None`) or a scalar, `TypeError` for a list, since `list.pop` takes at most one argument. The model reports every such case as the one error `MalformedDocument`.
- WriterFacts.DevBlockIff, WriterFacts.ExtrasBlockIff, WriterFacts.HelpTextLayout, WriterFacts.HelpTextEnds, WriterFacts.ExtrasCommandPrinted: these assume that the file name, the categories and the sources hold no line break. A line break in them would split a block's lines further.
- Writer.HelpText, Writer.WriteCondaLockFile: these differ from the program when the file name, a category or a source holds a line break. The text after such a break has no indentation in the f-string, so `dedent` finds no common margin and the program prints the whole block with its source indentation (a file name `"a\nb"` prints the intro title as `# ` followed by the title with its sixteen spaces of source indentation). The model always prints the block as dedented.
- RoundTrip.ReadThenWriteRestamps: it assumes that `Lockfile(**kw).dict(by_alias=True, exclude_unset=True)` gives back `kw`, with no pydantic coercion, default filling or alias renaming, because the record is built with the read mapping as its set fields.
