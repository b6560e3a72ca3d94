/** `write_conda_lock_file`: the optional comment preamble (`write_section`
    and the four help blocks) and the mapping handed to `yaml.dump`. The
    file's contents are modelled as the comment lines printed, in order,
    and the dumped mapping that follows them. */
module Writer {
  import opened Text
  import opened Order
  import opened LockfileModel

  /** `set(p.category for p in content.package)`. */
  function Categories(packages: seq<Package>): (categories: set<string>)
    ensures forall c :: c in categories <==> exists i :: 0 <= i < |packages| && packages[i].category == c
  {
    set p | p in packages :: p.category
  }

  /** The categories depend only on which packages occur, not on their
      order or on how often each occurs. */
  lemma CategoriesSameElements(p: seq<Package>, q: seq<Package>)
    requires forall x :: x in p <==> x in q
    ensures Categories(p) == Categories(q)
  {
    forall c | c in Categories(p) ensures c in Categories(q) {
      var i :| 0 <= i < |p| && p[i].category == c;
      assert p[i] in q;
    }
    forall c | c in Categories(q) ensures c in Categories(p) {
      var i :| 0 <= i < |q| && q[i].category == c;
      assert q[i] in p;
    }
  }

  /** The categories of two package lists together are the categories of
      each. */
  lemma CategoriesAppend(p: seq<Package>, q: seq<Package>)
    ensures Categories(p + q) == Categories(p) + Categories(q)
  {
    forall c | c in Categories(p + q) ensures c in Categories(p) + Categories(q) {
      var i :| 0 <= i < |p + q| && (p + q)[i].category == c;
      if i < |p| {
        assert p[i] == (p + q)[i];
      } else {
        assert q[i - |p|] == (p + q)[i];
      }
    }
    forall c | c in Categories(p) + Categories(q) ensures c in Categories(p + q) {
      if c in Categories(p) {
        var i :| 0 <= i < |p| && p[i].category == c;
        assert (p + q)[i] == p[i];
      } else {
        var i :| 0 <= i < |q| && q[i].category == c;
        assert (p + q)[|p| + i] == q[i];
      }
    }
  }

  /** `sorted(categories.difference({"main", "dev"}))`. */
  function Extras(categories: set<string>): (extras: seq<string>)
    ensures Ascending(extras)
    ensures forall x :: x in extras <==> x in categories && x != "main" && x != "dev"
  {
    Sorted(categories - {"main", "dev"})
  }

  /** `("# " + line).rstrip()`: a comment line always starts with the marker,
      never ends in whitespace, and is the bare `#` exactly when the line is
      blank. */
  function Comment(line: string): (r: string)
    ensures |r| >= 1 && r[0] == '#'
    ensures !IsSpace(r[|r| - 1])
    ensures r <= "# " + line
    ensures r == "#" <==> forall i :: 0 <= i < |line| ==> IsSpace(line[i])
  {
    CommentShape(line);
    RStrip("# " + line)
  }

  lemma CommentShape(line: string)
    ensures var r := RStrip("# " + line);
      && |r| >= 1 && r[0] == '#'
      && (r == "#" <==> forall i :: 0 <= i < |line| ==> IsSpace(line[i]))
  {
    var s := "# " + line;
    var r := RStrip(s);
    RStripKeeps(s, 0);
    assert r[0] == '#';
    if forall i :: 0 <= i < |line| ==> IsSpace(line[i]) {
      assert r == s[..1];
    }
    if r == "#" {
      forall i | 0 <= i < |line| ensures IsSpace(line[i]) {
        assert s[i + 2] == line[i];
      }
    }
  }

  /** The comment for each line, in order. */
  function Commented(lines: seq<string>): seq<string>
  {
    seq(|lines|, i requires 0 <= i < |lines| => Comment(lines[i]))
  }

  lemma CommentedSnoc(out: seq<string>, lines: seq<string>, k: nat)
    requires k < |lines|
    ensures out + Commented(lines[..k + 1]) == out + Commented(lines[..k]) + [Comment(lines[k])]
  {
    assert Commented(lines[..k + 1]) == Commented(lines[..k]) + [Comment(lines[k])];
  }

  /** A line `write_section` does not skip is the next one of `Trimmed`. */
  lemma KeptAt(lines: seq<string>, idx: nat)
    requires idx < |lines| && !Skipped(lines, idx)
    ensures var lo := if |lines| > 0 && lines[0] == "" then 1 else 0;
      lo <= idx < lo + |Trimmed(lines)| && Trimmed(lines)[idx - lo] == lines[idx]
  {
  }

  /** The test `write_section` applies to line `idx` before skipping it: an
      empty line that is the first or the last one. */
  predicate Skipped(lines: seq<string>, idx: nat)
    requires idx < |lines|
  {
    (idx == 0 || idx == |lines| - 1) && |lines[idx]| == 0
  }

  /** The lines of a block that survive: an empty first line and then an
      empty last line are dropped. What is left is one contiguous run of the
      lines, and the lines outside it are exactly the ones `Skipped` names. */
  function Trimmed(lines: seq<string>): (r: seq<string>)
    ensures var lo := if |lines| > 0 && lines[0] == "" then 1 else 0;
      && lo + |r| <= |lines|
      && r == lines[lo..lo + |r|]
      && forall idx :: 0 <= idx < |lines| ==> (Skipped(lines, idx) <==> !(lo <= idx < lo + |r|))
  {
    var front := if |lines| > 0 && lines[0] == "" then lines[1..] else lines;
    if |front| > 0 && front[|front| - 1] == "" then front[..|front| - 1] else front
  }

  /** Every line starts with the comment marker and has no trailing whitespace. */
  predicate CommentLines(h: seq<string>)
  {
    forall i :: 0 <= i < |h| ==> |h[i]| >= 1 && h[i][0] == '#' && !IsSpace(h[i][|h[i]| - 1])
  }

  /** The comment lines `write_section` prints for a block split into lines. */
  function CommentBlock(lines: seq<string>): (r: seq<string>)
    ensures |r| <= |lines|
    ensures CommentLines(r)
  {
    Commented(Trimmed(lines))
  }

  /** The comment lines `write_section(text)` prints. */
  function Section(text: string): seq<string>
  {
    CommentBlock(Split(text, '\n'))
  }

  /** `write_section`: splits the (already dedented) text into lines and
      prints each line as a comment, skipping an empty first or last line.
      `out` is what the file held before; the result is what it holds after. */
  method WriteSection(out: seq<string>, text: string) returns (r: seq<string>)
    ensures r == out + Section(text)
  {
    var lines := Split(text, '\n');
    ghost var kept := Trimmed(lines);
    ghost var lo := if |lines| > 0 && lines[0] == "" then 1 else 0;
    ghost var k := 0;
    r := out;
    for idx := 0 to |lines|
      invariant k == (if idx <= lo then 0 else if idx - lo >= |kept| then |kept| else idx - lo)
      invariant r == out + Commented(kept[..k])
    {
      var line := lines[idx];
      if (idx == 0 || idx == |lines| - 1) && |line| == 0 {
        assert Skipped(lines, idx);
        continue;
      }
      KeptAt(lines, idx);
      assert k == idx - lo;
      CommentedSnoc(out, kept, k);
      r := r + [Comment(line)];
      k := k + 1;
    }
    assert kept[..k] == kept;
  }

  /** A help block as `dedent` leaves it: the newline that opens the
      triple-quoted literal, the block's lines, and the closing line whose
      indentation `dedent` reduces to nothing. */
  function Dedented(lines: seq<string>): string
  {
    "\n" + Join("\n", lines) + "\n"
  }

  // The prose lines of the help blocks. Each literal is spelled in short
  // pieces so that facts about its characters (no line break in it) stay
  // cheap to check.

  /** How every command line of the help text begins: the indentation, then
      the program's name. */
  const Invocation := "    conda-lock "

  /** The prose of the introductory block, ahead of its install command. */
  const IntroTitle :=
    "This lock file " + "was generated " + "by conda-lock " + "(https://github."
    + "com/conda-incuba" + "tor/conda-lock)." + " DO NOT EDIT!"
  const IntroExplain1 :=
    "A \"lock file\" " + "contains a " + "concrete list " + "of package "
    + "versions (with " + "checksums) to " + "be installed. " + "Unlike"
  const IntroExplain2 :=
    "e.g. `conda env " + "create`, the " + "resulting " + "environment "
    + "will not change " + "as new package " + "versions become"
  const IntroExplain3 :=
    "available, " + "unless you " + "explicitly " + "update the lock "
    + "file."
  const IntroInstall :=
    "Install this " + "environment as " + "\"YOURENV\" with:"

  /** The introductory block, always printed first. */
  function IntroLines(name: string): seq<string>
  {
    [ IntroTitle, "", IntroExplain1, IntroExplain2, IntroExplain3, "", IntroInstall,
      Invocation + "install " + "-n YOURENV " + "--file " + name ]
  }

  /** First line of the block printed when there are development dependencies. */
  const DevHeader :=
    "This lock " + "contains " + "optional " + "development "
    + "dependencies. " + "Include them in " + "the installed " + "environment "
    + "with:"

  function DevLines(name: string): seq<string>
  {
    [ DevHeader,
      Invocation + "install " + "--dev-dependencies " + "-n YOURENV " + "--file " + name ]
  }

  /** How the first line of the extras block begins and ends. */
  const ExtrasHeaderStart :=
    "This lock " + "contains " + "optional " + "dependency "
    + "categories "
  const ExtrasHeaderEnd :=
    ". Include them " + "in the " + "installed " + "environment "
    + "with:"

  /** `' '.join(flag + ' ' + x for x in xs)`: one flag per element, in order. */
  function Flags(flag: string, xs: seq<string>): string
  {
    Join(" ", Prefixed(flag + " ", xs))
  }

  function ExtrasInstallCommand(extras: seq<string>, name: string): string
  {
    Invocation + "install " + Flags("-e", extras) + " -n YOURENV " + "--file " + name
  }

  function ExtrasLines(extras: seq<string>, name: string): seq<string>
  {
    [ ExtrasHeaderStart + Join(", ", extras) + ExtrasHeaderEnd,
      ExtrasInstallCommand(extras, name) ]
  }

  function ResolveCommand(sources: seq<string>, name: string): string
  {
    Invocation + Flags("-f", sources) + " --lockfile " + name
  }

  /** The prose lines ahead of the two commands of the closing block. */
  const UpdateProse :=
    "To update a " + "single package " + "to the latest " + "version "
    + "compatible with " + "the version " + "constraints in " + "the source:"
  const ResolveProse :=
    "To re-solve the " + "entire " + "environment, " + "e.g. after "
    + "changing a " + "version " + "constraint in " + "the source file:"

  /** The closing block, always printed last. */
  function ClosingLines(sources: seq<string>, name: string): seq<string>
  {
    [ UpdateProse,
      Invocation + "lock " + "--lockfile " + name + " --update PACKAGE",
      ResolveProse,
      ResolveCommand(sources, name) ]
  }

  /** The comment preamble printed for `lockfile` written to a file called
      `name`: intro, dev (optional), extras (optional), closing. */
  function HelpText(lockfile: Lockfile, name: string): (h: seq<string>)
    ensures CommentLines(h)
  {
    var categories := Categories(lockfile.package);
    var extras := Extras(categories);
    var intro := Section(Dedented(IntroLines(name)));
    var dev := if "dev" in categories then Section(Dedented(DevLines(name))) else [];
    var extra := if extras != [] then Section(Dedented(ExtrasLines(extras, name))) else [];
    var closing := Section(Dedented(ClosingLines(lockfile.metadata.sources, name)));
    CommentLinesAppend(intro, dev);
    CommentLinesAppend(intro + dev, extra);
    CommentLinesAppend(intro + dev + extra, closing);
    intro + dev + extra + closing
  }

  lemma CommentLinesAppend(a: seq<string>, b: seq<string>)
    requires CommentLines(a) && CommentLines(b)
    ensures CommentLines(a + b)
  {
    forall i | 0 <= i < |a + b| ensures |(a + b)[i]| >= 1 {
      if i >= |a| {
        assert (a + b)[i] == b[i - |a|];
      }
    }
  }

  /** `{"version": Lockfile.version, **content.dict(...)}`: the set fields
      under the current version stamp; a set field of the same name would
      win, as in a Python dict display. */
  function Dumped(lockfile: Lockfile): (doc: map<string, Value>)
    ensures doc.Keys == lockfile.setFields.Keys + {"version"}
    ensures "version" !in lockfile.setFields ==> doc["version"] == IntValue(LockfileVersion)
    ensures forall k :: k in lockfile.setFields ==> doc[k] == lockfile.setFields[k]
  {
    map["version" := IntValue(LockfileVersion)] + lockfile.setFields
  }

  /** `write_conda_lock_file`: the comment lines printed (none without help
      text) and the mapping dumped after them. */
  method WriteCondaLockFile(content: Lockfile, name: string, includeHelpText: bool := true)
    returns (comments: seq<string>, doc: map<string, Value>)
    ensures comments == if includeHelpText then HelpText(content, name) else []
    ensures doc == Dumped(content)
  {
    comments := [];
    if includeHelpText {
      var categories := Categories(content.package);
      ghost var intro := Section(Dedented(IntroLines(name)));
      comments := WriteSection(comments, Dedented(IntroLines(name)));
      assert comments == intro;
      ghost var dev: seq<string> := [];
      if "dev" in categories {
        dev := Section(Dedented(DevLines(name)));
        comments := WriteSection(comments, Dedented(DevLines(name)));
      }
      assert comments == intro + dev;
      var extras := Extras(categories);
      ghost var extra: seq<string> := [];
      if extras != [] {
        extra := Section(Dedented(ExtrasLines(extras, name)));
        comments := WriteSection(comments, Dedented(ExtrasLines(extras, name)));
      }
      assert comments == intro + dev + extra;
      comments := WriteSection(comments, Dedented(ClosingLines(content.metadata.sources, name)));
    }
    doc := Dumped(content);
  }
}
