/** What the help-text preamble and the dumped mapping of
    `write_conda_lock_file` promise, proved about the model in `Writer`. */
module WriterFacts {
  import opened Text
  import opened Order
  import opened LockfileModel
  import opened Writer
  import Reader

  /** No text that ends up inside a help block holds a line break, so every
      block splits into exactly the lines it was written with. */
  predicate SingleLine(lockfile: Lockfile, name: string)
  {
    && '\n' !in name
    && (forall i :: 0 <= i < |lockfile.package| ==> '\n' !in lockfile.package[i].category)
    && (forall i :: 0 <= i < |lockfile.metadata.sources| ==> '\n' !in lockfile.metadata.sources[i])
  }

  predicate NoBreaks(lines: seq<string>)
  {
    forall i :: 0 <= i < |lines| ==> '\n' !in lines[i]
  }

  /** A block written without line breaks in its lines comes out as exactly
      one comment per line: the empty first and last lines of the
      triple-quoted literal are the only ones `write_section` drops. */
  lemma {:induction false} SectionOfDedented(lines: seq<string>)
    requires |lines| >= 1 && NoBreaks(lines)
    ensures Section(Dedented(lines)) == Commented(lines)
  {
    var pieces := [""] + lines + [""];
    JoinSnoc("\n", lines, "");
    assert pieces[1..] == lines + [""];
    assert Join("\n", pieces) == "" + "\n" + Join("\n", lines + [""]);
    assert Dedented(lines) == Join("\n", pieces);
    forall i | 0 <= i < |pieces| ensures '\n' !in pieces[i] {
      if 0 < i < |pieces| - 1 {
        assert pieces[i] == lines[i - 1];
      }
    }
    SplitJoin(pieces, '\n');
    assert Trimmed(pieces) == lines;
  }

  lemma FlagsNoBreaks(flag: string, xs: seq<string>)
    requires '\n' !in flag && NoBreaks(xs)
    ensures '\n' !in Flags(flag, xs)
  {
    var ps := Prefixed(flag + " ", xs);
    forall i | 0 <= i < |ps| ensures '\n' !in ps[i] {
      assert ps[i] == flag + " " + xs[i];
    }
    JoinFree(" ", ps, '\n');
  }

  lemma ExtrasNoBreaks(lockfile: Lockfile)
    requires SingleLine(lockfile, "")
    ensures NoBreaks(Extras(Categories(lockfile.package)))
  {
    var extras := Extras(Categories(lockfile.package));
    forall i | 0 <= i < |extras| ensures '\n' !in extras[i] {
      assert extras[i] in extras;
      var j :| 0 <= j < |lockfile.package| && lockfile.package[j].category == extras[i];
    }
  }

  // None of the prose lines holds a line break.
  lemma IntroTitleNoBreak() ensures '\n' !in IntroTitle
  {
    assert '\n' !in "This lock file ";
    assert '\n' !in "was generated ";
    assert '\n' !in "by conda-lock ";
    assert '\n' !in "(https://github.";
    assert '\n' !in "com/conda-incuba";
    assert '\n' !in "tor/conda-lock).";
    assert '\n' !in " DO NOT EDIT!";
  }
  lemma IntroExplain1NoBreak() ensures '\n' !in IntroExplain1
  {
    assert '\n' !in "A \"lock file\" ";
    assert '\n' !in "contains a ";
    assert '\n' !in "concrete list ";
    assert '\n' !in "of package ";
    assert '\n' !in "versions (with ";
    assert '\n' !in "checksums) to ";
    assert '\n' !in "be installed. ";
    assert '\n' !in "Unlike";
  }
  lemma IntroExplain2NoBreak() ensures '\n' !in IntroExplain2
  {
    assert '\n' !in "e.g. `conda env ";
    assert '\n' !in "create`, the ";
    assert '\n' !in "resulting ";
    assert '\n' !in "environment ";
    assert '\n' !in "will not change ";
    assert '\n' !in "as new package ";
    assert '\n' !in "versions become";
  }
  lemma IntroExplain3NoBreak() ensures '\n' !in IntroExplain3
  {
    assert '\n' !in "available, ";
    assert '\n' !in "unless you ";
    assert '\n' !in "explicitly ";
    assert '\n' !in "update the lock ";
    assert '\n' !in "file.";
  }
  lemma IntroInstallNoBreak() ensures '\n' !in IntroInstall
  {
    assert '\n' !in "Install this ";
    assert '\n' !in "environment as ";
    assert '\n' !in "\"YOURENV\" with:";
  }
  lemma DevHeaderNoBreak() ensures '\n' !in DevHeader
  {
    assert '\n' !in "This lock ";
    assert '\n' !in "contains ";
    assert '\n' !in "optional ";
    assert '\n' !in "development ";
    assert '\n' !in "dependencies. ";
    assert '\n' !in "Include them in ";
    assert '\n' !in "the installed ";
    assert '\n' !in "environment ";
    assert '\n' !in "with:";
  }
  lemma ExtrasHeaderStartNoBreak() ensures '\n' !in ExtrasHeaderStart
  {
    assert '\n' !in "This lock ";
    assert '\n' !in "contains ";
    assert '\n' !in "optional ";
    assert '\n' !in "dependency ";
    assert '\n' !in "categories ";
  }
  lemma ExtrasHeaderEndNoBreak() ensures '\n' !in ExtrasHeaderEnd
  {
    assert '\n' !in ". Include them ";
    assert '\n' !in "in the ";
    assert '\n' !in "installed ";
    assert '\n' !in "environment ";
    assert '\n' !in "with:";
  }
  lemma UpdateProseNoBreak() ensures '\n' !in UpdateProse
  {
    assert '\n' !in "To update a ";
    assert '\n' !in "single package ";
    assert '\n' !in "to the latest ";
    assert '\n' !in "version ";
    assert '\n' !in "compatible with ";
    assert '\n' !in "the version ";
    assert '\n' !in "constraints in ";
    assert '\n' !in "the source:";
  }
  lemma ResolveProseNoBreak() ensures '\n' !in ResolveProse
  {
    assert '\n' !in "To re-solve the ";
    assert '\n' !in "entire ";
    assert '\n' !in "environment, ";
    assert '\n' !in "e.g. after ";
    assert '\n' !in "changing a ";
    assert '\n' !in "version ";
    assert '\n' !in "constraint in ";
    assert '\n' !in "the source file:";
  }

  lemma IntroNoBreaks(name: string)
    requires '\n' !in name
    ensures NoBreaks(IntroLines(name))
  {
    IntroTitleNoBreak();
    IntroExplain1NoBreak();
    IntroExplain2NoBreak();
    IntroExplain3NoBreak();
    IntroInstallNoBreak();
  }

  lemma DevNoBreaks(name: string)
    requires '\n' !in name
    ensures NoBreaks(DevLines(name))
  {
    DevHeaderNoBreak();
  }

  lemma ExtrasLinesNoBreaks(extras: seq<string>, name: string)
    requires '\n' !in name && NoBreaks(extras)
    ensures NoBreaks(ExtrasLines(extras, name))
  {
    ExtrasHeaderStartNoBreak();
    ExtrasHeaderEndNoBreak();
    JoinFree(", ", extras, '\n');
    FlagsNoBreaks("-e", extras);
  }

  lemma ClosingNoBreaks(sources: seq<string>, name: string)
    requires '\n' !in name && NoBreaks(sources)
    ensures NoBreaks(ClosingLines(sources, name))
  {
    UpdateProseNoBreak();
    ResolveProseNoBreak();
    FlagsNoBreaks("-f", sources);
  }

  /** The preamble is the intro block, the dev block when a package is in
      the `dev` category, the extras block when some category is neither
      `main` nor `dev`, and the closing block, in that order, each block
      contributing one comment per line. */
  lemma HelpTextLayout(lockfile: Lockfile, name: string)
    requires SingleLine(lockfile, name)
    ensures var categories := Categories(lockfile.package);
      var extras := Extras(categories);
      HelpText(lockfile, name)
      == Commented(IntroLines(name))
      + (if "dev" in categories then Commented(DevLines(name)) else [])
      + (if extras != [] then Commented(ExtrasLines(extras, name)) else [])
      + Commented(ClosingLines(lockfile.metadata.sources, name))
  {
    var extras := Extras(Categories(lockfile.package));
    IntroNoBreaks(name);
    DevNoBreaks(name);
    ExtrasNoBreaks(lockfile);
    ExtrasLinesNoBreaks(extras, name);
    ClosingNoBreaks(lockfile.metadata.sources, name);
    SectionOfDedented(IntroLines(name));
    SectionOfDedented(DevLines(name));
    SectionOfDedented(ExtrasLines(extras, name));
    SectionOfDedented(ClosingLines(lockfile.metadata.sources, name));
  }

  // ----- write_section -----

  /** The number of lines `write_section` skips: an empty first line, and an
      empty last line when it is not also the first. */
  function SkipCount(lines: seq<string>): nat
  {
    (if |lines| > 0 && Skipped(lines, 0) then 1 else 0)
    + (if |lines| > 1 && Skipped(lines, |lines| - 1) then 1 else 0)
  }

  /** However many lines a block has, it prints all of them but the
      skipped ones. */
  lemma BlockLineCount(lines: seq<string>)
    ensures |CommentBlock(lines)| == |lines| - SkipCount(lines)
  {
  }

  /** Every line that is not skipped is printed, as its comment, in order;
      the output is exactly as long as the lines left after the skips. */
  lemma CommentBlockAt(lines: seq<string>, idx: nat)
    requires idx < |lines| && !Skipped(lines, idx)
    ensures var lo := if Skipped(lines, 0) then 1 else 0;
      && lo <= idx && idx - lo < |CommentBlock(lines)|
      && CommentBlock(lines)[idx - lo] == Comment(lines[idx])
      && |CommentBlock(lines)| == |lines| - SkipCount(lines)
  {
    KeptAt(lines, idx);
    BlockLineCount(lines);
  }

  /** An empty line inside a block is printed, at its own position less the
      skipped first line, as the bare marker `#`. */
  lemma BlankInteriorLine(lines: seq<string>, idx: nat)
    requires 0 < idx < |lines| - 1 && lines[idx] == ""
    ensures idx - (if Skipped(lines, 0) then 1 else 0) < |CommentBlock(lines)|
    ensures CommentBlock(lines)[idx - (if Skipped(lines, 0) then 1 else 0)] == "#"
  {
    CommentBlockAt(lines, idx);
  }

  // ----- which lines are which -----

  /** A comment differs from `t` when the line has a non-space character at
      `j` that `t` does not have two places further on. */
  lemma CommentDiffers(line: string, j: nat, t: string)
    requires j < |line| && !IsSpace(line[j])
    requires j + 2 < |t| && t[j + 2] != line[j]
    ensures Comment(line) != t && !(t <= Comment(line))
  {
    RStripKeeps("# " + line, j + 2);
  }

  /** A line that ends in a non-space character is printed as `# line`. */
  lemma CommentWhole(line: string)
    requires |line| > 0 && !IsSpace(line[|line| - 1])
    ensures Comment(line) == "# " + line
  {
    RStripKeeps("# " + line, |line| + 1);
  }

  /** The printed form of the first line of the dev block. */
  function DevMarker(): string { "# " + DevHeader }

  /** How the printed first line of the extras block begins. */
  function ExtrasMarker(): string { "# " + ExtrasHeaderStart }

  /** The characters of the markers that tell the blocks' lines apart. */
  lemma MarkerChars()
    ensures |DevMarker()| > 32 && |ExtrasMarker()| > 32
    ensures DevMarker()[2] == 'T' && DevMarker()[3] == 'h' && DevMarker()[6] == ' '
    ensures DevMarker()[12] == 'c' && DevMarker()[32] == 'v'
    ensures ExtrasMarker()[2] == 'T' && ExtrasMarker()[3] == 'h' && ExtrasMarker()[6] == ' '
    ensures ExtrasMarker()[12] == 'c' && ExtrasMarker()[32] == 'p'
  {
  }

  /** A line whose character `j` differs from both markers at `j + 2` is
      printed as neither marker. */
  lemma NoMarker(line: string, j: nat)
    requires j < |line| && !IsSpace(line[j])
    requires j + 2 < |DevMarker()| && j + 2 < |ExtrasMarker()|
    requires line[j] != DevMarker()[j + 2] && line[j] != ExtrasMarker()[j + 2]
    ensures Comment(line) != DevMarker() && !(ExtrasMarker() <= Comment(line))
  {
    CommentDiffers(line, j, DevMarker());
    CommentDiffers(line, j, ExtrasMarker());
  }

  /** The printed form of `line` is not the dev marker. */
  predicate NotDev(line: string)
  {
    Comment(line) != DevMarker()
  }

  /** The printed form of `line` does not begin with the extras marker. */
  predicate NotExtras(line: string)
  {
    !(ExtrasMarker() <= Comment(line))
  }

  /** An empty line prints as `#`, too short for either marker. */
  lemma EmptyUnmarked()
    ensures NotDev("") && NotExtras("")
  {
    MarkerChars();
  }

  /** A command line (four spaces of indentation, then `conda-lock`) is
      printed as neither marker. */
  lemma CommandUnmarked(rest: string)
    ensures NotDev(Invocation + rest) && NotExtras(Invocation + rest)
  {
    MarkerChars();
    var line := Invocation + rest;
    assert line[4] == 'c';
    NoMarker(line, 4);
  }

  // The prose lines other than the two block headers are printed as
  // neither marker.
  lemma IntroTitleUnmarked() ensures NotDev(IntroTitle) && NotExtras(IntroTitle)
  {
    MarkerChars();
    assert IntroTitle[10] == 'f';
    NoMarker(IntroTitle, 10);
  }
  lemma IntroExplain1Unmarked() ensures NotDev(IntroExplain1) && NotExtras(IntroExplain1)
  {
    MarkerChars();
    assert IntroExplain1[0] == 'A';
    NoMarker(IntroExplain1, 0);
  }
  lemma IntroExplain2Unmarked() ensures NotDev(IntroExplain2) && NotExtras(IntroExplain2)
  {
    MarkerChars();
    assert IntroExplain2[0] == 'e';
    NoMarker(IntroExplain2, 0);
  }
  lemma IntroExplain3Unmarked() ensures NotDev(IntroExplain3) && NotExtras(IntroExplain3)
  {
    MarkerChars();
    assert IntroExplain3[0] == 'a';
    NoMarker(IntroExplain3, 0);
  }
  lemma IntroInstallUnmarked() ensures NotDev(IntroInstall) && NotExtras(IntroInstall)
  {
    MarkerChars();
    assert IntroInstall[0] == 'I';
    NoMarker(IntroInstall, 0);
  }
  lemma UpdateProseUnmarked() ensures NotDev(UpdateProse) && NotExtras(UpdateProse)
  {
    MarkerChars();
    assert UpdateProse[1] == 'o';
    NoMarker(UpdateProse, 1);
  }
  lemma ResolveProseUnmarked() ensures NotDev(ResolveProse) && NotExtras(ResolveProse)
  {
    MarkerChars();
    assert ResolveProse[1] == 'o';
    NoMarker(ResolveProse, 1);
  }

  /** The dev header is printed as the dev marker and not as the extras one. */
  lemma DevHeaderMarked()
    ensures Comment(DevHeader) == DevMarker() && NotExtras(DevHeader)
  {
    MarkerChars();
    assert DevHeader[|DevHeader| - 1] == ':';
    CommentWhole(DevHeader);
    assert DevHeader[30] == 'v';
    CommentDiffers(DevHeader, 30, ExtrasMarker());
  }

  /** A line `start + mid + end` with a non-space last character prints as
      `"# "` and then the line; it begins with `"# " + start` and differs from
      any `t` that has another character two places past `start[j]`. */
  lemma HeaderShape(start: string, mid: string, end: string, j: nat, t: string)
    requires j < |start| && !IsSpace(start[j]) && j + 2 < |t| && t[j + 2] != start[j]
    requires |end| > 0 && !IsSpace(end[|end| - 1])
    ensures "# " + start <= Comment(start + mid + end) && Comment(start + mid + end) != t
  {
    var header := start + mid + end;
    assert header[|header| - 1] == end[|end| - 1];
    CommentWhole(header);
    assert ("# " + header)[..|start| + 2] == "# " + start;
    assert header[j] == start[j];
    CommentDiffers(header, j, t);
  }

  /** The extras header begins with the extras marker and is not the dev one. */
  lemma ExtrasHeaderMarked(extras: seq<string>)
    ensures var header := ExtrasHeaderStart + Join(", ", extras) + ExtrasHeaderEnd;
      ExtrasMarker() <= Comment(header) && NotDev(header)
  {
    MarkerChars();
    assert ExtrasHeaderStart[30] == 'p';
    assert ExtrasHeaderEnd[|ExtrasHeaderEnd| - 1] == ':';
    HeaderShape(ExtrasHeaderStart, Join(", ", extras), ExtrasHeaderEnd, 30, DevMarker());
  }

  /** Some line of `h` begins with the extras marker. */
  predicate HasExtrasLine(h: seq<string>)
  {
    exists i :: 0 <= i < |h| && ExtrasMarker() <= h[i]
  }

  lemma HasExtrasLineAppend(a: seq<string>, b: seq<string>)
    ensures HasExtrasLine(a + b) <==> HasExtrasLine(a) || HasExtrasLine(b)
  {
    if HasExtrasLine(a + b) {
      var i :| 0 <= i < |a + b| && ExtrasMarker() <= (a + b)[i];
      if i < |a| {
        assert a[i] == (a + b)[i];
      } else {
        assert b[i - |a|] == (a + b)[i];
      }
    }
    if HasExtrasLine(a) {
      var i :| 0 <= i < |a| && ExtrasMarker() <= a[i];
      assert (a + b)[i] == a[i];
    }
    if HasExtrasLine(b) {
      var i :| 0 <= i < |b| && ExtrasMarker() <= b[i];
      assert (a + b)[|a| + i] == b[i];
    }
  }

  /** Lines none of which prints as a marker give a block without markers. */
  lemma CommentedUnmarked(lines: seq<string>, dev: bool, extras: bool)
    requires dev ==> forall i :: 0 <= i < |lines| ==> NotDev(lines[i])
    requires extras ==> forall i :: 0 <= i < |lines| ==> NotExtras(lines[i])
    ensures dev ==> DevMarker() !in Commented(lines)
    ensures extras ==> !HasExtrasLine(Commented(lines))
  {
    var c := Commented(lines);
    if dev {
      forall i | 0 <= i < |c| ensures c[i] != DevMarker() {
        assert NotDev(lines[i]);
      }
    }
    if extras {
      forall i | 0 <= i < |c| ensures !(ExtrasMarker() <= c[i]) {
        assert NotExtras(lines[i]);
      }
    }
  }

  lemma IntroUnmarked(name: string)
    ensures DevMarker() !in Commented(IntroLines(name))
    ensures !HasExtrasLine(Commented(IntroLines(name)))
  {
    var ls := IntroLines(name);
    forall i | 0 <= i < |ls| ensures NotDev(ls[i]) && NotExtras(ls[i]) {
      if i == 0 {
        IntroTitleUnmarked();
      } else if i == 1 || i == 5 {
        EmptyUnmarked();
      } else if i == 2 {
        IntroExplain1Unmarked();
      } else if i == 3 {
        IntroExplain2Unmarked();
      } else if i == 4 {
        IntroExplain3Unmarked();
      } else if i == 6 {
        IntroInstallUnmarked();
      } else {
        var rest := "install " + "-n YOURENV " + "--file " + name;
        assert ls[i] == Invocation + rest;
        CommandUnmarked(rest);
      }
    }
    CommentedUnmarked(ls, true, true);
  }

  lemma DevBlockMarkers(name: string)
    ensures DevMarker() in Commented(DevLines(name))
    ensures !HasExtrasLine(Commented(DevLines(name)))
  {
    var ls := DevLines(name);
    DevHeaderMarked();
    assert Commented(ls)[0] == DevMarker();
    var rest := "install " + "--dev-dependencies " + "-n YOURENV " + "--file " + name;
    assert ls[1] == Invocation + rest;
    CommandUnmarked(rest);
    CommentedUnmarked(ls, false, true);
  }

  lemma ExtrasBlockMarkers(extras: seq<string>, name: string)
    ensures DevMarker() !in Commented(ExtrasLines(extras, name))
    ensures HasExtrasLine(Commented(ExtrasLines(extras, name)))
  {
    var ls := ExtrasLines(extras, name);
    ExtrasHeaderMarked(extras);
    assert ExtrasMarker() <= Commented(ls)[0];
    var rest := "install " + Flags("-e", extras) + " -n YOURENV " + "--file " + name;
    assert ls[1] == Invocation + rest;
    CommandUnmarked(rest);
    CommentedUnmarked(ls, true, false);
  }

  lemma ClosingUnmarked(sources: seq<string>, name: string)
    ensures DevMarker() !in Commented(ClosingLines(sources, name))
    ensures !HasExtrasLine(Commented(ClosingLines(sources, name)))
  {
    var ls := ClosingLines(sources, name);
    forall i | 0 <= i < |ls| ensures NotDev(ls[i]) && NotExtras(ls[i]) {
      if i == 0 {
        UpdateProseUnmarked();
      } else if i == 1 {
        var rest := "lock " + "--lockfile " + name + " --update PACKAGE";
        assert ls[i] == Invocation + rest;
        CommandUnmarked(rest);
      } else if i == 2 {
        ResolveProseUnmarked();
      } else {
        var rest := Flags("-f", sources) + " --lockfile " + name;
        assert ls[i] == Invocation + rest;
        CommandUnmarked(rest);
      }
    }
    CommentedUnmarked(ls, true, true);
  }

  /** The dev block, recognised by its printed first line, is in the
      preamble exactly when some package is in the `dev` category. */
  lemma DevBlockIff(lockfile: Lockfile, name: string)
    requires SingleLine(lockfile, name)
    ensures DevMarker() in HelpText(lockfile, name) <==> "dev" in Categories(lockfile.package)
  {
    var categories := Categories(lockfile.package);
    var extras := Extras(categories);
    var intro := Commented(IntroLines(name));
    var dev := if "dev" in categories then Commented(DevLines(name)) else [];
    var extra := if extras != [] then Commented(ExtrasLines(extras, name)) else [];
    var closing := Commented(ClosingLines(lockfile.metadata.sources, name));
    HelpTextLayout(lockfile, name);
    assert HelpText(lockfile, name) == intro + dev + extra + closing;
    IntroUnmarked(name);
    DevBlockMarkers(name);
    ExtrasBlockMarkers(extras, name);
    ClosingUnmarked(lockfile.metadata.sources, name);
  }

  /** The extras block, recognised by how its printed first line begins, is
      in the preamble exactly when some category is neither `main` nor `dev`. */
  lemma ExtrasBlockIff(lockfile: Lockfile, name: string)
    requires SingleLine(lockfile, name)
    ensures HasExtrasLine(HelpText(lockfile, name)) <==> Extras(Categories(lockfile.package)) != []
  {
    var categories := Categories(lockfile.package);
    var extras := Extras(categories);
    var intro := Commented(IntroLines(name));
    var dev := if "dev" in categories then Commented(DevLines(name)) else [];
    var extra := if extras != [] then Commented(ExtrasLines(extras, name)) else [];
    var closing := Commented(ClosingLines(lockfile.metadata.sources, name));
    HelpTextLayout(lockfile, name);
    assert HelpText(lockfile, name) == intro + dev + extra + closing;
    IntroUnmarked(name);
    DevBlockMarkers(name);
    ExtrasBlockMarkers(extras, name);
    ClosingUnmarked(lockfile.metadata.sources, name);
    HasExtrasLineAppend(intro, dev);
    HasExtrasLineAppend(intro + dev, extra);
    HasExtrasLineAppend(intro + dev + extra, closing);
  }

  /** The intro block always comes first and the closing block always comes
      last; the last line printed is the re-solve command. */
  lemma HelpTextEnds(lockfile: Lockfile, name: string)
    requires SingleLine(lockfile, name)
    ensures var h := HelpText(lockfile, name);
      && |h| >= 12
      && h[..8] == Commented(IntroLines(name))
      && h[|h| - 4..] == Commented(ClosingLines(lockfile.metadata.sources, name))
      && h[|h| - 1] == Comment(ResolveCommand(lockfile.metadata.sources, name))
  {
    var categories := Categories(lockfile.package);
    var extras := Extras(categories);
    var intro := Commented(IntroLines(name));
    var dev := if "dev" in categories then Commented(DevLines(name)) else [];
    var extra := if extras != [] then Commented(ExtrasLines(extras, name)) else [];
    var closing := Commented(ClosingLines(lockfile.metadata.sources, name));
    HelpTextLayout(lockfile, name);
    ConcatEnds(intro, dev, extra, closing);
    assert |intro| == 8 && |closing| == 4;
    assert closing[3] == Comment(ResolveCommand(lockfile.metadata.sources, name));
  }

  lemma ConcatEnds(a: seq<string>, b: seq<string>, c: seq<string>, d: seq<string>)
    ensures (a + b + c + d)[..|a|] == a
    ensures (a + b + c + d)[|a| + |b| + |c|..] == d
  {
  }

  /** With an extras block, its install command is printed. */
  lemma ExtrasCommandPrinted(lockfile: Lockfile, name: string)
    requires SingleLine(lockfile, name)
    requires Extras(Categories(lockfile.package)) != []
    ensures Comment(ExtrasInstallCommand(Extras(Categories(lockfile.package)), name)) in HelpText(lockfile, name)
  {
    var categories := Categories(lockfile.package);
    var extras := Extras(categories);
    var intro := Commented(IntroLines(name));
    var dev := if "dev" in categories then Commented(DevLines(name)) else [];
    var extra := Commented(ExtrasLines(extras, name));
    var closing := Commented(ClosingLines(lockfile.metadata.sources, name));
    HelpTextLayout(lockfile, name);
    var h := HelpText(lockfile, name);
    assert h == intro + dev + extra + closing;
    assert h[|intro + dev| + 1] == extra[1];
  }

  /** The extras carry no duplicates. */
  lemma ExtrasDistinct(categories: set<string>)
    ensures var extras := Extras(categories);
      forall i, j :: 0 <= i < |extras| && 0 <= j < |extras| && i != j ==> extras[i] != extras[j]
  {
    var extras := Extras(categories);
    forall i, j | 0 <= i < |extras| && 0 <= j < |extras| && i != j
      ensures extras[i] != extras[j]
    {
      LessIrreflexive(extras[i]);
    }
  }

  /** The extras are the only ascending listing of the categories other than
      `main` and `dev`: whatever order the packages come in, the list is the
      same. */
  lemma ExtrasDetermined(packages: seq<Package>, listing: seq<string>)
    requires Ascending(listing)
    requires forall c :: c in listing <==>
      (exists i :: 0 <= i < |packages| && packages[i].category == c) && c != "main" && c != "dev"
    ensures listing == Extras(Categories(packages))
  {
    AscendingUnique(listing, Extras(Categories(packages)));
  }

  /** Reordering or repeating packages leaves the extras unchanged. */
  lemma ExtrasIgnorePackageOrder(p: seq<Package>, q: seq<Package>)
    requires forall x :: x in p <==> x in q
    ensures Extras(Categories(p)) == Extras(Categories(q))
  {
    CategoriesSameElements(p, q);
  }
}
