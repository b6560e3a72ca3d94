/** The Python string builtins the lockfile writer relies on:
    `str.rstrip()`, `str.split(sep)` and `sep.join(parts)`. */
module Text {

  /** Python's `str.isspace()` for one character: the characters that
      `str.rstrip()` with no argument removes. */
  predicate IsSpace(c: char) {
    || c == ' ' || c == '\t' || c == '\n' || c == '\r'
    || c == '\U{0B}' || c == '\U{0C}'
    || ('\U{1C}' <= c <= '\U{1F}')
    || c == '\U{85}' || c == '\U{A0}' || c == '\U{1680}'
    || ('\U{2000}' <= c <= '\U{200A}')
    || c == '\U{2028}' || c == '\U{2029}' || c == '\U{202F}'
    || c == '\U{205F}' || c == '\U{3000}'
  }

  /** `s.rstrip()`: the longest prefix of `s` that does not end in whitespace
      and after which only whitespace follows. */
  function RStrip(s: string): (r: string)
    ensures r <= s
    ensures r == [] || !IsSpace(r[|r| - 1])
    ensures forall i :: |r| <= i < |s| ==> IsSpace(s[i])
  {
    if |s| > 0 && IsSpace(s[|s| - 1]) then RStrip(s[..|s| - 1]) else s
  }

  /** RStrip keeps every character up to and including a non-space one. */
  lemma RStripKeeps(s: string, j: nat)
    requires j < |s| && !IsSpace(s[j])
    ensures j < |RStrip(s)| && RStrip(s)[..j + 1] == s[..j + 1]
  {
    var r := RStrip(s);
    assert r == s[..|r|];
  }

  /** `s.split(sep)` for a one-character separator: the pieces between
      consecutive separators; the empty string gives `[""]`. */
  function Split(s: string, sep: char): (r: seq<string>)
    ensures |r| >= 1
    ensures forall i :: 0 <= i < |r| ==> sep !in r[i]
  {
    if |s| == 0 then [""]
    else
      var rest := Split(s[1..], sep);
      if s[0] == sep then [""] + rest
      else [[s[0]] + rest[0]] + rest[1..]
  }

  /** `sep.join(parts)`. */
  function Join(sep: string, parts: seq<string>): string
  {
    if |parts| == 0 then ""
    else if |parts| == 1 then parts[0]
    else parts[0] + sep + Join(sep, parts[1..])
  }

  /** The generator `prefix + x for x in xs`. */
  function Prefixed(prefix: string, xs: seq<string>): (r: seq<string>)
    ensures |r| == |xs|
    ensures forall i :: 0 <= i < |xs| ==> r[i] == prefix + xs[i]
  {
    seq(|xs|, i requires 0 <= i < |xs| => prefix + xs[i])
  }

  /** Joining the pieces of a split with the separator gives the string back. */
  lemma {:induction false} JoinSplit(s: string, sep: char)
    ensures Join([sep], Split(s, sep)) == s
  {
    if |s| > 0 {
      var rest := Split(s[1..], sep);
      JoinSplit(s[1..], sep);
      if s[0] == sep {
        assert Split(s, sep) == [""] + rest;
        assert ([""] + rest)[1..] == rest;
        assert Join([sep], [""] + rest) == "" + [sep] + Join([sep], rest);
        assert s == [s[0]] + s[1..];
      } else {
        var r := Split(s, sep);
        assert r == [[s[0]] + rest[0]] + rest[1..];
        if |rest| == 1 {
          assert Join([sep], rest) == rest[0];
          assert s == [s[0]] + s[1..];
        } else {
          assert r[1..] == rest[1..];
          assert Join([sep], rest) == rest[0] + [sep] + Join([sep], rest[1..]);
          assert s == [s[0]] + s[1..];
        }
      }
    }
  }

  /** Splitting a piece free of the separator, followed by the separator and
      more text, yields that piece and then the pieces of the rest. */
  lemma {:induction false} SplitAfterPiece(p: string, sep: char, rest: string)
    requires sep !in p
    ensures Split(p + [sep] + rest, sep) == [p] + Split(rest, sep)
  {
    if |p| == 0 {
      assert p + [sep] + rest == [sep] + rest;
      assert ([sep] + rest)[1..] == rest;
    } else {
      var s := p + [sep] + rest;
      assert s[0] == p[0];
      assert s[1..] == p[1..] + [sep] + rest;
      SplitAfterPiece(p[1..], sep, rest);
      assert p == [p[0]] + p[1..];
    }
  }

  /** A string free of the separator splits into itself. */
  lemma {:induction false} SplitWhole(p: string, sep: char)
    requires sep !in p
    ensures Split(p, sep) == [p]
  {
    if |p| > 0 {
      SplitWhole(p[1..], sep);
      assert p == [p[0]] + p[1..];
    }
  }

  /** Splitting a join of separator-free pieces gives those pieces back. */
  lemma {:induction false} SplitJoin(parts: seq<string>, sep: char)
    requires |parts| >= 1
    requires forall i :: 0 <= i < |parts| ==> sep !in parts[i]
    ensures Split(Join([sep], parts), sep) == parts
  {
    if |parts| == 1 {
      SplitWhole(parts[0], sep);
    } else {
      SplitJoin(parts[1..], sep);
      SplitAfterPiece(parts[0], sep, Join([sep], parts[1..]));
      assert parts == [parts[0]] + parts[1..];
    }
  }

  /** Joining one more piece appends the separator and that piece. */
  lemma {:induction false} JoinSnoc(sep: string, parts: seq<string>, x: string)
    requires |parts| >= 1
    ensures Join(sep, parts + [x]) == Join(sep, parts) + sep + x
  {
    if |parts| == 1 {
      assert (parts + [x])[1..] == [x];
    } else {
      JoinSnoc(sep, parts[1..], x);
      assert (parts + [x])[1..] == parts[1..] + [x];
    }
  }

  /** A join contains a character only if a piece or the separator does. */
  lemma {:induction false} JoinFree(sep: string, parts: seq<string>, c: char)
    requires c !in sep
    requires forall i :: 0 <= i < |parts| ==> c !in parts[i]
    ensures c !in Join(sep, parts)
  {
    if |parts| > 1 {
      JoinFree(sep, parts[1..], c);
    }
  }

  /** The flag list `flag x0 flag x1 ...` that one flag per element produces
      when read back as space-separated words. */
  function Interleave(flag: string, xs: seq<string>): (r: seq<string>)
    ensures |r| == 2 * |xs|
  {
    if xs == [] then [] else [flag, xs[0]] + Interleave(flag, xs[1..])
  }

  /** Word `2 * i` of the interleaving is the flag and word `2 * i + 1` is `xs[i]`. */
  lemma {:induction false} InterleaveAt(flag: string, xs: seq<string>, i: nat)
    requires i < |xs|
    ensures Interleave(flag, xs)[2 * i] == flag && Interleave(flag, xs)[2 * i + 1] == xs[i]
  {
    if i > 0 {
      InterleaveAt(flag, xs[1..], i - 1);
    }
  }

  /** `' '.join(flag + ' ' + x for x in xs)` is the same text as the words of
      `Interleave(flag, xs)` joined by single spaces. */
  lemma {:induction false} FlagsAsWords(flag: string, xs: seq<string>)
    requires |xs| >= 1
    ensures Join(" ", Prefixed(flag + " ", xs)) == Join(" ", Interleave(flag, xs))
  {
    var ps := Prefixed(flag + " ", xs);
    var tail := Interleave(flag, xs[1..]);
    var ws := [flag, xs[0]] + tail;
    assert ws == Interleave(flag, xs);
    assert ws[1..] == [xs[0]] + tail;
    if |xs| == 1 {
      assert tail == [];
      assert Join(" ", ws[1..]) == xs[0];
      assert Join(" ", ws) == flag + " " + xs[0];
    } else {
      FlagsAsWords(flag, xs[1..]);
      assert ps[1..] == Prefixed(flag + " ", xs[1..]);
      var rest := Join(" ", tail);
      assert Join(" ", ps) == (flag + " " + xs[0]) + " " + rest;
      assert ([xs[0]] + tail)[1..] == tail;
      assert Join(" ", ws[1..]) == xs[0] + " " + rest;
      assert Join(" ", ws) == flag + " " + (xs[0] + " " + rest);
    }
  }

  /** Reading the generated flags back as space-separated words gives one
      `flag` before each element, in the order of `xs`, when no element and
      not the flag itself holds a space. */
  lemma FlagWords(flag: string, xs: seq<string>)
    requires |xs| >= 1
    requires ' ' !in flag
    requires forall i :: 0 <= i < |xs| ==> ' ' !in xs[i]
    ensures Split(Join(" ", Prefixed(flag + " ", xs)), ' ') == Interleave(flag, xs)
  {
    FlagsAsWords(flag, xs);
    var ws := Interleave(flag, xs);
    forall k | 0 <= k < |ws| ensures ' ' !in ws[k] {
      InterleaveAt(flag, xs, k / 2);
    }
    SplitJoin(ws, ' ');
  }
}
