/** Import-path validity and the ownership manifest as text. */
module Manifest {
  import opened Symbols

  const HEADER := "# pbtrim manifest v1"
  const RESERVED_PREFIX := ".pbtrim-"
  const MANIFEST := ".pbtrim-manifest"
  const LOCK := ".pbtrim-lock"

  // ---- import paths --------------------------------------------------------------

  function Split(s: string, sep: char): (parts: seq<string>)
    ensures parts != []
    ensures forall i :: 0 <= i < |parts| ==> sep !in parts[i]
  {
    if s == "" then [""]
    else
      var rest := Split(s[1..], sep);
      if s[0] == sep then [""] + rest else [[s[0]] + rest[0]] + rest[1..]
  }

  predicate ValidSegment(seg: string) {
    seg != "" && seg != "." && seg != ".." && !(RESERVED_PREFIX <= seg)
  }

  predicate IsControl(c: char) {
    c < 0x20 as char || c == 0x7f as char
  }

  /** Relative, `/`-separated, without control characters, `\`, `:` or reserved segments. */
  predicate ValidImportPath(p: string) {
    && p != "" && p[0] != '/' && '\\' !in p && ':' !in p
    && (forall i :: 0 <= i < |p| ==> !IsControl(p[i]))
    && (forall i :: 0 <= i < |Split(p, '/')| ==> ValidSegment(Split(p, '/')[i]))
  }

  // ---- the manifest ------------------------------------------------------------------

  function Render(paths: seq<string>): string {
    HEADER + "\n" + RenderLines(paths)
  }

  function RenderLines(paths: seq<string>): string {
    if paths == [] then "" else paths[0] + "\n" + RenderLines(paths[1..])
  }

  function StripCr(line: string): string {
    if line != "" && line[|line| - 1] == '\r' then line[..|line| - 1] else line
  }

  /** Text lines: split at newlines (with an optional carriage return before), without a final empty line. */
  function Lines(s: string): seq<string> {
    if s == "" then []
    else
      var end := LineEnd(s);
      if end < |s| then [StripCr(s[..end])] + Lines(s[end + 1..]) else [s]
  }

  function LineEnd(s: string): (i: nat)
    ensures i <= |s| && '\n' !in s[..i] && (i < |s| ==> s[i] == '\n')
  {
    if s == "" || s[0] == '\n' then 0
    else
      var i := LineEnd(s[1..]);
      assert s[..i + 1] == [s[0]] + s[1..][..i];
      i + 1
  }

  /** The owned paths of a manifest; None when it has the wrong header or an invalid entry. */
  function ReadManifest(text: string): Option<seq<string>> {
    var lines := Lines(text);
    if lines == [] || lines[0] != HEADER then None else ReadEntries(lines[1..])
  }

  function ReadEntries(lines: seq<string>): (r: Option<seq<string>>)
    ensures r.Some? ==> forall p :: p in r.value ==> ValidImportPath(p)
  {
    if lines == [] then Some([])
    else if lines[0] == "" then ReadEntries(lines[1..])
    else if !ValidImportPath(lines[0]) then None
    else
      var rest := ReadEntries(lines[1..]);
      if rest.None? then None else Some([lines[0]] + rest.value)
  }

  lemma {:induction false} LineOf(line: string, rest: string)
    requires '\n' !in line
    ensures LineEnd(line + "\n" + rest) == |line|
  {
    if line != "" {
      assert (line + "\n" + rest)[1..] == line[1..] + "\n" + rest;
      LineOf(line[1..], rest);
    }
  }

  /** A line without newline and trailing carriage return reads back. */
  lemma LinesCons(line: string, rest: string)
    requires '\n' !in line && '\r' !in line
    ensures Lines(line + "\n" + rest) == [line] + Lines(rest)
  {
    var s := line + "\n" + rest;
    LineOf(line, rest);
    assert s[..|line|] == line && s[|line| + 1..] == rest;
    assert StripCr(line) == line;
  }

  lemma ValidHasNoBreaks(p: string)
    requires ValidImportPath(p)
    ensures '\n' !in p && '\r' !in p && p != ""
  {
    assert IsControl('\n') && IsControl('\r');
  }

  lemma {:induction false} EntriesRoundTrip(paths: seq<string>)
    requires forall p :: p in paths ==> ValidImportPath(p)
    ensures ReadEntries(Lines(RenderLines(paths))) == Some(paths)
  {
    if paths != [] {
      ValidHasNoBreaks(paths[0]);
      LinesCons(paths[0], RenderLines(paths[1..]));
      EntriesRoundTrip(paths[1..]);
      assert paths == [paths[0]] + paths[1..];
    }
  }

  // ---- which texts are manifests --------------------------------------------------------------

  /** The text is these lines, each ended by a newline with or without a carriage return; the last one may be open. */
  ghost predicate LinesAre(text: string, lines: seq<string>)
    decreases lines, 0
  {
    if lines == [] then text == ""
    else
      && '\n' !in lines[0]
      && (|| (text == lines[0] && text != "" && lines[1..] == [])
          || exists rest :: ClosedLine(text, lines[0], rest, lines[1..]))
  }

  ghost predicate ClosedLine(text: string, line: string, rest: string, more: seq<string>)
    decreases more, 1
  {
    && (text == line + "\r\n" + rest || (text == line + "\n" + rest && (line == "" || line[|line| - 1] != '\r')))
    && LinesAre(rest, more)
  }

  lemma {:induction false} LinesRead(text: string, lines: seq<string>)
    requires LinesAre(text, lines)
    ensures Lines(text) == lines
    decreases lines
  {
    if lines != [] {
      var line := lines[0];
      if rest :| ClosedLine(text, line, rest, lines[1..]) {
        LinesRead(rest, lines[1..]);
        if text == line + "\r\n" + rest {
          assert text == (line + "\r") + "\n" + rest;
          LineOf(line + "\r", rest);
          assert text[..|line| + 1] == line + "\r" && text[|line| + 2..] == rest;
        } else {
          LineOf(line, rest);
          assert text[..|line|] == line && text[|line| + 1..] == rest;
        }
      } else {
        OpenLine(text);
        assert lines == [line];
      }
    }
  }

  lemma {:induction false} OpenLine(text: string)
    requires '\n' !in text
    ensures LineEnd(text) == |text|
  {
    assert forall i :: 0 <= i < |text| ==> text[i] in text;
  }

  /** A raw line up to its newline, with a carriage return before it or not. */
  lemma {:induction false} RawLine(text: string, raw: string, rest: string, more: seq<string>)
    requires '\n' !in raw && text == raw + "\n" + rest && LinesAre(rest, more)
    ensures '\n' !in StripCr(raw) && ClosedLine(text, StripCr(raw), rest, more)
  {
    var line := StripCr(raw);
    if line != raw {
      assert raw == line + "\r";
      assert text == line + "\r\n" + rest;
    }
  }

  lemma {:induction false} FirstLine(text: string, line: string, rest: string, more: seq<string>)
    requires '\n' !in line && ClosedLine(text, line, rest, more)
    ensures LinesAre(text, [line] + more)
  {
    assert ([line] + more)[1..] == more;
  }

  lemma {:induction false} LinesOnly(text: string)
    ensures LinesAre(text, Lines(text))
    decreases |text|
  {
    if text != "" {
      var end := LineEnd(text);
      if end < |text| {
        var raw, rest := text[..end], text[end + 1..];
        LinesOnly(rest);
        RawLine(text, raw, rest, Lines(rest));
        FirstLine(text, StripCr(raw), rest, Lines(rest));
      } else {
        assert text[..end] == text;
        assert [text][1..] == [];
      }
    }
  }

  /** The entries: what is left of the lines without the empty ones. */
  function NonEmpty(lines: seq<string>): (r: seq<string>) {
    if lines == [] then [] else (if lines[0] == "" then [] else [lines[0]]) + NonEmpty(lines[1..])
  }

  lemma {:induction false} EntriesExactly(lines: seq<string>, paths: seq<string>)
    ensures ReadEntries(lines) == Some(paths) <==> paths == NonEmpty(lines) && forall p :: p in paths ==> ValidImportPath(p)
  {
    if lines != [] {
      EntriesExactly(lines[1..], NonEmpty(lines[1..]));
      EntriesExactly(lines[1..], if ReadEntries(lines[1..]).Some? then ReadEntries(lines[1..]).value else []);
      if lines[0] != "" {
        assert NonEmpty(lines) == [lines[0]] + NonEmpty(lines[1..]);
      } else {
        assert NonEmpty(lines) == NonEmpty(lines[1..]);
      }
    }
  }

  /** The header line, and lines that are the paths or empty. */
  ghost predicate IsManifest(text: string, lines: seq<string>, paths: seq<string>) {
    && LinesAre(text, [HEADER] + lines) && paths == NonEmpty(lines)
    && forall p :: p in paths ==> ValidImportPath(p)
  }

  /** A text is read as a manifest exactly if it is the header line and lines that are empty or valid paths. */
  lemma {:induction false} ReadsExactly(text: string, paths: seq<string>)
    ensures ReadManifest(text) == Some(paths) <==> exists lines :: IsManifest(text, lines, paths)
  {
    LinesOnly(text);
    if ReadManifest(text) == Some(paths) {
      var lines := Lines(text)[1..];
      EntriesExactly(lines, paths);
      assert Lines(text) == [HEADER] + lines;
      assert IsManifest(text, lines, paths);
    }
    if lines :| IsManifest(text, lines, paths) {
      LinesRead(text, [HEADER] + lines);
      EntriesExactly(lines, paths);
      assert Lines(text)[1..] == lines;
    }
  }

  /** Reading back a written manifest returns the same paths. */
  lemma ManifestRoundTrip(paths: seq<string>)
    requires forall p :: p in paths ==> ValidImportPath(p)
    ensures ReadManifest(Render(paths)) == Some(paths)
  {
    LinesCons(HEADER, RenderLines(paths));
    EntriesRoundTrip(paths);
    assert Lines(Render(paths))[1..] == Lines(RenderLines(paths));
  }

  // ---- order -----------------------------------------------------------------------------

  predicate Before(p: string, q: string) {
    if p == "" then true else if q == "" then false else p[0] < q[0] || (p[0] == q[0] && Before(p[1..], q[1..]))
  }

  function Insert(p: string, paths: seq<string>): (r: seq<string>)
    ensures multiset(r) == multiset(paths) + multiset{p}
  {
    if paths == [] || Before(p, paths[0]) then [p] + paths
    else
      assert paths == [paths[0]] + paths[1..];
      [paths[0]] + Insert(p, paths[1..])
  }

  /** The paths in lexicographic order. */
  function SortPaths(paths: seq<string>): (r: seq<string>)
    ensures multiset(r) == multiset(paths)
  {
    if paths == [] then []
    else
      assert paths == [paths[0]] + paths[1..];
      Insert(paths[0], SortPaths(paths[1..]))
  }

  lemma SortKeepsPaths(paths: seq<string>)
    ensures forall p :: p in SortPaths(paths) <==> p in paths
  {
    forall p ensures p in SortPaths(paths) <==> p in paths {
      assert p in SortPaths(paths) <==> p in multiset(SortPaths(paths));
      assert p in paths <==> p in multiset(paths);
    }
  }

  lemma {:induction false} BeforeOrder(p: string, q: string, r: string)
    ensures Before(p, q) || Before(q, p)
    ensures Before(p, q) && Before(q, p) ==> p == q
    ensures Before(p, q) && Before(q, r) ==> Before(p, r)
  {
    if p != "" && q != "" {
      BeforeOrder(p[1..], q[1..], if r == "" then "" else r[1..]);
      assert p == [p[0]] + p[1..] && q == [q[0]] + q[1..];
    }
  }

  predicate InOrder(paths: seq<string>) {
    forall i, j :: 0 <= i < j < |paths| ==> Before(paths[i], paths[j])
  }

  lemma {:induction false} InsertInOrder(p: string, paths: seq<string>)
    requires InOrder(paths)
    ensures InOrder(Insert(p, paths))
  {
    if paths != [] && !Before(p, paths[0]) {
      var rest := Insert(p, paths[1..]);
      InsertInOrder(p, paths[1..]);
      forall j | 0 <= j < |rest| ensures Before(paths[0], rest[j]) {
        assert rest[j] in multiset(rest);
        BeforeOrder(p, paths[0], "");
      }
    } else if paths != [] {
      forall j | 0 <= j < |paths| ensures Before(p, paths[j]) {
        BeforeOrder(p, paths[0], paths[j]);
      }
    }
  }

  /** The manifest lists its paths in order. */
  lemma {:induction false} SortsInOrder(paths: seq<string>)
    ensures InOrder(SortPaths(paths))
  {
    if paths != [] {
      SortsInOrder(paths[1..]);
      InsertInOrder(paths[0], SortPaths(paths[1..]));
    }
  }

  lemma SameFirst(x: seq<string>, y: seq<string>)
    requires InOrder(x) && InOrder(y) && multiset(x) == multiset(y) && x != [] && y != []
    ensures x[0] == y[0]
  {
    assert x[0] in multiset(y) && y[0] in multiset(x);
    BeforeOrder(x[0], y[0], "");
    BeforeOrder(x[0], x[0], "");
  }

  lemma WithoutFirst(x: seq<string>)
    requires x != []
    ensures multiset(x[1..]) == multiset(x) - multiset{x[0]}
  {
    assert x == [x[0]] + x[1..];
  }

  lemma {:induction false} OneOrder(x: seq<string>, y: seq<string>)
    requires InOrder(x) && InOrder(y) && multiset(x) == multiset(y)
    ensures x == y
  {
    assert |x| == |multiset(x)| && |y| == |multiset(y)|;
    if x != [] {
      SameFirst(x, y);
      WithoutFirst(x);
      WithoutFirst(y);
      OneOrder(x[1..], y[1..]);
      assert x == [x[0]] + x[1..] && y == [y[0]] + y[1..];
    }
  }

  /** The manifest does not depend on the order of the files. */
  lemma OrderForgotten(x: seq<string>, y: seq<string>)
    requires multiset(x) == multiset(y)
    ensures Render(SortPaths(x)) == Render(SortPaths(y))
  {
    SortsInOrder(x);
    SortsInOrder(y);
    OneOrder(SortPaths(x), SortPaths(y));
  }

  // ---- where a path leads ----------------------------------------------------------------------

  /** Following path segments from a directory below the root; None if that leaves the root. */
  function Walk(at: seq<string>, segs: seq<string>): (r: Option<seq<string>>)
    decreases segs
  {
    if segs == [] then Some(at)
    else if segs[0] == "" || segs[0] == "." then Walk(at, segs[1..])
    else if segs[0] != ".." then Walk(at + [segs[0]], segs[1..])
    else if at == [] then None
    else Walk(at[..|at| - 1], segs[1..])
  }

  lemma {:induction false} WalksDown(at: seq<string>, segs: seq<string>)
    requires forall i :: 0 <= i < |segs| ==> ValidSegment(segs[i])
    ensures Walk(at, segs) == Some(at + segs)
    decreases segs
  {
    if segs == [] {
      assert at + segs == at;
    } else {
      WalksDown(at + [segs[0]], segs[1..]);
      assert at + [segs[0]] + segs[1..] == at + segs;
    }
  }

  function Join(segs: seq<string>, sep: char): (r: string)
    requires segs != []
    decreases |segs|
  {
    if |segs| == 1 then segs[0] else segs[0] + [sep] + Join(segs[1..], sep)
  }

  lemma {:induction false} JoinSplit(p: string, sep: char)
    ensures Join(Split(p, sep), sep) == p
  {
    if p != "" {
      var rest := Split(p[1..], sep);
      JoinSplit(p[1..], sep);
      assert p == [p[0]] + p[1..];
      if p[0] == sep {
        assert ([""] + rest)[1..] == rest;
      } else {
        assert ([[p[0]] + rest[0]] + rest[1..])[1..] == rest[1..];
      }
    }
  }

  /** A valid path leads to a place inside the output directory, which is spelled as the path itself. */
  lemma StaysInside(p: string)
    requires ValidImportPath(p)
    ensures Walk([], Split(p, '/')).Some? && Walk([], Split(p, '/')).value != []
    ensures Join(Walk([], Split(p, '/')).value, '/') == p
  {
    WalksDown([], Split(p, '/'));
    JoinSplit(p, '/');
    assert [] + Split(p, '/') == Split(p, '/');
  }

  /** So two valid paths lead to the same place only if they are the same. */
  lemma OneSpelling(p: string, q: string)
    requires ValidImportPath(p) && ValidImportPath(q) && Walk([], Split(p, '/')) == Walk([], Split(q, '/'))
    ensures p == q
  {
    StaysInside(p);
    StaysInside(q);
  }

  lemma {:induction false} SplitWhole(p: string, sep: char)
    requires sep !in p
    ensures Split(p, sep) == [p]
  {
    if p != "" {
      SplitWhole(p[1..], sep);
      assert p == [p[0]] + p[1..];
    }
  }

  /** No path is a reserved name. */
  lemma ReservedIsRefused(name: string)
    requires RESERVED_PREFIX <= name && '/' !in name
    ensures !ValidImportPath(name)
  {
    SplitWhole(name, '/');
    assert !ValidSegment(Split(name, '/')[0]);
  }

  /** And it does not lead to the bookkeeping files. */
  lemma MissesBookkeeping(p: string)
    requires ValidImportPath(p)
    ensures p != MANIFEST && p != LOCK
  {
    ReservedIsRefused(MANIFEST);
    ReservedIsRefused(LOCK);
  }
}
