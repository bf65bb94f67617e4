/** Extracting file artifacts from model output (`internal/usecase/git/automation.go`), and the printer it undoes. */
module Artifacts {
  import opened Text

  const SLASH_MARKER := "// filepath:"
  const HASH_MARKER := "# filepath:"
  const FENCE := "```"

  datatype Artifact = Artifact(kind: string, path: string, content: string)

  function ArtifactType(path: string): string {
    if HasSuffix(path, "_test.go") || Contains(path, "test") then "test"
    else if HasSuffix(path, ".md") then "doc"
    else "code"
  }

  // ---------- Lines ----------

  /** strings.Split at newlines. */
  function Lines(s: string): (ls: seq<string>)
    ensures ls != []
  {
    if s == "" then [""]
    else
      var rest := Lines(s[1..]);
      if s[0] == '\n' then [""] + rest else [[s[0]] + rest[0]] + rest[1..]
  }

  /** Every line followed by a newline. */
  function Unlines(ls: seq<string>): string {
    if ls == [] then "" else ls[0] + "\n" + Unlines(ls[1..])
  }

  // ---------- The parser ----------

  datatype Parser = Parser(found: seq<Artifact>, path: string, content: string, inBlock: bool)

  const START := Parser([], "", "", false)

  predicate IsMarker(line: string) {
    HasPrefix(TrimSpace(line), SLASH_MARKER) || HasPrefix(TrimSpace(line), HASH_MARKER)
  }

  predicate IsFence(line: string) {
    HasPrefix(TrimSpace(line), FENCE)
  }

  function MarkedPath(line: string): string {
    TrimSpace(TrimPrefix(TrimPrefix(TrimSpace(line), SLASH_MARKER), HASH_MARKER))
  }

  /** Save the current artifact, if there is one. */
  function Flushed(p: Parser): seq<Artifact> {
    if p.path != "" && p.content != "" then p.found + [Artifact(ArtifactType(p.path), p.path, TrimSpace(p.content))] else p.found
  }

  function ParseLine(p: Parser, line: string): Parser {
    if IsMarker(line) then Parser(Flushed(p), MarkedPath(line), "", true)
    else if IsFence(line) then
      if p.inBlock && p.content != "" then
        if p.path != "" then Parser(Flushed(p), "", "", false) else p.(inBlock := false)
      else p.(inBlock := true)
    else if p.inBlock && p.path != "" then p.(content := p.content + line + "\n")
    else p
  }

  function ParseLines(p: Parser, lines: seq<string>): Parser
    decreases |lines|
  {
    if lines == [] then p else ParseLines(ParseLine(p, lines[0]), lines[1..])
  }

  function Parsed(s: string): seq<Artifact> {
    Flushed(ParseLines(START, Lines(s)))
  }

  method ParseArtifacts(llmOutput: string) returns (artifacts: seq<Artifact>)
    ensures artifacts == Parsed(llmOutput)
  {
    var lines := Lines(llmOutput);
    artifacts := [];
    var currentPath, currentContent, inBlock := "", "", false;
    for i := 0 to |lines|
      invariant ParseLines(Parser(artifacts, currentPath, currentContent, inBlock), lines[i..]) == ParseLines(START, lines)
    {
      var line := lines[i];
      assert lines[i..][0] == line && lines[i..][1..] == lines[i + 1..];
      var trimmed := TrimSpace(line);
      if HasPrefix(trimmed, SLASH_MARKER) || HasPrefix(trimmed, HASH_MARKER) {
        if currentPath != "" && |currentContent| > 0 {
          artifacts := artifacts + [Artifact(ArtifactType(currentPath), currentPath, TrimSpace(currentContent))];
        }
        currentPath := TrimSpace(TrimPrefix(TrimPrefix(trimmed, SLASH_MARKER), HASH_MARKER));
        currentContent := "";
        inBlock := true;
      } else if HasPrefix(trimmed, FENCE) {
        if inBlock && |currentContent| > 0 {
          if currentPath != "" {
            artifacts := artifacts + [Artifact(ArtifactType(currentPath), currentPath, TrimSpace(currentContent))];
            currentPath, currentContent := "", "";
          }
          inBlock := false;
        } else {
          inBlock := true;
        }
      } else if inBlock && currentPath != "" {
        currentContent := currentContent + line + "\n";
      }
    }
    if currentPath != "" && |currentContent| > 0 {
      artifacts := artifacts + [Artifact(ArtifactType(currentPath), currentPath, TrimSpace(currentContent))];
    }
  }

  // ---------- The printer ----------

  /** The layout the prompt asks for: the path as a comment, then the content between fences. */
  function Block(a: Artifact, language: string): seq<string> {
    [SLASH_MARKER + " " + a.path, FENCE + language] + Lines(a.content) + [FENCE]
  }

  function Blocks(artifacts: seq<Artifact>, language: string): seq<string> {
    if artifacts == [] then [] else Block(artifacts[0], language) + Blocks(artifacts[1..], language)
  }

  function Print(artifacts: seq<Artifact>, language: string): string {
    Unlines(Blocks(artifacts, language))
  }

  predicate OneLine(s: string) {
    '\n' !in s
  }

  /** Neither a fence nor a path marker. */
  predicate Plain(line: string) {
    !IsMarker(line) && !IsFence(line)
  }

  ghost predicate AllPlain(lines: seq<string>) {
    forall line :: line in lines ==> Plain(line)
  }

  /** A one-line, trimmed, non-empty path with its type, and trimmed content of plain lines. */
  ghost predicate Printable(a: Artifact) {
    && a.path != "" && Trimmed(a.path) && OneLine(a.path) && a.kind == ArtifactType(a.path)
    && Trimmed(a.content) && AllPlain(Lines(a.content))
  }

  // ---------- The parser undoes the printer ----------

  lemma {:induction false} LinesAreOneLine(s: string)
    ensures forall line :: line in Lines(s) ==> OneLine(line)
  {
    if s == "" {
    } else {
      LinesAreOneLine(s[1..]);
      var rest := Lines(s[1..]);
      assert rest[0] in rest;
      assert forall line :: line in rest[1..] ==> line in rest;
    }
  }

  lemma {:induction false} LinesOfConcat(line: string, s: string)
    requires OneLine(line)
    ensures Lines(line + "\n" + s) == [line] + Lines(s)
  {
    var t := line + "\n" + s;
    if line == "" {
      assert t[1..] == s;
    } else {
      assert t[1..] == line[1..] + "\n" + s;
      LinesOfConcat(line[1..], s);
      assert [line[0]] + line[1..] == line;
    }
  }

  lemma {:induction false} LinesOfUnlines(ls: seq<string>)
    requires forall line :: line in ls ==> OneLine(line)
    ensures Lines(Unlines(ls)) == ls + [""]
  {
    if ls == [] {
    } else {
      LinesOfUnlines(ls[1..]);
      LinesOfConcat(ls[0], Unlines(ls[1..]));
      assert ls == [ls[0]] + ls[1..];
    }
  }

  lemma {:induction false} UnlinesOfLines(s: string)
    ensures Unlines(Lines(s)) == s + "\n"
  {
    if s == "" {
    } else {
      UnlinesOfLines(s[1..]);
      var rest := Lines(s[1..]);
      assert s == [s[0]] + s[1..];
      if s[0] == '\n' {
        assert ([""] + rest)[1..] == rest;
        assert "" + "\n" + Unlines(rest) == "\n" + (s[1..] + "\n");
      } else {
        assert Lines(s)[1..] == rest[1..];
        ConcatAssoc([s[0]], rest[0], "\n");
        ConcatAssoc([s[0]], rest[0] + "\n", Unlines(rest[1..]));
      }
    }
  }

  lemma {:induction false} ParseConcat(p: Parser, a: seq<string>, b: seq<string>)
    ensures ParseLines(p, a + b) == ParseLines(ParseLines(p, a), b)
    decreases |a|
  {
    if a == [] {
      assert a + b == b;
    } else {
      assert (a + b)[0] == a[0] && (a + b)[1..] == a[1..] + b;
      ParseConcat(ParseLine(p, a[0]), a[1..], b);
    }
  }

  /** Inside a block, ordinary lines are collected. */
  lemma {:induction false} CollectLines(p: Parser, lines: seq<string>)
    requires p.inBlock && p.path != ""
    requires AllPlain(lines)
    ensures ParseLines(p, lines) == p.(content := p.content + Unlines(lines))
    decreases |lines|
  {
    if lines != [] {
      var q := ParseLine(p, lines[0]);
      assert lines[0] in lines && q == p.(content := p.content + lines[0] + "\n");
      assert forall line :: line in lines[1..] ==> line in lines;
      CollectLines(q, lines[1..]);
      ConcatAssoc(p.content, lines[0], "\n");
      ConcatAssoc(p.content, lines[0] + "\n", Unlines(lines[1..]));
    } else {
      assert p.content + "" == p.content;
    }
  }

  lemma OtherPrefix(t: string, p: string)
    requires t != "" && p != "" && t[0] != p[0]
    ensures !HasPrefix(t, p)
  {
    if |p| <= |t| {
      assert t[..|p|][0] == t[0];
    }
  }

  lemma MarkerLine(path: string)
    requires path != "" && Trimmed(path)
    ensures IsMarker(SLASH_MARKER + " " + path)
    ensures MarkedPath(SLASH_MARKER + " " + path) == path
  {
    var line := SLASH_MARKER + " " + path;
    assert line[0] == '/';
    assert line[|line| - 1] == path[|path| - 1];
    TrimKeepsTrimmed(line);
    assert line[..|SLASH_MARKER|] == SLASH_MARKER;
    var rest := TrimPrefix(line, SLASH_MARKER);
    assert rest == " " + path;
    assert rest[0] == ' ' && rest[1..] == path;
    OtherPrefix(rest, HASH_MARKER);
    assert TrimLeft(rest) == TrimLeft(path) == path;
    TrimKeepsTrimmed(path);
  }

  lemma {:induction false} TrimRightKeepsPrefix(s: string, n: nat)
    requires 0 < n <= |s| && !IsSpace(s[n - 1])
    ensures n <= |TrimRight(s)| && TrimRight(s)[..n] == s[..n]
  {
    if !IsSpace(s[|s| - 1]) {
    } else {
      TrimRightKeepsPrefix(s[..|s| - 1], n);
      assert s[..|s| - 1][..n] == s[..n];
    }
  }

  lemma FenceLine(language: string)
    ensures !IsMarker(FENCE + language) && IsFence(FENCE + language)
  {
    var line := FENCE + language;
    assert line[0] == '`' && line[2] == '`' && line[..3] == FENCE;
    assert TrimLeft(line) == line;
    TrimRightKeepsPrefix(line, 3);
    var t := TrimSpace(line);
    assert t[..3][0] == t[0] == '`';
    OtherPrefix(t, SLASH_MARKER);
    OtherPrefix(t, HASH_MARKER);
  }

  /** The two lines that open a block set the path. */
  lemma HeadParses(found: seq<Artifact>, inBlock: bool, path: string, language: string)
    requires path != "" && Trimmed(path)
    ensures ParseLines(Parser(found, "", "", inBlock), [SLASH_MARKER + " " + path, FENCE + language]) == Parser(found, path, "", true)
  {
    var p0, p1 := Parser(found, "", "", inBlock), Parser(found, path, "", true);
    var head: seq<string> := [SLASH_MARKER + " " + path, FENCE + language];
    MarkerLine(path);
    FenceLine(language);
    assert ParseLine(p0, head[0]) == p1;
    assert ParseLine(p1, head[1]) == p1;
    assert head[1..] == [head[1]] && head[1..][1..] == [];
    assert ParseLines(p1, head[1..]) == p1;
  }

  /** The closing fence saves the artifact. */
  lemma TailParses(found: seq<Artifact>, a: Artifact)
    requires Printable(a)
    ensures ParseLines(Parser(found, a.path, a.content + "\n", true), [FENCE]) == Parser(found + [a], "", "", false)
  {
    var p := Parser(found, a.path, a.content + "\n", true);
    FenceLine("");
    assert FENCE + "" == FENCE;
    TrimSnoc(a.content, '\n');
    TrimKeepsTrimmed(a.content);
    assert ParseLine(p, FENCE) == Parser(found + [a], "", "", false);
    assert [FENCE][1..] == [];
  }

  /** Between blocks, parsing one printed block adds exactly its artifact. */
  lemma BlockParses(found: seq<Artifact>, inBlock: bool, a: Artifact, language: string)
    requires Printable(a)
    ensures ParseLines(Parser(found, "", "", inBlock), Block(a, language)) == Parser(found + [a], "", "", false)
  {
    var p0, p1 := Parser(found, "", "", inBlock), Parser(found, a.path, "", true);
    var head: seq<string> := [SLASH_MARKER + " " + a.path, FENCE + language];
    HeadParses(found, inBlock, a.path, language);
    CollectLines(p1, Lines(a.content));
    UnlinesOfLines(a.content);
    assert "" + (a.content + "\n") == a.content + "\n";
    TailParses(found, a);
    ParseConcat(p0, head, Lines(a.content));
    ParseConcat(p0, head + Lines(a.content), [FENCE]);
  }

  lemma MoveHead<T>(a: seq<T>, b: seq<T>)
    requires b != []
    ensures a + [b[0]] + b[1..] == a + b
  {
  }

  lemma FirstBlockParses(found: seq<Artifact>, inBlock: bool, artifacts: seq<Artifact>, language: string)
    requires artifacts != [] && Printable(artifacts[0])
    ensures ParseLines(Parser(found, "", "", inBlock), Blocks(artifacts, language))
         == ParseLines(Parser(found + [artifacts[0]], "", "", false), Blocks(artifacts[1..], language))
  {
    BlockParses(found, inBlock, artifacts[0], language);
    ParseConcat(Parser(found, "", "", inBlock), Block(artifacts[0], language), Blocks(artifacts[1..], language));
  }

  ghost predicate AllPrintable(artifacts: seq<Artifact>) {
    artifacts == [] || (Printable(artifacts[0]) && AllPrintable(artifacts[1..]))
  }

  lemma {:induction false} BlocksParse(found: seq<Artifact>, inBlock: bool, artifacts: seq<Artifact>, language: string)
    returns (ends: bool)
    requires AllPrintable(artifacts)
    ensures ParseLines(Parser(found, "", "", inBlock), Blocks(artifacts, language)) == Parser(found + artifacts, "", "", ends)
    decreases |artifacts|
  {
    if artifacts == [] {
      assert found + artifacts == found;
      ends := inBlock;
    } else {
      FirstBlockParses(found, inBlock, artifacts, language);
      ends := BlocksParse(found + [artifacts[0]], false, artifacts[1..], language);
      MoveHead(found, artifacts);
    }
  }

  lemma BlockIsOneLine(a: Artifact, language: string)
    requires OneLine(language) && Printable(a)
    ensures forall line :: line in Block(a, language) ==> OneLine(line)
  {
    LinesAreOneLine(a.content);
    assert OneLine(SLASH_MARKER + " " + a.path) && OneLine(FENCE + language) && OneLine(FENCE);
  }

  lemma {:induction false} BlocksAreOneLine(artifacts: seq<Artifact>, language: string)
    requires OneLine(language) && AllPrintable(artifacts)
    ensures forall line :: line in Blocks(artifacts, language) ==> OneLine(line)
  {
    if artifacts == [] {
    } else {
      BlockIsOneLine(artifacts[0], language);
      BlocksAreOneLine(artifacts[1..], language);
    }
  }

  /** Parsing what was printed gives back the same artifacts, in order, whatever language the fences name. */
  lemma ParserUndoesPrinter(artifacts: seq<Artifact>, language: string)
    requires OneLine(language) && AllPrintable(artifacts)
    ensures Parsed(Print(artifacts, language)) == artifacts
  {
    BlocksAreOneLine(artifacts, language);
    var ls := Blocks(artifacts, language);
    LinesOfUnlines(ls);
    ParseConcat(START, ls, [""]);
    var ends := BlocksParse([], false, artifacts, language);
    assert [] + artifacts == artifacts;
    var p := ParseLines(START, ls);
    assert ParseLine(p, "").found == p.found && ParseLine(p, "").path == "";
    assert ParseLines(p, [""]) == ParseLine(p, "");
  }

  // ---------- Only printable artifacts are found ----------

  /** A character appended to the last line, or a new line begun. */
  function Snoc(ls: seq<string>, c: char): seq<string>
    requires ls != []
  {
    var n := |ls| - 1;
    if c == '\n' then ls + [""] else ls[..n] + [ls[n] + [c]]
  }

  /** A character put before the first line. */
  function Cons(c: char, ls: seq<string>): seq<string>
    requires ls != []
  {
    if c == '\n' then [""] + ls else [[c] + ls[0]] + ls[1..]
  }

  lemma ConsSnoc(c: char, ls: seq<string>, d: char)
    requires ls != []
    ensures Cons(c, Snoc(ls, d)) == Snoc(Cons(c, ls), d)
  {
    if c != '\n' && d != '\n' && |ls| == 1 {
      ConcatAssoc([c], ls[0], [d]);
    }
  }

  lemma {:induction false} LinesSnoc(s: string, c: char)
    ensures Lines(s + [c]) == Snoc(Lines(s), c)
  {
    var t := s + [c];
    if s == "" {
      assert t == [c] && t[1..] == "" && [c] + "" == [c] == "" + [c];
      assert Lines(t) == Cons(c, [""]);
    } else {
      LinesSnoc(s[1..], c);
      assert t[0] == s[0] && t[1..] == s[1..] + [c];
      ConsSnoc(s[0], Lines(s[1..]), c);
    }
  }

  lemma PlainAt(ls: seq<string>, k: nat)
    requires AllPlain(ls) && k < |ls|
    ensures Plain(ls[k])
  {
    assert ls[k] in ls;
  }

  /** Space in front of a text, or at its end, makes none of its lines a fence or a marker. */
  lemma ConsPlain(c: char, ls: seq<string>)
    requires ls != [] && IsSpace(c) && AllPlain(Cons(c, ls))
    ensures AllPlain(ls)
  {
    forall line | line in ls
      ensures Plain(line)
    {
      var k :| 0 <= k < |ls| && ls[k] == line;
      PlainAt(Cons(c, ls), if c == '\n' then k + 1 else k);
      assert ([c] + line)[1..] == line;
      assert TrimSpace([c] + line) == TrimSpace(line);
    }
  }

  lemma SnocPlain(ls: seq<string>, c: char)
    requires ls != [] && IsSpace(c) && AllPlain(Snoc(ls, c))
    ensures AllPlain(ls)
  {
    forall line | line in ls
      ensures Plain(line)
    {
      var k :| 0 <= k < |ls| && ls[k] == line;
      PlainAt(Snoc(ls, c), k);
      TrimSnoc(line, c);
    }
  }

  lemma {:induction false} TrimLeftKeepsPlain(s: string)
    requires AllPlain(Lines(s))
    ensures AllPlain(Lines(TrimLeft(s)))
  {
    if s == "" || !IsSpace(s[0]) {
    } else {
      ConsPlain(s[0], Lines(s[1..]));
      TrimLeftKeepsPlain(s[1..]);
    }
  }

  lemma {:induction false} TrimRightKeepsPlain(s: string)
    requires AllPlain(Lines(s))
    ensures AllPlain(Lines(TrimRight(s)))
  {
    if s == "" || !IsSpace(s[|s| - 1]) {
    } else {
      var front, c := s[..|s| - 1], s[|s| - 1];
      assert front + [c] == s;
      LinesSnoc(front, c);
      SnocPlain(Lines(front), c);
      TrimRightKeepsPlain(front);
    }
  }

  /** The parser's state: printable artifacts so far, a trimmed one-line path, and the plain lines collected. */
  ghost predicate Sound(p: Parser, collected: seq<string>) {
    && (forall a :: a in p.found ==> Printable(a))
    && Trimmed(p.path) && OneLine(p.path)
    && p.content == Unlines(collected) && AllPlain(collected) && forall line :: line in collected ==> OneLine(line)
  }

  lemma FlushedArePrintable(p: Parser, collected: seq<string>)
    requires Sound(p, collected)
    ensures forall a :: a in Flushed(p) ==> Printable(a)
  {
    LinesOfUnlines(collected);
    assert Plain("");
    assert AllPlain(Lines(p.content));
    TrimLeftKeepsPlain(p.content);
    TrimRightKeepsPlain(TrimLeft(p.content));
    TrimIsTrimmed(p.content);
  }

  lemma MarkedPathIsTidy(line: string)
    requires OneLine(line)
    ensures Trimmed(MarkedPath(line)) && OneLine(MarkedPath(line))
  {
    var rest := TrimPrefix(TrimPrefix(TrimSpace(line), SLASH_MARKER), HASH_MARKER);
    TrimKeepsChars(line);
    TrimKeepsChars(rest);
    TrimIsTrimmed(rest);
  }

  lemma {:induction false} UnlinesSnoc(ls: seq<string>, line: string)
    ensures Unlines(ls + [line]) == Unlines(ls) + line + "\n"
  {
    if ls == [] {
      assert [line][1..] == [] && line + "\n" + "" == "" + line + "\n";
    } else {
      UnlinesSnoc(ls[1..], line);
      assert (ls + [line])[1..] == ls[1..] + [line];
      ConcatAssoc(ls[0] + "\n", Unlines(ls[1..]), line);
      ConcatAssoc(ls[0] + "\n", Unlines(ls[1..]) + line, "\n");
    }
  }

  lemma LineKeepsSound(p: Parser, collected: seq<string>, line: string) returns (collected': seq<string>)
    requires Sound(p, collected) && OneLine(line)
    ensures Sound(ParseLine(p, line), collected')
  {
    FlushedArePrintable(p, collected);
    if IsMarker(line) {
      MarkedPathIsTidy(line);
      collected' := [];
    } else if IsFence(line) {
      collected' := if p.inBlock && p.content != "" && p.path != "" then [] else collected;
    } else if p.inBlock && p.path != "" {
      UnlinesSnoc(collected, line);
      collected' := collected + [line];
    } else {
      collected' := collected;
    }
  }

  lemma {:induction false} ParsedAreSound(p: Parser, collected: seq<string>, lines: seq<string>)
    requires Sound(p, collected) && forall line :: line in lines ==> OneLine(line)
    ensures forall a :: a in Flushed(ParseLines(p, lines)) ==> Printable(a)
    decreases |lines|
  {
    if lines == [] {
      FlushedArePrintable(p, collected);
    } else {
      var collected' := LineKeepsSound(p, collected, lines[0]);
      ParsedAreSound(ParseLine(p, lines[0]), collected', lines[1..]);
    }
  }

  /** Whatever the text, every extracted artifact has a trimmed one-line path, the type its path implies, and trimmed
      content of plain lines: it could have been printed. */
  lemma ParsedAreTidy(text: string)
    ensures forall a :: a in Parsed(text) ==> Printable(a)
  {
    LinesAreOneLine(text);
    ParsedAreSound(START, [], Lines(text));
  }

  lemma {:induction false} AllPrintableIff(artifacts: seq<Artifact>)
    ensures AllPrintable(artifacts) <==> forall a :: a in artifacts ==> Printable(a)
  {
    if artifacts == [] {
    } else {
      AllPrintableIff(artifacts[1..]);
      assert artifacts == [artifacts[0]] + artifacts[1..];
    }
  }

  /** So parsing undoes printing exactly for printable artifacts. */
  lemma ParserUndoesPrinterIff(artifacts: seq<Artifact>, language: string)
    requires OneLine(language)
    ensures Parsed(Print(artifacts, language)) == artifacts <==> forall a :: a in artifacts ==> Printable(a)
  {
    AllPrintableIff(artifacts);
    if AllPrintable(artifacts) {
      ParserUndoesPrinter(artifacts, language);
    }
    ParsedAreTidy(Print(artifacts, language));
  }

  // ---------- Every layout the parser knows ----------

  /** The path in a comment of either style, and the content between fences that name a language, or bare. */
  datatype Layout = Layout(hash: bool, fence: Option<string>)

  function PathLine(path: string, hash: bool): string {
    (if hash then "# filepath: " else "// filepath: ") + path
  }

  function Laid(a: Artifact, layout: Layout): seq<string> {
    [PathLine(a.path, layout.hash)]
    + match layout.fence
      case None => Lines(a.content)
      case Some(language) => ["```" + language] + Lines(a.content) + ["```"]
  }

  function LaidAll(artifacts: seq<Artifact>, layout: Artifact -> Layout): seq<string> {
    if artifacts == [] then [] else Laid(artifacts[0], layout(artifacts[0])) + LaidAll(artifacts[1..], layout)
  }

  lemma HashLine(path: string)
    requires path != "" && Trimmed(path)
    ensures IsMarker("# filepath: " + path) && MarkedPath("# filepath: " + path) == path
  {
    var line := "# filepath: " + path;
    assert line[0] == '#' && line[|line| - 1] == path[|path| - 1];
    TrimKeepsTrimmed(line);
    OtherPrefix(line, SLASH_MARKER);
    assert line[..|HASH_MARKER|] == HASH_MARKER;
    var rest := TrimPrefix(line, HASH_MARKER);
    assert rest == " " + path && rest[0] == ' ' && rest[1..] == path;
    assert TrimLeft(rest) == TrimLeft(path) == path;
    TrimKeepsTrimmed(path);
  }

  /** A path line saves what was pending and starts anew. */
  lemma PathLineParses(p: Parser, path: string, hash: bool)
    requires path != "" && Trimmed(path)
    ensures ParseLine(p, PathLine(path, hash)) == Parser(Flushed(p), path, "", true)
  {
    if hash {
      HashLine(path);
    } else {
      MarkerLine(path);
      assert SLASH_MARKER + " " + path == PathLine(path, hash);
    }
  }

  /** Content collected under a path is what will be saved. */
  lemma ContentParses(found: seq<Artifact>, a: Artifact)
    requires Printable(a)
    ensures ParseLines(Parser(found, a.path, "", true), Lines(a.content)) == Parser(found, a.path, a.content + "\n", true)
    ensures Flushed(Parser(found, a.path, a.content + "\n", true)) == found + [a]
  {
    CollectLines(Parser(found, a.path, "", true), Lines(a.content));
    UnlinesOfLines(a.content);
    assert "" + (a.content + "\n") == a.content + "\n";
    TrimSnoc(a.content, '\n');
    TrimKeepsTrimmed(a.content);
  }

  /** Not right behind a path line: another line end would make no difference. */
  predicate Ready(p: Parser) {
    p.path == "" || p.content != ""
  }

  lemma BareParses(p: Parser, a: Artifact, hash: bool)
    requires Printable(a)
    ensures
      var p' := ParseLines(p, Laid(a, Layout(hash, None)));
      Ready(p') && Flushed(p') == Flushed(p) + [a]
  {
    PathLineParses(p, a.path, hash);
    ContentParses(Flushed(p), a);
    ParseConcat(p, [PathLine(a.path, hash)], Lines(a.content));
    assert [PathLine(a.path, hash)][1..] == [];
  }

  lemma FencedHeadParses(p: Parser, path: string, hash: bool, language: string)
    requires path != "" && Trimmed(path)
    ensures ParseLines(p, [PathLine(path, hash), "```" + language]) == Parser(Flushed(p), path, "", true)
  {
    var line, q := PathLine(path, hash), Parser(Flushed(p), path, "", true);
    PathLineParses(p, path, hash);
    FenceLine(language);
    assert ParseLine(q, "```" + language) == q;
    assert [line, "```" + language][1..] == ["```" + language] && ["```" + language][1..] == [];
    assert ParseLines(q, ["```" + language]) == q;
  }

  lemma FencedLines(a: Artifact, hash: bool, language: string)
    ensures Laid(a, Layout(hash, Some(language))) == [PathLine(a.path, hash), "```" + language] + Lines(a.content) + [FENCE]
  {
  }

  lemma FencedParses(p: Parser, a: Artifact, hash: bool, language: string)
    requires Printable(a)
    ensures
      var p' := ParseLines(p, Laid(a, Layout(hash, Some(language))));
      Ready(p') && Flushed(p') == Flushed(p) + [a]
  {
    var head: seq<string> := [PathLine(a.path, hash), "```" + language];
    FencedHeadParses(p, a.path, hash, language);
    ContentParses(Flushed(p), a);
    TailParses(Flushed(p), a);
    ParseConcat(p, head, Lines(a.content));
    ParseConcat(p, head + Lines(a.content), [FENCE]);
    FencedLines(a, hash, language);
  }

  lemma {:induction false} LaidAllParse(p: Parser, artifacts: seq<Artifact>, layout: Artifact -> Layout)
    requires Ready(p) && AllPrintable(artifacts)
    ensures
      var p' := ParseLines(p, LaidAll(artifacts, layout));
      Ready(p') && Flushed(p') == Flushed(p) + artifacts
    decreases |artifacts|
  {
    if artifacts == [] {
      assert Flushed(p) + [] == Flushed(p);
    } else {
      var a, rest := artifacts[0], artifacts[1..];
      match layout(a) {
        case Layout(hash, None) => BareParses(p, a, hash);
        case Layout(hash, Some(language)) => FencedParses(p, a, hash, language);
      }
      LaidAllParse(ParseLines(p, Laid(a, layout(a))), rest, layout);
      ParseConcat(p, Laid(a, layout(a)), LaidAll(rest, layout));
      MoveHead(Flushed(p), artifacts);
    }
  }

  /** An empty line at the end changes nothing. */
  lemma LastLineIsEmpty(p: Parser)
    requires Ready(p)
    ensures Flushed(ParseLine(p, "")) == Flushed(p)
  {
    assert TrimSpace("") == "";
    if p.inBlock && p.path != "" {
      assert p.content + "" + "\n" == p.content + "\n";
      TrimSnoc(p.content, '\n');
    }
  }

  ghost predicate OneLineFences(artifacts: seq<Artifact>, layout: Artifact -> Layout) {
    forall a :: a in artifacts && layout(a).fence.Some? ==> OneLine(layout(a).fence.value)
  }

  lemma {:induction false} LaidAreOneLine(artifacts: seq<Artifact>, layout: Artifact -> Layout)
    requires AllPrintable(artifacts) && OneLineFences(artifacts, layout)
    ensures forall line :: line in LaidAll(artifacts, layout) ==> OneLine(line)
  {
    if artifacts == [] {
    } else {
      var a := artifacts[0];
      LinesAreOneLine(a.content);
      assert OneLine(PathLine(a.path, layout(a).hash)) && OneLine("```");
      assert layout(a).fence.Some? ==> OneLine("```" + layout(a).fence.value);
      LaidAreOneLine(artifacts[1..], layout);
    }
  }

  /** Whatever layout each artifact has, bare or fenced, with either comment style, and whether or not the text ends with
      a fence: parsing gives back the list exactly when all artifacts are printable. */
  lemma AnyLayoutIff(artifacts: seq<Artifact>, layout: Artifact -> Layout)
    requires OneLineFences(artifacts, layout)
    ensures Parsed(Unlines(LaidAll(artifacts, layout))) == artifacts <==> forall a :: a in artifacts ==> Printable(a)
  {
    AllPrintableIff(artifacts);
    ParsedAreTidy(Unlines(LaidAll(artifacts, layout)));
    if AllPrintable(artifacts) {
      var ls := LaidAll(artifacts, layout);
      LaidAreOneLine(artifacts, layout);
      LinesOfUnlines(ls);
      LaidAllParse(START, artifacts, layout);
      ParseConcat(START, ls, [""]);
      var p := ParseLines(START, ls);
      LastLineIsEmpty(p);
      assert ParseLines(p, [""]) == ParseLine(p, "") && [] + artifacts == artifacts;
    }
  }

  /** The word "test" at position `i`. */
  predicate TestAt(path: string, i: nat) {
    i + 4 <= |path| && path[i] == 't' && path[i + 1] == 'e' && path[i + 2] == 's' && path[i + 3] == 't'
  }

  lemma TestAtIff(path: string, i: nat)
    requires i <= |path|
    ensures HasPrefix(path[i..], "test") <==> TestAt(path, i)
  {
    if i + 4 <= |path| {
      var front := path[i..][..4];
      assert front[0] == path[i] && front[1] == path[i + 1] && front[2] == path[i + 2] && front[3] == path[i + 3];
      assert TestAt(path, i) ==> front == "test";
      assert front == "test" ==> front[0] == 't' && front[1] == 'e' && front[2] == 's' && front[3] == 't';
    }
  }

  lemma TestFileHasTest(path: string)
    requires HasSuffix(path, "_test.go")
    ensures TestAt(path, |path| - 7)
  {
    var back := path[|path| - 8..];
    assert back == "_test.go";
    assert back[1] == path[|path| - 7] && back[2] == path[|path| - 6] && back[3] == path[|path| - 5] && back[4] == path[|path| - 4];
  }

  /** The type of an artifact: a test if its path has "test" in it, else a document if it ends in ".md", else code. */
  lemma TypeByPath(path: string)
    ensures ArtifactType(path) ==
      if exists i: nat :: TestAt(path, i) then "test"
      else if |path| >= 3 && path[|path| - 3] == '.' && path[|path| - 2] == 'm' && path[|path| - 1] == 'd' then "doc"
      else "code"
  {
    forall i: nat | i <= |path|
      ensures HasPrefix(path[i..], "test") <==> TestAt(path, i)
    {
      TestAtIff(path, i);
    }
    if i: nat :| TestAt(path, i) {
      assert HasPrefix(path[i..], "test");
    }
    if HasSuffix(path, "_test.go") {
      TestFileHasTest(path);
    }
    if |path| >= 3 {
      var back := path[|path| - 3..];
      assert back[0] == path[|path| - 3] && back[1] == path[|path| - 2] && back[2] == path[|path| - 1];
      assert back == ".md" <==> back[0] == '.' && back[1] == 'm' && back[2] == 'd';
    }
  }
}
