/** The systemd unit's text (crates/wx-agent/src/autostart.rs:195-400, packaging/winxtend.service.in). */
module UnitText {
  import opened Texts
  import opened Wrappers

  // --- One ExecStart word --------------------------------------------------

  /** systemd refuses these in an executable path however they are written. */
  predicate Unrepresentable(c: char) {
    c as int < 0x20 || c as int == 0x7f || c == '"' || c == '\'' || c == '\\'
  }

  predicate Representable(path: string) {
    forall i :: 0 <= i < |path| ==> !Unrepresentable(path[i])
  }

  /** That is control characters, both kinds of quote, and the backslash. Spaces and percent signs can be named. */
  lemma RefusedCharacters(c: char)
    ensures Representable([c]) <==> c as int >= 32 && c as int != 127 && c as int !in {34, 39, 92}
  {
    assert forall i :: 0 <= i < |[c]| ==> [c][i] == c;
    assert [c][0] == c;
  }

  function Doubled(path: string): string {
    if path == "" then "" else (if path[0] == '%' then "%%" else [path[0]]) + Doubled(path[1..])
  }

  function Quoted(path: string): string {
    "\"" + Doubled(path) + "\""
  }

  /** Specifiers resolved: only a doubled percent stands for itself. */
  function Undoubled(text: string): Option<string>
    decreases |text|
  {
    if text == "" then Some("")
    else if text[0] != '%' then
      var rest := Undoubled(text[1..]);
      if rest.None? then None else Some([text[0]] + rest.value)
    else if |text| == 1 || text[1] != '%' then None
    else
      var rest := Undoubled(text[2..]);
      if rest.None? then None else Some("%" + rest.value)
  }

  /** How systemd reads a fully quoted word as an executable path. */
  function ReadWord(word: string): Option<string> {
    if |word| < 2 || word[0] != '"' || word[|word| - 1] != '"' then None
    else
      var path := Undoubled(word[1..|word| - 1]);
      if path.Some? && Representable(path.value) then path else None
  }

  lemma {:induction false} UndoublesBack(path: string)
    ensures Undoubled(Doubled(path)) == Some(path)
  {
    if path != "" {
      UndoublesBack(path[1..]);
      var d := Doubled(path);
      if path[0] == '%' {
        assert d[2..] == Doubled(path[1..]);
      } else {
        assert d[1..] == Doubled(path[1..]);
      }
      assert path == [path[0]] + path[1..];
    }
  }

  /** A path reads back as itself exactly when it is representable. */
  lemma ReadsBackExactlyWhenRepresentable(path: string)
    ensures ReadWord(Quoted(path)) == Some(path) <==> Representable(path)
  {
    UndoublesBack(path);
    var word := Quoted(path);
    assert word[1..|word| - 1] == Doubled(path);
  }

  /** Different paths are quoted differently. */
  lemma QuotedTellsApart(a: string, b: string)
    requires Quoted(a) == Quoted(b)
    ensures a == b
  {
    assert Quoted(a)[1..|Quoted(a)| - 1] == Doubled(a) && Quoted(b)[1..|Quoted(b)| - 1] == Doubled(b);
    UndoublesBack(a);
    UndoublesBack(b);
  }

  // --- The unit ------------------------------------------------------------

  const EXEC_START := "ExecStart="

  /** The template around its one placeholder line: lines before it and lines after it. */
  datatype Template = Template(before: seq<string>, after: seq<string>)
  {
    ghost predicate Valid() {
      forall line <- before + after :: '\n' !in line && !Starts(TrimStart(line), EXEC_START)
    }
  }

  predicate Starts(s: string, prefix: string) {
    prefix <= s
  }

  function Joined(lines: seq<string>): string {
    if lines == [] then "" else lines[0] + "\n" + Joined(lines[1..])
  }

  /** The lines of a text, a last one without its newline included. */
  function Lines(text: string): seq<string>
    decreases |text|
  {
    if text == "" then []
    else
      var n := LineEnd(text);
      if n == |text| then [text] else [text[..n]] + Lines(text[n + 1..])
  }

  function LineEnd(text: string): (n: nat)
    ensures n <= |text| && '\n' !in text[..n]
    ensures n < |text| ==> text[n] == '\n'
  {
    if text == "" || text[0] == '\n' then 0
    else
      assert text[..1 + LineEnd(text[1..])] == [text[0]] + text[1..][..LineEnd(text[1..])];
      1 + LineEnd(text[1..])
  }

  function Rendered(template: Template, exe: string): string {
    Joined(template.before + [EXEC_START + Quoted(exe)] + template.after)
  }

  function ExecLine(line: string): Option<string> {
    if Starts(TrimStart(line), EXEC_START) then Some(TrimEnd(TrimStart(line)[|EXEC_START|..])) else None
  }

  /** The values of every ExecStart line. */
  function ExecStarts(lines: seq<string>): seq<string> {
    if lines == [] then []
    else (if ExecLine(lines[0]).Some? then [ExecLine(lines[0]).value] else []) + ExecStarts(lines[1..])
  }

  /** The single ExecStart value, or none when there is not exactly one. */
  function ExecStart(text: string): Option<string> {
    var found := ExecStarts(Lines(text));
    if |found| == 1 then Some(found[0]) else None
  }

  method FindExecStart(text: string) returns (r: Option<string>)
    ensures r == ExecStart(text)
  {
    var lines := Lines(text);
    r := None;
    for i := 0 to |lines|
      invariant ExecStarts(lines) == (if r.Some? then [r.value] else []) + ExecStarts(lines[i..])
    {
      assert lines[i..][1..] == lines[i + 1..];
      var value := ExecLine(lines[i]);
      if value.Some? {
        if r.Some? {
          return None;
        }
        r := value;
      }
    }
    assert lines[|lines|..] == [];
  }

  lemma {:induction false} ExecStartsConcat(a: seq<string>, b: seq<string>)
    ensures ExecStarts(a + b) == ExecStarts(a) + ExecStarts(b)
  {
    hide ExecLine;
    if a == [] {
      assert a + b == b;
    } else {
      assert (a + b)[1..] == a[1..] + b;
      ExecStartsConcat(a[1..], b);
    }
  }

  lemma {:induction false} NoExecStarts(lines: seq<string>)
    requires forall line <- lines :: !Starts(TrimStart(line), EXEC_START)
    ensures ExecStarts(lines) == []
  {
    if lines != [] {
      assert lines[0] in lines;
      NoExecStarts(lines[1..]);
    }
  }

  lemma FirstLine(line: string, rest: string)
    requires '\n' !in line
    ensures Lines(line + "\n" + rest) == [line] + Lines(rest)
  {
    var text := line + "\n" + rest;
    var n := LineEnd(text);
    assert text[|line|] == '\n';
    assert forall k :: 0 <= k < |line| ==> text[k] == line[k] && line[k] in line;
    assert forall k :: 0 <= k < n ==> text[k] == text[..n][k] && text[..n][k] in text[..n];
    assert n == |line|;
    assert text[..n] == line && text[n + 1..] == rest;
  }

  lemma {:induction false} LinesOfJoined(lines: seq<string>)
    requires forall line <- lines :: '\n' !in line
    ensures Lines(Joined(lines)) == lines
  {
    if lines != [] {
      assert lines[0] in lines;
      LinesOfJoined(lines[1..]);
      FirstLine(lines[0], Joined(lines[1..]));
    }
  }

  lemma {:induction false} DoubledCharacters(path: string)
    requires Representable(path)
    ensures '\n' !in Doubled(path)
  {
    if path != "" {
      DoubledCharacters(path[1..]);
    }
  }

  lemma ExecLineOf(exe: string)
    requires Representable(exe)
    ensures '\n' !in EXEC_START + Quoted(exe) && ExecLine(EXEC_START + Quoted(exe)) == Some(Quoted(exe))
  {
    DoubledCharacters(exe);
    var line := EXEC_START + Quoted(exe);
    assert line[0] == 'E';
    assert TrimStart(line) == line;
    assert line[|EXEC_START|..] == Quoted(exe);
    assert Quoted(exe)[|Quoted(exe)| - 1] == '"';
    assert TrimEnd(Quoted(exe)) == Quoted(exe);
  }

  /** A unit rendered for a path systemd can name has that one ExecStart, and no other. */
  lemma RenderedStarts(template: Template, exe: string)
    requires template.Valid() && Representable(exe)
    ensures ExecStart(Rendered(template, exe)) == Some(Quoted(exe))
  {
    var line := EXEC_START + Quoted(exe);
    var lines := template.before + [line] + template.after;
    ExecLineOf(exe);
    assert forall l <- lines :: l == line || l in template.before + template.after;
    assert forall l <- template.before :: l in template.before + template.after;
    assert forall l <- template.after :: l in template.before + template.after;
    LinesOfJoined(lines);
    ExecStartsConcat(template.before + [line], template.after);
    ExecStartsConcat(template.before, [line]);
    NoExecStarts(template.before);
    NoExecStarts(template.after);
    assert [line][1..] == [];
  }

  /** A unit rendered for one binary starts exactly that one. */
  lemma StartsOnlyItsOwn(template: Template, exe: string, other: string)
    requires template.Valid() && Representable(exe)
    ensures ExecStart(Rendered(template, exe)) == Some(Quoted(other)) <==> exe == other
  {
    RenderedStarts(template, exe);
    if Quoted(exe) == Quoted(other) {
      QuotedTellsApart(exe, other);
    }
  }

  /** A line that sets nothing counts as one all the same. */
  lemma EmptyExecStartCounts()
    ensures ExecLine("ExecStart=") == Some("")
  {
    var line := "ExecStart=";
    assert line[0] == 'E';
    assert TrimStart(line) == line && line[|EXEC_START|..] == "";
  }
}
