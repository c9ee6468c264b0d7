/** `staticCommands` of `script-graph.ts`: a hand-written tokenizer for a small shell grammar, as the
    source's loop, proved against a recursive reading of the rest of the line. Printing a list of
    commands and tokenizing it gives the list back. */
module ShellWords {
  import opened Text

  type Command = seq<string>

  const MAX_COMMAND_LENGTH: nat := 16000

  /** What the loop carries from one character to the next. */
  datatype Scan = Scan(commands: seq<Command>, words: Command, word: string, quote: Option<char>, started: bool)

  const EMPTY_SCAN := Scan([], [], "", None, false)

  function Flush(s: Scan): Scan {
    s.(words := if s.started then s.words + [s.word] else s.words, word := "", started := false)
  }

  function Push(s: Scan, c: char): Scan {
    s.(word := s.word + [c], started := true)
  }

  predicate EndsCommand(rest: string) {
    rest != "" && (rest[0] == ';' || (rest[0] == '&' && |rest| > 1 && rest[1] == '&'))
  }

  predicate Unsupported(c: char) {
    c in "|&<>\n\r(){}"
  }

  /** The members of the `\s` class. */
  predicate IsSpace(c: char) {
    || c in "\t\n\r \U{0B}\U{0C}\U{A0}\U{1680}\U{2028}\U{2029}\U{202F}\U{205F}\U{3000}\U{FEFF}"
    || '\U{2000}' <= c <= '\U{200A}'
  }

  function Finish(s: Scan): Option<seq<Command>> {
    if s.quote.Some? then None
    else
      var flushed := Flush(s);
      var commands := if flushed.words == [] then flushed.commands else flushed.commands + [flushed.words];
      if commands == [] then None else Some(commands)
  }

  /** Reads the rest of the line from the given point. */
  function Lex(s: Scan, rest: string): Option<seq<Command>>
    decreases |rest|
  {
    if rest == "" then Finish(s)
    else
      var c := rest[0];
      if s.quote != Some('\'') && (c == '$' || c == '`') then None
      else if s.quote != Some('\'') && c == '\\' then
        if |rest| == 1 then None else Lex(Push(s, rest[1]), rest[2..])
      else if s.quote.Some? then
        if Some(c) == s.quote then Lex(s.(quote := None, started := true), rest[1..]) else Lex(Push(s, c), rest[1..])
      else if c == '\'' || c == '"' then Lex(s.(quote := Some(c), started := true), rest[1..])
      else if EndsCommand(rest) then
        var flushed := Flush(s);
        if flushed.words == [] then None
        else Lex(flushed.(commands := flushed.commands + [flushed.words], words := []),
          if c == '&' then rest[2..] else rest[1..])
      else if Unsupported(c) then None
      else if IsSpace(c) then Lex(Flush(s), rest[1..])
      else Lex(Push(s, c), rest[1..])
  }

  function Parse(command: string): Option<seq<Command>> {
    if |command| > MAX_COMMAND_LENGTH then None else Lex(EMPTY_SCAN, command)
  }

  method StaticCommands(command: string) returns (result: Option<seq<Command>>)
    ensures result == Parse(command)
  {
    if |command| > 16000 { return None; }
    var commands: seq<Command> := [];
    var words: Command := [];
    var word := "";
    var quote: Option<char> := None;
    var started := false;
    var i := 0;
    while i < |command|
      invariant 0 <= i <= |command|
      invariant Parse(command) == Lex(Scan(commands, words, word, quote, started), command[i..])
    {
      var c := command[i];
      ghost var rest := command[i..];
      assert rest[0] == c && rest[1..] == command[i + 1..];
      assert |rest| > 1 ==> rest[1] == command[i + 1] && rest[2..] == command[i + 2..];
      if quote != Some('\'') {
        if c == '$' || c == '`' { return None; }
        if c == '\\' {
          i := i + 1;
          if i == |command| { return None; }
          word := word + [command[i]];
          started := true;
          i := i + 1;
          continue;
        }
      }
      if quote.Some? {
        if Some(c) == quote { quote := None; } else { word := word + [c]; }
        started := true;
        i := i + 1;
        continue;
      }
      if c == '\'' || c == '"' {
        quote := Some(c);
        started := true;
        i := i + 1;
        continue;
      }
      if c == ';' || (c == '&' && i + 1 < |command| && command[i + 1] == '&') {
        if started { words := words + [word]; }
        word, started := "", false;
        if words == [] { return None; }
        commands := commands + [words];
        words := [];
        i := if c == '&' then i + 2 else i + 1;
        continue;
      }
      if Unsupported(c) { return None; }
      if IsSpace(c) {
        if started { words := words + [word]; }
        word, started := "", false;
        i := i + 1;
        continue;
      }
      word := word + [c];
      started := true;
      i := i + 1;
    }
    if quote.Some? { return None; }
    if started { words := words + [word]; }
    if words != [] { commands := commands + [words]; }
    result := if commands != [] then Some(commands) else None;
  }

  // ----- accepted lists hold no empty command -----

  predicate NonEmpty(commands: seq<Command>) {
    commands != [] && forall k :: 0 <= k < |commands| ==> commands[k] != []
  }

  lemma {:induction false} LexKeepsNonEmpty(s: Scan, rest: string)
    requires s.commands == [] || NonEmpty(s.commands)
    requires Lex(s, rest).Some?
    ensures NonEmpty(Lex(s, rest).value)
    decreases |rest|
  {
    if rest != "" {
      var c := rest[0];
      if s.quote != Some('\'') && c == '\\' { LexKeepsNonEmpty(Push(s, rest[1]), rest[2..]); }
      else if s.quote.Some? {
        LexKeepsNonEmpty(if Some(c) == s.quote then s.(quote := None, started := true) else Push(s, c), rest[1..]);
      }
      else if c == '\'' || c == '"' { LexKeepsNonEmpty(s.(quote := Some(c), started := true), rest[1..]); }
      else if EndsCommand(rest) {
        var flushed := Flush(s);
        LexKeepsNonEmpty(flushed.(commands := flushed.commands + [flushed.words], words := []),
          if c == '&' then rest[2..] else rest[1..]);
      }
      else if IsSpace(c) { LexKeepsNonEmpty(Flush(s), rest[1..]); }
      else { LexKeepsNonEmpty(Push(s, c), rest[1..]); }
    }
  }

  // ----- printing and reading back -----

  function Escaped(word: string): string {
    if word == "" then "" else ['\\', word[0]] + Escaped(word[1..])
  }

  function PrintWord(word: string): string {
    if word == "" then "''" else Escaped(word)
  }

  function PrintWords(words: Command): string
    requires words != []
  {
    if |words| == 1 then PrintWord(words[0]) else PrintWord(words[0]) + " " + PrintWords(words[1..])
  }

  function Print(commands: seq<Command>): string
    requires NonEmpty(commands)
  {
    if |commands| == 1 then PrintWords(commands[0]) else PrintWords(commands[0]) + " && " + Print(commands[1..])
  }

  lemma {:induction false} ReadEscaped(s: Scan, word: string, rest: string)
    requires s.quote == None
    ensures Lex(s, Escaped(word) + rest) == Lex(s.(word := s.word + word, started := s.started || word != ""), rest)
    decreases |word|
  {
    var line := Escaped(word) + rest;
    if word == "" {
      assert line == rest && s.word + word == s.word;
    } else {
      assert line[0] == '\\' && line[1] == word[0] && line[2..] == Escaped(word[1..]) + rest;
      ReadEscaped(Push(s, word[0]), word[1..], rest);
      assert s.word + [word[0]] + word[1..] == s.word + word;
    }
  }

  lemma {:induction false} ReadWord(s: Scan, word: string, rest: string)
    requires s.quote == None && !s.started && s.word == ""
    ensures Lex(s, PrintWord(word) + rest) == Lex(s.(word := word, started := true), rest)
  {
    if word == "" {
      var line := PrintWord(word) + rest;
      var inside := s.(quote := Some('\''), started := true);
      assert line[0] == '\'' && line[1..][0] == '\'' && line[1..][1..] == rest;
      assert Lex(s, line) == Lex(inside, line[1..]);
      assert Lex(inside, line[1..]) == Lex(s.(started := true), rest);
    } else {
      ReadEscaped(s, word, rest);
      assert s.word + word == word;
    }
  }

  lemma {:induction false} ReadSpace(s: Scan, rest: string)
    requires s.quote == None
    ensures Lex(s, " " + rest) == Lex(Flush(s), rest)
  {
    var tail := " " + rest;
    assert tail[0] == ' ' && tail[1..] == rest;
  }

  /** After the words of one command; the last one is still being read. */
  function Reading(s: Scan, words: Command): Scan
    requires words != []
  {
    s.(words := s.words + words[..|words| - 1], word := words[|words| - 1], started := true)
  }

  lemma ReadingOneMore(s: Scan, words: Command)
    requires s.quote == None && !s.started && s.word == "" && |words| > 1
    ensures Reading(Flush(s.(word := words[0], started := true)), words[1..]) == Reading(s, words)
  {
    assert s.words + [words[0]] + words[1..][..|words| - 2] == s.words + words[..|words| - 1];
  }

  lemma {:induction false} ReadWords(s: Scan, words: Command, rest: string)
    requires s.quote == None && !s.started && s.word == "" && words != []
    ensures Lex(s, PrintWords(words) + rest) == Lex(Reading(s, words), rest)
    decreases |words|
  {
    hide Lex, PrintWord;
    ReadWord(s, words[0], if |words| == 1 then rest else " " + (PrintWords(words[1..]) + rest));
    var read := s.(word := words[0], started := true);
    if |words| == 1 {
      assert Reading(s, words) == read;
    } else {
      assert PrintWords(words) + rest == PrintWord(words[0]) + (" " + (PrintWords(words[1..]) + rest));
      ReadSpace(read, PrintWords(words[1..]) + rest);
      ReadingOneMore(s, words);
      ReadWords(Flush(read), words[1..], rest);
    }
  }

  lemma {:induction false} ReadCommands(s: Scan, commands: seq<Command>)
    requires s.quote == None && !s.started && s.word == "" && s.words == [] && NonEmpty(commands)
    ensures Lex(s, Print(commands)) == Some(s.commands + commands)
    decreases |commands|
  {
    hide Lex, PrintWords;
    var words := commands[0];
    var read := Reading(s, words);
    assert read.words + [read.word] == words;
    ReadWords(s, words, if |commands| == 1 then "" else " && " + Print(commands[1..]));
    if |commands| == 1 {
      assert PrintWords(words) + "" == Print(commands);
      ReadEnd(read);
      assert s.commands + [words] == s.commands + commands;
    } else {
      assert PrintWords(words) + (" && " + Print(commands[1..])) == Print(commands);
      ReadSeparator(read, Print(commands[1..]));
      var next := s.(commands := s.commands + [words]);
      ReadSpace(next, Print(commands[1..]));
      ReadCommands(next, commands[1..]);
      assert s.commands + [words] + commands[1..] == s.commands + commands;
    }
  }

  lemma ReadEnd(read: Scan)
    requires read.quote == None && read.started
    ensures Lex(read, "") == Some(read.commands + [read.words + [read.word]])
  {
  }

  lemma {:induction false} ReadSeparator(read: Scan, rest: string)
    requires read.quote == None && read.started
    ensures Lex(read, " && " + rest)
      == Lex(read.(commands := read.commands + [read.words + [read.word]], words := [], word := "", started := false),
        " " + rest)
  {
    var flushed := Flush(read);
    assert " && " + rest == " " + ("&& " + rest);
    ReadSpace(read, "&& " + rest);
    var tail1 := "&& " + rest;
    assert tail1[0] == '&' && tail1[1] == '&' && tail1[2..] == " " + rest;
    assert Flush(flushed) == flushed;
  }

  /** The tokenizer inverts quoting: commands printed with every character escaped, `''` for an empty
      word, words joined by spaces and commands by ` && `, come back exactly, within the length limit. */
  lemma {:induction false} PrintThenParse(commands: seq<Command>)
    requires NonEmpty(commands)
    ensures Parse(Print(commands)) == if |Print(commands)| <= MAX_COMMAND_LENGTH then Some(commands) else None
  {
    ReadCommands(EMPTY_SCAN, commands);
    assert EMPTY_SCAN.commands + commands == commands;
  }

  /** Every accepted line has a canonical form that is read the same way. */
  lemma {:induction false} AcceptedLinesHaveACanonicalForm(line: string)
    requires Parse(line).Some?
    ensures NonEmpty(Parse(line).value)
    ensures |Print(Parse(line).value)| <= MAX_COMMAND_LENGTH ==> Parse(Print(Parse(line).value)) == Parse(line)
  {
    LexKeepsNonEmpty(EMPTY_SCAN, line);
    PrintThenParse(Parse(line).value);
  }
}
