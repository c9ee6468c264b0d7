/** The grammar that the tokenizer of `ShellWords` accepts, written down without any scanning: a line is
    spelled by plain and escaped characters, quoted text, blanks and separators, and the tokenizer's
    answer is what the spelling says, and exactly when there is one. */
module ShellGrammar {
  import opened Text
  import opened ShellWords

  // ----- spellings -----

  datatype Inner = Raw(c: char) | Slashed(c: char)

  datatype Item =
    | Plain(c: char)
    | Escape(c: char)
    | Single(text: string)
    | Double(inside: seq<Inner>)
    | Blank(c: char)
    | Semicolon
    | AndAnd

  function SpellInner(inside: seq<Inner>): string {
    if inside == [] then ""
    else (match inside[0] case Raw(c) => [c] case Slashed(c) => ['\\', c]) + SpellInner(inside[1..])
  }

  function SpellItem(item: Item): string {
    match item
    case Plain(c) => [c]
    case Escape(c) => ['\\', c]
    case Single(text) => "'" + (text + "'")
    case Double(inside) => "\"" + (SpellInner(inside) + "\"")
    case Blank(c) => [c]
    case Semicolon => ";"
    case AndAnd => "&&"
  }

  function Spell(items: seq<Item>): string {
    if items == [] then "" else SpellItem(items[0]) + Spell(items[1..])
  }

  /** Expansion is refused everywhere but in single quotes; so are the other operators and line breaks
      outside quotes. */
  predicate Legal(item: Item) {
    match item
    case Plain(c) => c !in "$`\\'\";|&<>(){}" && !IsSpace(c)
    case Escape(_) => true
    case Single(text) => '\'' !in text
    case Double(inside) => forall x :: x in inside && x.Raw? ==> x.c !in "$`\\\""
    case Blank(c) => IsSpace(c) && c != '\n' && c != '\r'
    case Semicolon => true
    case AndAnd => true
  }

  predicate AllLegal(items: seq<Item>) {
    forall x :: x in items ==> Legal(x)
  }

  // ----- what a spelling says -----

  function InnerText(inside: seq<Inner>): string {
    if inside == [] then "" else [inside[0].c] + InnerText(inside[1..])
  }

  predicate IsSeparator(item: Item) {
    item.Semicolon? || item.AndAnd?
  }

  /** What a piece adds to the word it stands in. */
  function TextOf(item: Item): string {
    match item
    case Plain(c) => [c]
    case Escape(c) => [c]
    case Single(text) => text
    case Double(inside) => InnerText(inside)
    case _ => ""
  }

  function Segments(items: seq<Item>): (r: seq<seq<Item>>)
    ensures r != []
  {
    if items == [] then [[]]
    else
      var rest := Segments(items[1..]);
      if IsSeparator(items[0]) then [[]] + rest else [[items[0]] + rest[0]] + rest[1..]
  }

  /** Pieces without a blank between them make one word; `open` is the word begun so far. */
  function WordsFrom(open: Option<string>, segment: seq<Item>): seq<string>
    decreases |segment|
  {
    if segment == [] then if open == None then [] else [open.value]
    else if segment[0].Blank? then (if open == None then [] else [open.value]) + WordsFrom(None, segment[1..])
    else WordsFrom(Some((if open == None then "" else open.value) + TextOf(segment[0])), segment[1..])
  }

  function WordsOf(segments: seq<seq<Item>>): (r: seq<Command>)
    ensures |r| == |segments|
  {
    if segments == [] then [] else [WordsFrom(None, segments[0])] + WordsOf(segments[1..])
  }

  /** One command per stretch between separators; none is empty, except that nothing need follow the
      last separator. */
  predicate Says(items: seq<Item>, commands: seq<Command>) {
    var words := WordsOf(Segments(items));
    NonEmpty(commands) && (words == commands || words == commands + [[]])
  }

  ghost predicate Spells(items: seq<Item>, line: string, commands: seq<Command>) {
    AllLegal(items) && Spell(items) == line && Says(items, commands)
  }

  // ----- the tokenizer over items -----

  function LexItems(s: Scan, items: seq<Item>): Option<seq<Command>>
    decreases |items|
  {
    if items == [] then Finish(s)
    else if IsSeparator(items[0]) then
      var flushed := Flush(s);
      if flushed.words == [] then None
      else LexItems(flushed.(commands := flushed.commands + [flushed.words], words := []), items[1..])
    else if items[0].Blank? then LexItems(Flush(s), items[1..])
    else LexItems(s.(word := s.word + TextOf(items[0]), started := true), items[1..])
  }

  lemma {:induction false} LexSingle(s: Scan, text: string, rest: string)
    requires s.quote == Some('\'') && '\'' !in text
    ensures Lex(s, text + ("'" + rest)) == Lex(s.(quote := None, word := s.word + text, started := true), rest)
    decreases |text|
  {
    var line := text + ("'" + rest);
    if text == "" {
      assert line[0] == '\'' && line[1..] == rest && s.word + text == s.word;
    } else {
      assert line[0] == text[0] && line[1..] == text[1..] + ("'" + rest);
      LexSingle(Push(s, text[0]), text[1..], rest);
      assert s.word + [text[0]] + text[1..] == s.word + text;
    }
  }

  lemma {:induction false} LexDouble(s: Scan, inside: seq<Inner>, rest: string)
    requires s.quote == Some('"') && Legal(Double(inside))
    ensures Lex(s, SpellInner(inside) + ("\"" + rest)) ==
      Lex(s.(quote := None, word := s.word + InnerText(inside), started := true), rest)
    decreases |inside|
  {
    hide IsSpace, Unsupported, EndsCommand;
    var line := SpellInner(inside) + ("\"" + rest);
    if inside == [] {
      assert line[0] == '"' && line[1..] == rest && s.word + InnerText(inside) == s.word;
    } else {
      var tail := SpellInner(inside[1..]) + ("\"" + rest);
      if inside[0].Raw? { assert line[0] == inside[0].c && line[1..] == tail; }
      else { assert line[0] == '\\' && line[1] == inside[0].c && line[2..] == tail; }
      LexDouble(Push(s, inside[0].c), inside[1..], rest);
      assert s.word + [inside[0].c] + InnerText(inside[1..]) == s.word + InnerText(inside);
    }
  }

  lemma LexPlain(s: Scan, c: char, rest: string)
    requires s.quote == None && Legal(Plain(c))
    ensures Lex(s, [c] + rest) == Lex(Push(s, c), rest)
  {
    var line := [c] + rest;
    assert line[0] == c && line[1..] == rest;
  }

  lemma LexEscape(s: Scan, c: char, rest: string)
    requires s.quote == None
    ensures Lex(s, ['\\', c] + rest) == Lex(Push(s, c), rest)
  {
    hide IsSpace, Unsupported, EndsCommand;
    var line := ['\\', c] + rest;
    assert line[0] == '\\' && line[1] == c && line[2..] == rest;
  }

  lemma LexOpens(s: Scan, q: char, rest: string)
    requires s.quote == None && (q == '\'' || q == '"')
    ensures Lex(s, [q] + rest) == Lex(s.(quote := Some(q), started := true), rest)
  {
    hide IsSpace, Unsupported, EndsCommand;
    var line := [q] + rest;
    assert line[0] == q && line[1..] == rest;
  }

  lemma {:induction false} LexPiece(s: Scan, item: Item, rest: string)
    requires s.quote == None && Legal(item) && !item.Blank? && !IsSeparator(item)
    ensures Lex(s, SpellItem(item) + rest) == Lex(s.(word := s.word + TextOf(item), started := true), rest)
  {
    hide Lex, IsSpace;
    match item {
      case Plain(c) => LexPlain(s, c, rest);
      case Escape(c) => LexEscape(s, c, rest);
      case Single(text) =>
        assert SpellItem(item) + rest == ['\''] + (text + ("'" + rest));
        LexOpens(s, '\'', text + ("'" + rest));
        LexSingle(s.(quote := Some('\''), started := true), text, rest);
      case Double(inside) =>
        assert SpellItem(item) + rest == ['"'] + (SpellInner(inside) + ("\"" + rest));
        LexOpens(s, '"', SpellInner(inside) + ("\"" + rest));
        LexDouble(s.(quote := Some('"'), started := true), inside, rest);
    }
  }

  lemma {:induction false} LexSpelled(s: Scan, items: seq<Item>)
    requires s.quote == None && AllLegal(items)
    ensures Lex(s, Spell(items)) == LexItems(s, items)
    decreases |items|
  {
    hide IsSpace, Unsupported;
    if items == [] { return; }
    var item, rest := items[0], Spell(items[1..]);
    var line := Spell(items);
    assert Legal(item);
    if IsSeparator(item) {
      LexSeparator(s, item, rest);
      var flushed := Flush(s);
      if flushed.words != [] {
        LexSpelled(flushed.(commands := flushed.commands + [flushed.words], words := []), items[1..]);
      }
    } else if item.Blank? {
      LexBlank(s, item.c, rest);
      LexSpelled(Flush(s), items[1..]);
    } else {
      LexPiece(s, item, rest);
      LexSpelled(s.(word := s.word + TextOf(item), started := true), items[1..]);
    }
  }

  lemma LexSeparator(s: Scan, item: Item, rest: string)
    requires s.quote == None && IsSeparator(item)
    ensures var flushed := Flush(s);
      Lex(s, SpellItem(item) + rest) == if flushed.words == [] then None
      else Lex(flushed.(commands := flushed.commands + [flushed.words], words := []), rest)
  {
    var line := SpellItem(item) + rest;
    if item.AndAnd? { assert line[0] == '&' && line[1] == '&' && line[2..] == rest; }
    else { assert line[0] == ';' && line[1..] == rest; }
  }

  lemma LexBlank(s: Scan, c: char, rest: string)
    requires s.quote == None && Legal(Blank(c))
    ensures Lex(s, [c] + rest) == Lex(Flush(s), rest)
  {
    var line := [c] + rest;
    assert line[0] == c && line[1..] == rest;
  }

  // ----- what the tokenizer answers is what the spelling says -----

  /** The commands, once the words between separators are known. */
  function Outcome(commands: seq<Command>, words: seq<Command>): Option<seq<Command>>
    requires words != []
    decreases |words|
  {
    if |words| == 1 then
      var all := if words[0] == [] then commands else commands + [words[0]];
      if all == [] then None else Some(all)
    else if words[0] == [] then None
    else Outcome(commands + [words[0]], words[1..])
  }

  function Pending(s: Scan): Option<string> {
    if s.started then Some(s.word) else None
  }

  function Started(s: Scan, items: seq<Item>): (r: seq<Command>)
    ensures r != []
  {
    var segments := Segments(items);
    [s.words + WordsFrom(Pending(s), segments[0])] + WordsOf(segments[1..])
  }

  /** One more item in front of the rest. */
  lemma StartedPiece(s: Scan, items: seq<Item>, next: Scan)
    requires items != [] && !IsSeparator(items[0]) && s.quote == None && (s.started || s.word == "")
    requires next == if items[0].Blank? then Flush(s) else s.(word := s.word + TextOf(items[0]), started := true)
    ensures Started(s, items) == Started(next, items[1..])
  {
    hide TextOf, WordsFrom, WordsOf;
    var item, rest := items[0], Segments(items[1..]);
    var whole := Segments(items);
    assert whole[0] == [item] + rest[0] && whole[1..] == rest[1..];
    WordsOneMore(Pending(s), item, rest[0]);
    if item.Blank? && s.started {
      assert s.words + ([s.word] + WordsFrom(None, rest[0])) == (s.words + [s.word]) + WordsFrom(None, rest[0]);
    } else if item.Blank? {
      var none: Command := [];
      assert none + WordsFrom(None, rest[0]) == WordsFrom(None, rest[0]);
    } else if !s.started { assert s.word + TextOf(item) == "" + TextOf(item); }
  }

  lemma WordsOneMore(open: Option<string>, item: Item, rest: seq<Item>)
    ensures WordsFrom(open, [item] + rest) ==
      if item.Blank? then (if open == None then [] else [open.value]) + WordsFrom(None, rest)
      else WordsFrom(Some((if open == None then "" else open.value) + TextOf(item)), rest)
  {
    assert ([item] + rest)[0] == item && ([item] + rest)[1..] == rest;
  }

  lemma StartedSeparator(s: Scan, items: seq<Item>)
    requires items != [] && IsSeparator(items[0]) && s.quote == None
    ensures var flushed := Flush(s);
      && Started(s, items) == [flushed.words] + Started(flushed.(words := []), items[1..])
  {
    var rest := Segments(items[1..]);
    var whole := Segments(items);
    assert whole[0] == [] && whole[1..] == rest && rest == [rest[0]] + rest[1..];
    var none: Command := [];
    assert none + WordsFrom(None, rest[0]) == WordsFrom(None, rest[0]);
    assert s.words + none == s.words;
    assert Started(s, items) == [Flush(s).words] + WordsOf(rest);
    assert Started(Flush(s).(words := []), items[1..]) == WordsOf(rest);
  }

  lemma {:induction false} ItemsSay(s: Scan, items: seq<Item>)
    requires s.quote == None && (s.started || s.word == "")
    ensures LexItems(s, items) == Outcome(s.commands, Started(s, items))
    decreases |items|
  {
    hide Segments, WordsFrom, WordsOf, Started, TextOf;
    if items == [] { NothingLeft(s); return; }
    var item := items[0];
    if IsSeparator(item) {
      var flushed := Flush(s);
      StartedSeparator(s, items);
      if flushed.words != [] {
        var next := flushed.(commands := flushed.commands + [flushed.words], words := []);
        ItemsSay(next, items[1..]);
        SameStart(flushed.(words := []), next, items[1..]);
      }
    } else {
      var next := if item.Blank? then Flush(s) else s.(word := s.word + TextOf(item), started := true);
      StartedPiece(s, items, next);
      ItemsSay(next, items[1..]);
    }
  }

  lemma NothingLeft(s: Scan)
    requires s.quote == None
    ensures LexItems(s, []) == Outcome(s.commands, Started(s, []))
  {
    assert s.words + [] == s.words;
  }

  lemma SameStart(a: Scan, b: Scan, items: seq<Item>)
    requires a.words == b.words && a.word == b.word && a.started == b.started
    ensures Started(a, items) == Started(b, items)
  {
  }

  predicate Ends(words: seq<Command>, commands: seq<Command>) {
    (forall k :: 0 <= k < |commands| ==> commands[k] != []) && (words == commands || words == commands + [[]])
  }

  lemma {:induction false} EndsTail(words: seq<Command>, commands: seq<Command>)
    requires words != [] && commands != [] && words[0] == commands[0] != []
    ensures Ends(words, commands) <==> Ends(words[1..], commands[1..])
  {
    assert words == [words[0]] + words[1..] && commands == [commands[0]] + commands[1..];
    assert commands + [[]] == [commands[0]] + (commands[1..] + [[]]);
    assert words[1..] == commands[1..] + [[]] ==> words == commands + [[]];
    assert words == commands + [[]] ==> words[1..] == (commands + [[]])[1..] == commands[1..] + [[]];
    if Ends(words[1..], commands[1..]) {
      forall k | 0 <= k < |commands| ensures commands[k] != [] {
        if k > 0 { assert commands[k] == commands[1..][k - 1]; }
      }
    }
  }

  lemma EndsOne(words: seq<Command>, commands: seq<Command>)
    requires |words| == 1
    ensures Ends(words, commands) <==> commands == if words[0] == [] then [] else words
  {
    if words == commands + [[]] { assert |commands| == 0 && words[0] == (commands + [[]])[0] == []; }
  }

  lemma SameAfter(before: seq<Command>, a: seq<Command>, b: seq<Command>)
    ensures before + a == before + b <==> a == b
  {
    assert (before + a)[|before|..] == a && (before + b)[|before|..] == b;
  }

  lemma {:induction false} OutcomeSays(before: seq<Command>, words: seq<Command>, commands: seq<Command>)
    requires words != []
    ensures Outcome(before, words) == Some(before + commands) <==> before + commands != [] && Ends(words, commands)
    decreases |words|
  {
    hide Ends;
    if |words| == 1 {
      EndsOne(words, commands);
      var last := if words[0] == [] then [] else words;
      assert before + [] == before && words == [words[0]];
      SameAfter(before, commands, last);
    } else if words[0] == [] {
      EndsNot(words, commands);
    } else {
      var next := before + [words[0]];
      LongerOutcome(next, words[1..]);
      if commands == [] || commands[0] != words[0] {
        EndsFirst(words, commands);
        if Outcome(before, words) == Some(before + commands) { NotLonger(before, words[0], commands); }
      } else {
        EndsTail(words, commands);
        assert before + commands == next + commands[1..];
        OutcomeSays(next, words[1..], commands[1..]);
      }
    }
  }

  lemma EndsNot(words: seq<Command>, commands: seq<Command>)
    requires |words| > 1 && words[0] == []
    ensures !Ends(words, commands)
  {
    if words == commands + [[]] { assert words[0] == commands[0]; }
  }

  lemma EndsFirst(words: seq<Command>, commands: seq<Command>)
    requires |words| > 1 && (commands == [] || commands[0] != words[0])
    ensures !Ends(words, commands)
  {
    assert commands != [] ==> (commands + [[]])[0] == commands[0];
  }

  lemma NotLonger(before: seq<Command>, first: Command, commands: seq<Command>)
    requires before + [first] <= before + commands
    ensures commands != [] && commands[0] == first
  {
    assert |before + [first]| <= |before + commands|;
    assert (before + [first])[|before|] == (before + commands)[|before|];
  }

  lemma {:induction false} LongerOutcome(before: seq<Command>, words: seq<Command>)
    requires words != []
    ensures Outcome(before, words).Some? ==> before <= Outcome(before, words).value
    decreases |words|
  {
    if |words| > 1 && words[0] != [] { LongerOutcome(before + [words[0]], words[1..]); }
  }

  // ----- an accepted line has a spelling -----

  lemma {:induction false} ClosesSingle(s: Scan, rest: string) returns (text: string, tail: string)
    requires s.quote == Some('\'') && Lex(s, rest).Some?
    ensures '\'' !in text && rest == text + ("'" + tail)
    decreases |rest|
  {
    if rest[0] == '\'' {
      text, tail := "", rest[1..];
    } else {
      text, tail := ClosesSingle(Push(s, rest[0]), rest[1..]);
      text := [rest[0]] + text;
    }
  }

  lemma {:induction false} ClosesDouble(s: Scan, rest: string) returns (inside: seq<Inner>, tail: string)
    requires s.quote == Some('"') && Lex(s, rest).Some?
    ensures Legal(Double(inside)) && rest == SpellInner(inside) + ("\"" + tail)
    decreases |rest|
  {
    if rest[0] == '"' {
      inside, tail := [], rest[1..];
    } else if rest[0] == '\\' {
      inside, tail := ClosesDouble(Push(s, rest[1]), rest[2..]);
      inside := [Slashed(rest[1])] + inside;
    } else {
      inside, tail := ClosesDouble(Push(s, rest[0]), rest[1..]);
      inside := [Raw(rest[0])] + inside;
    }
  }

  lemma {:induction false} FirstItem(s: Scan, rest: string) returns (item: Item, tail: string)
    requires s.quote == None && rest != "" && Lex(s, rest).Some?
    ensures Legal(item) && rest == SpellItem(item) + tail
  {
    var c := rest[0];
    if c == '\\' { item, tail := Escape(rest[1]), rest[2..]; }
    else if c == '\'' {
      var text;
      text, tail := ClosesSingle(s.(quote := Some(c), started := true), rest[1..]);
      item := Single(text);
    } else if c == '"' {
      var inside;
      inside, tail := ClosesDouble(s.(quote := Some(c), started := true), rest[1..]);
      item := Double(inside);
    }
    else if EndsCommand(rest) {
      if c == '&' { item, tail := AndAnd, rest[2..]; } else { item, tail := Semicolon, rest[1..]; }
    }
    else if IsSpace(c) { item, tail := Blank(c), rest[1..]; }
    else { item, tail := Plain(c), rest[1..]; }
  }

  lemma {:induction false} SomeSpelling(s: Scan, rest: string) returns (items: seq<Item>)
    requires s.quote == None && Lex(s, rest).Some?
    ensures AllLegal(items) && Spell(items) == rest
    decreases |rest|
  {
    if rest == "" { return []; }
    var item, tail := FirstItem(s, rest);
    var next := After(s, item, tail);
    items := SomeSpelling(next, tail);
    items := [item] + items;
  }

  /** What the tokenizer carries past one item. */
  lemma After(s: Scan, item: Item, tail: string) returns (next: Scan)
    requires s.quote == None && Legal(item) && Lex(s, SpellItem(item) + tail).Some?
    ensures next.quote == None && Lex(next, tail).Some?
  {
    hide Lex, IsSpace;
    if IsSeparator(item) {
      LexSeparator(s, item, tail);
      var flushed := Flush(s);
      next := flushed.(commands := flushed.commands + [flushed.words], words := []);
    } else if item.Blank? {
      LexBlank(s, item.c, tail);
      next := Flush(s);
    } else {
      LexPiece(s, item, tail);
      next := s.(word := s.word + TextOf(item), started := true);
    }
  }

  // ----- the theorem -----

  lemma {:induction false} SpellingIsParsed(items: seq<Item>, commands: seq<Command>)
    requires AllLegal(items)
    ensures Lex(EMPTY_SCAN, Spell(items)) == Some(commands) <==> Says(items, commands)
  {
    hide Lex, LexItems, Outcome;
    LexSpelled(EMPTY_SCAN, items);
    ItemsSay(EMPTY_SCAN, items);
    var segments := Segments(items);
    assert segments == [segments[0]] + segments[1..];
    assert Started(EMPTY_SCAN, items) == WordsOf(segments) by {
      assert EMPTY_SCAN.words + WordsFrom(None, segments[0]) == WordsFrom(None, segments[0]);
    }
    var none: seq<Command> := [];
    OutcomeSays(none, WordsOf(segments), commands);
    assert none + commands == commands;
    assert Ends(WordsOf(segments), commands) && commands != [] <==> Says(items, commands);
  }

  /** The tokenizer accepts a line and reads it as those commands if and only if the line is short enough
      and some spelling of it says them. */
  lemma {:induction false} ParseIsTheGrammar(line: string, commands: seq<Command>)
    ensures Parse(line) == Some(commands) <==>
      |line| <= MAX_COMMAND_LENGTH && exists items :: Spells(items, line, commands)
  {
    hide Lex, Says;
    if Parse(line) == Some(commands) {
      var items := SomeSpelling(EMPTY_SCAN, line);
      SpellingIsParsed(items, commands);
      assert Spells(items, line, commands);
    }
    if |line| <= MAX_COMMAND_LENGTH && exists items :: Spells(items, line, commands) {
      var items :| Spells(items, line, commands);
      SpellingIsParsed(items, commands);
    }
  }
}
