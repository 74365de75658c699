/** The quoting automaton that cuts a shell command into words and separators. */
module ShellTokens {
  import opened Prelude

  type Text = seq<char>

  datatype Token = Word(text: Text) | Separator

  datatype Quote = Unquoted | Single | Double

  /** What the automaton carries between characters. */
  datatype Scan = Scan(tokens: seq<Token>, word: Text, quote: Quote)

  const START := Scan([], [], Unquoted)

  predicate IsBlank(c: char) {
    c == ' ' || c == '\t' || c == '\r'
  }

  predicate IsSeparator(c: char) {
    c == '\n' || c == ';' || c == '|' || c == '&' || c == '(' || c == ')'
  }

  function PushWord(s: Scan): Scan {
    if s.word == [] then s else s.(tokens := s.tokens + [Word(s.word)], word := [])
  }

  predicate EndsWithSeparator(tokens: seq<Token>) {
    tokens != [] && tokens[|tokens| - 1] == Separator
  }

  function PushSeparator(s: Scan): Scan {
    var t := PushWord(s);
    if EndsWithSeparator(t.tokens) then t else t.(tokens := t.tokens + [Separator])
  }

  function Push(s: Scan, c: char): Scan {
    s.(word := s.word + [c])
  }

  /** A character that escapes the next one here. */
  predicate Escapes(quote: Quote, c: char) {
    c == '\\' && quote != Single
  }

  /** What one character that escapes nothing does. */
  function Read(s: Scan, c: char): Scan {
    match s.quote
    case Single => if c == '\'' then s.(quote := Unquoted) else Push(s, c)
    case Double => if c == '"' then s.(quote := Unquoted) else Push(s, c)
    case Unquoted =>
      if c == '\'' then s.(quote := Single)
      else if c == '"' then s.(quote := Double)
      else if IsBlank(c) then PushWord(s)
      else if IsSeparator(c) then PushSeparator(s)
      else Push(s, c)
  }

  /** The scan after a text; a text that ends in an escape has none. */
  function Scanned(s: Scan, text: Text): Option<Scan>
    decreases |text|
  {
    if text == [] then Some(s)
    else if Escapes(s.quote, text[0]) then
      if |text| == 1 then None else Scanned(Push(s, text[1]), text[2..])
    else Scanned(Read(s, text[0]), text[1..])
  }

  /** The tokens of a command; none if a quote or an escape is left open. */
  function Tokens(command: Text): Option<seq<Token>> {
    var s := Scanned(START, command);
    if s.None? || s.value.quote != Unquoted then None else Some(PushWord(s.value).tokens)
  }

  method Tokenize(command: Text) returns (r: Option<seq<Token>>)
    ensures r == Tokens(command)
  {
    hide PushSeparator, PushWord;
    var tokens: seq<Token> := [];
    var word: Text := [];
    var quote := Unquoted;
    var next := 0;
    assert command[0..] == command;
    while next < |command|
      invariant next <= |command|
      invariant Scanned(START, command) == Scanned(Scan(tokens, word, quote), command[next..])
    {
      var character := command[next];
      assert command[next..][0] == character && command[next..][1..] == command[next + 1..];
      next := next + 1;
      if Escapes(quote, character) {
        if next == |command| {
          return None;
        }
        assert command[next - 1..][1] == command[next] && command[next - 1..][2..] == command[next + 1..];
        word := word + [command[next]];
        next := next + 1;
      } else {
        tokens, word, quote := ReadInto(tokens, word, quote, character);
      }
    }
    if quote != Unquoted {
      return None;
    }
    tokens, word := PushWordInto(tokens, word);
    r := Some(tokens);
  }

  method ReadInto(tokens: seq<Token>, word: Text, quote: Quote, c: char)
    returns (tokens': seq<Token>, word': Text, quote': Quote)
    ensures Scan(tokens', word', quote') == Read(Scan(tokens, word, quote), c)
  {
    tokens', word', quote' := tokens, word, quote;
    if quote == Single {
      if c == '\'' {
        quote' := Unquoted;
      } else {
        word' := word + [c];
      }
    } else if quote == Double {
      if c == '"' {
        quote' := Unquoted;
      } else {
        word' := word + [c];
      }
    } else if c == '\'' {
      quote' := Single;
    } else if c == '"' {
      quote' := Double;
    } else if IsBlank(c) {
      tokens', word' := PushWordInto(tokens, word);
    } else if IsSeparator(c) {
      tokens', word' := PushWordInto(tokens, word);
      if !EndsWithSeparator(tokens') {
        tokens' := tokens' + [Separator];
      }
    } else {
      word' := word + [c];
    }
  }

  method PushWordInto(tokens: seq<Token>, word: Text) returns (tokens': seq<Token>, word': Text)
    ensures forall quote :: Scan(tokens', word', quote) == PushWord(Scan(tokens, word, quote))
  {
    tokens', word' := tokens, word;
    if word != [] {
      tokens', word' := tokens + [Word(word)], [];
    }
  }

  // ----- the shape of token lists -------------------------------------------------------------------------

  /** No word is empty and no two separators are adjacent. */
  ghost predicate Tidy(tokens: seq<Token>) {
    && (forall i :: 0 <= i < |tokens| ==> tokens[i] != Word([]))
    && (forall i :: 0 <= i < |tokens| - 1 ==> tokens[i].Word? || tokens[i + 1].Word?)
  }

  lemma ReadKeepsTidy(s: Scan, c: char)
    requires Tidy(s.tokens)
    ensures Tidy(Read(s, c).tokens) && Tidy(PushWord(s).tokens)
  {
  }

  lemma {:induction false} ScanKeepsTidy(s: Scan, text: Text)
    requires Tidy(s.tokens)
    ensures Scanned(s, text).Some? ==> Tidy(Scanned(s, text).value.tokens)
    decreases |text|
  {
    hide Tidy, Read;
    if text != [] {
      if Escapes(s.quote, text[0]) {
        if |text| > 1 {
          ScanKeepsTidy(Push(s, text[1]), text[2..]);
        }
      } else {
        ReadKeepsTidy(s, text[0]);
        ScanKeepsTidy(Read(s, text[0]), text[1..]);
      }
    }
  }

  lemma TokenListsAreTidy(command: Text)
    ensures Tokens(command).Some? ==> Tidy(Tokens(command).value)
  {
    ScanKeepsTidy(START, command);
    var s := Scanned(START, command);
    if s.Some? {
      ReadKeepsTidy(s.value, ' ');
    }
  }

  // ----- scanning in parts --------------------------------------------------------------------------------

  lemma {:induction false} ScanContinues(s: Scan, a: Text, b: Text)
    requires Scanned(s, a).Some?
    ensures Scanned(s, a + b) == Scanned(Scanned(s, a).value, b)
    decreases |a|
  {
    hide Read;
    if a == [] {
      assert a + b == b;
    } else if Escapes(s.quote, a[0]) {
      assert (a + b)[1] == a[1] && (a + b)[2..] == a[2..] + b;
      ScanContinues(Push(s, a[1]), a[2..], b);
    } else {
      assert (a + b)[1..] == a[1..] + b;
      ScanContinues(Read(s, a[0]), a[1..], b);
    }
  }

  /** Tokens appended to earlier ones: two separators that meet become one. */
  function Glue(before: seq<Token>, tokens: seq<Token>): seq<Token> {
    if EndsWithSeparator(before) && tokens != [] && tokens[0] == Separator then before + tokens[1..] else before + tokens
  }

  lemma GlueWord(before: seq<Token>, tokens: seq<Token>, word: Text)
    ensures Glue(before, tokens) + [Word(word)] == Glue(before, tokens + [Word(word)])
  {
  }

  lemma GlueSeparator(before: seq<Token>, tokens: seq<Token>)
    ensures (if EndsWithSeparator(Glue(before, tokens)) then Glue(before, tokens) else Glue(before, tokens) + [Separator])
         == Glue(before, if EndsWithSeparator(tokens) then tokens else tokens + [Separator])
  {
    if tokens == [] {
      assert before + [] == before;
    } else if EndsWithSeparator(before) && tokens[0] == Separator && |tokens| == 1 {
      assert Glue(before, tokens) == before;
    }
  }

  function After(before: seq<Token>, s: Scan): Scan {
    s.(tokens := Glue(before, s.tokens))
  }

  lemma ReadAfter(before: seq<Token>, s: Scan, c: char)
    ensures Read(After(before, s), c) == After(before, Read(s, c))
    ensures PushWord(After(before, s)) == After(before, PushWord(s))
  {
    hide Glue;
    GlueWord(before, s.tokens, s.word);
    GlueSeparator(before, PushWord(s).tokens);
  }

  /** Scanning after earlier tokens gives the same tokens after them. */
  lemma {:induction false} ScanAfter(before: seq<Token>, s: Scan, text: Text)
    ensures Scanned(After(before, s), text)
         == (if Scanned(s, text).None? then None else Some(After(before, Scanned(s, text).value)))
    decreases |text|
  {
    hide Read, Glue;
    if text != [] {
      if Escapes(s.quote, text[0]) {
        if |text| > 1 {
          ScanAfter(before, Push(s, text[1]), text[2..]);
        }
      } else {
        ReadAfter(before, s, text[0]);
        ScanAfter(before, Read(s, text[0]), text[1..]);
      }
    }
  }

  /** A token list with a separator at its end. */
  function Closed(tokens: seq<Token>): seq<Token> {
    if EndsWithSeparator(tokens) then tokens else tokens + [Separator]
  }

  /** The tokens of two commands with a separator character between them. */
  lemma TokensOfJoined(a: Text, c: char, b: Text)
    requires c in ['\n', ';', '|', '&', '(', ')'] && Tokens(a).Some? && Tokens(b).Some?
    ensures Tokens(a + [c] + b) == Some(Glue(Closed(Tokens(a).value), Tokens(b).value))
  {
    var joined := Closed(Tokens(a).value);
    var s := Scanned(START, a).value;
    ScanContinues(START, a, [c] + b);
    assert a + [c] + b == a + ([c] + b);
    assert ([c] + b)[1..] == b;
    assert !Escapes(Unquoted, c);
    assert Read(s, c) == PushSeparator(s) == Scan(joined, [], Unquoted);
    assert Glue(joined, []) == joined;
    assert After(joined, START) == Scan(joined, [], Unquoted);
    ScanAfter(joined, START, b);
    ReadAfter(joined, Scanned(START, b).value, ' ');
  }

  /** A blank between two commands puts their tokens one after the other. */
  lemma BlankSeparates(a: Text, c: char, b: Text)
    requires c == ' ' || c == '\t' || c == '\r'
    requires Tokens(a).Some? && Tokens(b).Some?
    ensures Tokens(a + [c] + b) == Some(Glue(Tokens(a).value, Tokens(b).value))
  {
    var before := Tokens(a).value;
    var s := Scanned(START, a).value;
    ScanContinues(START, a, [c] + b);
    assert a + [c] + b == a + ([c] + b);
    assert ([c] + b)[1..] == b;
    assert Read(s, c) == PushWord(s) == Scan(before, [], Unquoted);
    assert Glue(before, []) == before by {
      assert before + [] == before;
    }
    assert After(before, START) == Scan(before, [], Unquoted);
    ScanAfter(before, START, b);
    ReadAfter(before, Scanned(START, b).value, ' ');
  }

  /** A backslash at the end escapes nothing, so there are no tokens. */
  lemma OpenEscapeHasNoTokens(a: Text)
    requires Tokens(a).Some?
    ensures Tokens(a + ['\\']) == None
  {
    ScanContinues(START, a, ['\\']);
  }

  lemma {:induction false} StaysInside(s: Scan, text: Text)
    requires s.quote != Unquoted && (if s.quote == Single then '\'' !in text else '"' !in text)
    ensures Scanned(s, text).Some? ==> Scanned(s, text).value.quote == s.quote
    decreases |text|
  {
    if text != [] {
      assert text[0] in text;
      if Escapes(s.quote, text[0]) {
        if |text| > 1 {
          StaysInside(Push(s, text[1]), text[2..]);
        }
      } else {
        StaysInside(Read(s, text[0]), text[1..]);
      }
    }
  }

  /** A quote that is not closed leaves no tokens. */
  lemma OpenQuoteHasNoTokens(a: Text, q: char, b: Text)
    requires Tokens(a).Some? && (q == '\'' || q == '"') && q !in b
    ensures Tokens(a + [q] + b) == None
  {
    var s := Scanned(START, a).value;
    ScanContinues(START, a, [q] + b);
    assert a + [q] + b == a + ([q] + b);
    assert ([q] + b)[1..] == b;
    StaysInside(Read(s, q), b);
  }

  // ----- quoting ------------------------------------------------------------------------------------------

  /** Inside single quotes everything stands for itself; a quote closes, stands escaped, and opens again. */
  function QuoteBody(word: Text): Text {
    if word == [] then []
    else (if word[0] == '\'' then ['\'', '\\', '\'', '\''] else [word[0]]) + QuoteBody(word[1..])
  }

  function SingleQuoted(word: Text): Text {
    ['\''] + QuoteBody(word) + ['\'']
  }

  lemma QuotedCharacter(s: Scan, c: char, rest: Text)
    requires s.quote == Single
    ensures Scanned(s, (if c == '\'' then ['\'', '\\', '\'', '\''] else [c]) + rest) == Scanned(Push(s, c), rest)
  {
    if c == '\'' {
      var text := ['\'', '\\', '\'', '\''] + rest;
      assert text[1..] == ['\\', '\'', '\''] + rest;
      var open := s.(quote := Unquoted);
      assert Scanned(s, text) == Scanned(open, text[1..]);
      assert text[1..][2..] == ['\''] + rest;
      assert Scanned(open, text[1..]) == Scanned(Push(open, '\''), ['\''] + rest);
      assert (['\''] + rest)[1..] == rest;
    } else {
      assert ([c] + rest)[1..] == rest;
    }
  }

  lemma {:induction false} QuotedBody(s: Scan, word: Text, rest: Text)
    requires s.quote == Single
    ensures Scanned(s, QuoteBody(word) + rest) == Scanned(s.(word := s.word + word), rest)
    decreases |word|
  {
    if word == [] {
      assert QuoteBody(word) + rest == rest && s.word + word == s.word;
    } else {
      var more := QuoteBody(word[1..]) + rest;
      QuotedCharacter(s, word[0], more);
      assert QuoteBody(word) + rest == (if word[0] == '\'' then ['\'', '\\', '\'', '\''] else [word[0]]) + more;
      QuotedBody(Push(s, word[0]), word[1..], rest);
      assert s.word + word == (s.word + [word[0]]) + word[1..];
    }
  }

  function Words(words: seq<Text>): (r: seq<Token>)
    ensures |r| == |words| && forall i :: 0 <= i < |words| ==> r[i] == Word(words[i])
  {
    if words == [] then [] else [Word(words[0])] + Words(words[1..])
  }

  /** Wherever a word is being read outside quotes, the text adds these characters to it. */
  ghost predicate Spells(text: Text, word: Text) {
    forall tokens, w :: Scanned(Scan(tokens, w, Unquoted), text) == Some(Scan(tokens, w + word, Unquoted))
  }

  lemma {:induction false} PlainSpells(text: Text)
    requires forall c :: c in text ==> c !in [' ', '\t', '\r', '\n', ';', '|', '&', '(', ')', '\'', '"', '\\']
    ensures Spells(text, text)
  {
    if text != [] {
      PlainSpells(text[1..]);
      assert text[0] in text;
      forall tokens, w ensures Scanned(Scan(tokens, w, Unquoted), text) == Some(Scan(tokens, w + text, Unquoted)) {
        assert (w + [text[0]]) + text[1..] == w + text;
        assert Scanned(Scan(tokens, w, Unquoted), text) == Scanned(Scan(tokens, w + [text[0]], Unquoted), text[1..]);
      }
    } else {
      forall w: Text ensures w + text == w {
      }
    }
  }

  /** Outside quotes a backslash makes any character stand for itself. */
  lemma EscapeSpells(c: char)
    ensures Spells(['\\', c], [c])
  {
    forall tokens, w ensures Scanned(Scan(tokens, w, Unquoted), ['\\', c]) == Some(Scan(tokens, w + [c], Unquoted)) {
      assert ['\\', c][2..] == [];
    }
  }

  lemma SingleQuotedSpells(word: Text)
    ensures Spells(SingleQuoted(word), word)
  {
    forall tokens, w ensures Scanned(Scan(tokens, w, Unquoted), SingleQuoted(word)) == Some(Scan(tokens, w + word, Unquoted)) {
      var text := SingleQuoted(word);
      assert text[1..] == QuoteBody(word) + ['\''];
      QuotedBody(Scan(tokens, w, Single), word, ['\'']);
    }
  }

  /** Inside double quotes only the quote and the backslash need a backslash before them. */
  function DoubleBody(word: Text): Text {
    if word == [] then []
    else (if word[0] == '"' || word[0] == '\\' then ['\\', word[0]] else [word[0]]) + DoubleBody(word[1..])
  }

  lemma DoubleCharacter(s: Scan, c: char, rest: Text)
    requires s.quote == Double
    ensures Scanned(s, (if c == '"' || c == '\\' then ['\\', c] else [c]) + rest) == Scanned(Push(s, c), rest)
  {
    if c == '"' || c == '\\' {
      assert (['\\', c] + rest)[2..] == rest;
    } else {
      assert ([c] + rest)[1..] == rest;
    }
  }

  lemma {:induction false} DoubleBodyReads(s: Scan, word: Text, rest: Text)
    requires s.quote == Double
    ensures Scanned(s, DoubleBody(word) + rest) == Scanned(s.(word := s.word + word), rest)
    decreases |word|
  {
    hide Scanned;
    if word == [] {
      assert DoubleBody(word) + rest == rest && s.word + word == s.word;
    } else {
      var more := DoubleBody(word[1..]) + rest;
      DoubleCharacter(s, word[0], more);
      assert DoubleBody(word) + rest == (if word[0] == '"' || word[0] == '\\' then ['\\', word[0]] else [word[0]]) + more;
      DoubleBodyReads(Push(s, word[0]), word[1..], rest);
      assert s.word + word == (s.word + [word[0]]) + word[1..];
    }
  }

  lemma DoubleQuotedSpells(word: Text)
    ensures Spells(['"'] + DoubleBody(word) + ['"'], word)
  {
    var text := ['"'] + DoubleBody(word) + ['"'];
    forall tokens, w ensures Scanned(Scan(tokens, w, Unquoted), text) == Some(Scan(tokens, w + word, Unquoted)) {
      assert text[1..] == DoubleBody(word) + ['"'];
      DoubleBodyReads(Scan(tokens, w, Double), word, ['"']);
    }
  }

  /** Pieces written one after the other spell one word, however each is quoted. */
  lemma PiecesSpell(a: Text, first: Text, b: Text, second: Text)
    requires Spells(a, first) && Spells(b, second)
    ensures Spells(a + b, first + second)
  {
    forall tokens, w ensures Scanned(Scan(tokens, w, Unquoted), a + b) == Some(Scan(tokens, w + (first + second), Unquoted)) {
      ScanContinues(Scan(tokens, w, Unquoted), a, b);
      assert w + (first + second) == (w + first) + second;
    }
  }

  /** Each text spells its word, and no word is empty. */
  ghost predicate SpelledOut(texts: seq<Text>, words: seq<Text>) {
    |texts| == |words| && forall i :: 0 <= i < |words| ==> words[i] != [] && Spells(texts[i], words[i])
  }

  function Spaced(texts: seq<Text>): Text {
    if texts == [] then []
    else if |texts| == 1 then texts[0]
    else texts[0] + [' '] + Spaced(texts[1..])
  }

  /** The list is fully read and yields these tokens. */
  ghost predicate Yields(s: Scan, text: Text, tokens: seq<Token>) {
    var end := Scanned(s, text);
    end.Some? && end.value.quote == Unquoted && PushWord(end.value).tokens == tokens
  }

  lemma LastSpelledWord(tokens: seq<Token>, text: Text, word: Text)
    requires word != [] && Spells(text, word)
    ensures Yields(Scan(tokens, [], Unquoted), text, tokens + [Word(word)])
  {
    assert [] + word == word;
  }

  lemma NextSpelledWord(tokens: seq<Token>, text: Text, word: Text, rest: Text, all: seq<Token>)
    requires word != [] && Spells(text, word) && Yields(Scan(tokens + [Word(word)], [], Unquoted), rest, all)
    ensures Yields(Scan(tokens, [], Unquoted), text + [' '] + rest, all)
  {
    assert text + [' '] + rest == text + ([' '] + rest);
    assert [] + word == word;
    ScanContinues(Scan(tokens, [], Unquoted), text, [' '] + rest);
    assert ([' '] + rest)[1..] == rest;
    assert Read(Scan(tokens, word, Unquoted), ' ') == Scan(tokens + [Word(word)], [], Unquoted);
  }

  lemma {:induction false} SpelledWords(tokens: seq<Token>, texts: seq<Text>, words: seq<Text>)
    requires words != [] && SpelledOut(texts, words)
    ensures Yields(Scan(tokens, [], Unquoted), Spaced(texts), tokens + Words(words))
    decreases |words|
  {
    hide Spells, Yields;
    if |words| == 1 {
      LastSpelledWord(tokens, texts[0], words[0]);
      assert Words(words) == [Word(words[0])];
    } else {
      SpelledWords(tokens + [Word(words[0])], texts[1..], words[1..]);
      assert (tokens + [Word(words[0])]) + Words(words[1..]) == tokens + Words(words);
      NextSpelledWord(tokens, texts[0], words[0], Spaced(texts[1..]), tokens + Words(words));
    }
  }

  /** Non-empty words, each spelled in whatever way and joined with spaces, tokenise to those words. */
  lemma SpellingRoundTrip(texts: seq<Text>, words: seq<Text>)
    requires SpelledOut(texts, words)
    ensures Tokens(Spaced(texts)) == Some(Words(words))
  {
    hide Spells;
    if words == [] {
      assert Words(words) == [];
    } else {
      SpelledWords([], texts, words);
      assert [] + Words(words) == Words(words);
    }
  }

  /** Single-quoting non-empty words and joining them with spaces tokenises back to those words. */
  lemma QuotingRoundTrip(words: seq<Text>)
    requires forall i :: 0 <= i < |words| ==> words[i] != []
    ensures Tokens(Spaced(QuotedTexts(words))) == Some(Words(words))
  {
    var texts := QuotedTexts(words);
    forall i | 0 <= i < |words| ensures Spells(texts[i], words[i]) {
      SingleQuotedSpells(words[i]);
    }
    hide Spells;
    SpellingRoundTrip(texts, words);
  }

  function QuotedTexts(words: seq<Text>): (r: seq<Text>)
    ensures |r| == |words| && forall i :: 0 <= i < |words| ==> r[i] == SingleQuoted(words[i])
  {
    if words == [] then [] else [SingleQuoted(words[0])] + QuotedTexts(words[1..])
  }
}
