/** The tokens of a `.proto` file. */
module ProtoLexer {

  /** A word, or one of the six punctuation marks the parser looks at. */
  datatype Token = LBrace | RBrace | Semi | Equals | LParen | RParen | Word(text: string)

  predicate WordChar(c: char) {
    'a' <= c <= 'z' || 'A' <= c <= 'Z' || '0' <= c <= '9' || c == '_' || c == '.'
  }

  predicate AllWordChars(s: string) {
    forall i :: 0 <= i < |s| ==> WordChar(s[i])
  }

  /** Any other character separates words and is dropped. */
  function Mark(c: char): seq<Token> {
    match c
    case '{' => [LBrace]
    case '}' => [RBrace]
    case ';' => [Semi]
    case '=' => [Equals]
    case '(' => [LParen]
    case ')' => [RParen]
    case _ => []
  }

  /** A line up to its comment. */
  function Code(line: string): string {
    if |line| >= 2 && line[0] == '/' && line[1] == '/' then ""
    else if line == "" then ""
    else [line[0]] + Code(line[1..])
  }

  function WordLength(s: string): (n: nat)
    ensures n <= |s| && AllWordChars(s[..n]) && (n < |s| ==> !WordChar(s[n]))
    ensures s != "" && WordChar(s[0]) ==> n > 0
  {
    if s == "" || !WordChar(s[0]) then 0
    else
      var n := 1 + WordLength(s[1..]);
      assert s[..n] == [s[0]] + s[1..][..n - 1];
      n
  }

  /** Longest words first, then marks: the tokens of one line of code. */
  function Lex(s: string): seq<Token> {
    if s == "" then []
    else if WordChar(s[0]) then [Word(s[..WordLength(s)])] + Lex(s[WordLength(s)..])
    else Mark(s[0]) + Lex(s[1..])
  }

  function LexAll(lines: seq<string>): seq<Token> {
    if lines == [] then [] else LexAll(lines[..|lines| - 1]) + Lex(Code(lines[|lines| - 1]))
  }

  lemma {:induction false} WordLengthOf(word: string, rest: string)
    requires AllWordChars(word) && (rest != "" ==> !WordChar(rest[0]))
    ensures WordLength(word + rest) == |word|
  {
    if word == "" {
      assert word + rest == rest;
    } else {
      assert (word + rest)[1..] == word[1..] + rest;
      WordLengthOf(word[1..], rest);
    }
  }

  /** A word ends where the next character is not part of one. */
  lemma LexWord(word: string, rest: string)
    requires word != "" && AllWordChars(word) && (rest != "" ==> !WordChar(rest[0]))
    ensures Lex(word + rest) == [Word(word)] + Lex(rest)
  {
    WordLengthOf(word, rest);
    assert (word + rest)[..|word|] == word && (word + rest)[|word|..] == rest;
  }

  lemma LexMark(c: char, rest: string)
    requires !WordChar(c)
    ensures Lex([c] + rest) == Mark(c) + Lex(rest)
  {
    assert ([c] + rest)[1..] == rest;
  }

  function Held(word: string): seq<Token> {
    if word == "" then [] else [Word(word)]
  }

  /** `tokens` are out, `word` is held back, `rest` is unread: together they make up `all`. */
  ghost predicate Midway(tokens: seq<Token>, word: string, rest: string, all: seq<Token>) {
    AllWordChars(word) && tokens + Lex(word + rest) == all
  }

  lemma MidwayWord(tokens: seq<Token>, word: string, c: char, rest: string, all: seq<Token>)
    requires Midway(tokens, word, [c] + rest, all) && WordChar(c)
    ensures Midway(tokens, word + [c], rest, all)
  {
    assert word + ([c] + rest) == (word + [c]) + rest;
  }

  lemma MidwayMark(tokens: seq<Token>, word: string, c: char, rest: string, all: seq<Token>)
    requires Midway(tokens, word, [c] + rest, all) && !WordChar(c)
    ensures Midway(tokens + Held(word) + Mark(c), "", rest, all)
  {
    LexMark(c, rest);
    assert "" + rest == rest;
    if word == "" {
      assert word + ([c] + rest) == [c] + rest;
    } else {
      LexWord(word, [c] + rest);
    }
  }

  lemma MidwayEnd(tokens: seq<Token>, word: string, all: seq<Token>)
    requires Midway(tokens, word, "", all)
    ensures tokens + Held(word) == all
  {
    assert word + "" == word;
    if word != "" {
      LexWord(word, "");
    }
  }

  /** One character on. */
  lemma MidwayStep(tokens: seq<Token>, word: string, code: string, i: nat, all: seq<Token>)
    requires i < |code| && Midway(tokens, word, code[i..], all)
    ensures if WordChar(code[i]) then Midway(tokens, word + [code[i]], code[i + 1..], all)
            else Midway(tokens + Held(word) + Mark(code[i]), "", code[i + 1..], all)
  {
    assert code[i..] == [code[i]] + code[i + 1..];
    if WordChar(code[i]) {
      MidwayWord(tokens, word, code[i], code[i + 1..], all);
    } else {
      MidwayMark(tokens, word, code[i], code[i + 1..], all);
    }
  }

  /** Character by character, with the word being built held back: the same tokens. */
  method TokenizeLine(code: string) returns (tokens: seq<Token>)
    ensures tokens == Lex(code)
  {
    tokens := [];
    var word := "";
    var i := 0;
    ghost var all := Lex(code);
    assert "" + code[0..] == code;
    while i < |code|
      invariant 0 <= i <= |code| && Midway(tokens, word, code[i..], all)
    {
      MidwayStep(tokens, word, code, i, all);
      var c := code[i];
      if WordChar(c) {
        word := word + [c];
      } else {
        tokens := tokens + Held(word);
        word := "";
        tokens := tokens + Mark(c);
      }
      i := i + 1;
    }
    assert code[i..] == "";
    MidwayEnd(tokens, word, all);
    tokens := tokens + Held(word);
  }

  method Tokenize(lines: seq<string>) returns (tokens: seq<Token>)
    ensures tokens == LexAll(lines)
  {
    tokens := [];
    for i := 0 to |lines|
      invariant tokens == LexAll(lines[..i])
    {
      assert lines[..i + 1][..i] == lines[..i];
      var more := TokenizeLine(Code(lines[i]));
      tokens := tokens + more;
    }
    assert lines[..|lines|] == lines;
  }

  // Printing.

  function Spelled(t: Token): string {
    match t
    case LBrace => "{"
    case RBrace => "}"
    case Semi => ";"
    case Equals => "="
    case LParen => "("
    case RParen => ")"
    case Word(text) => text
  }

  predicate Printable(t: Token) {
    t.Word? ==> t.text != "" && AllWordChars(t.text)
  }

  /** The tokens with a space after each. */
  function Render(tokens: seq<Token>): string {
    if tokens == [] then "" else Spelled(tokens[0]) + " " + Render(tokens[1..])
  }

  lemma PunctuationSpelled(t: Token)
    requires !t.Word?
    ensures |Spelled(t)| == 1 && !WordChar(Spelled(t)[0]) && Mark(Spelled(t)[0]) == [t]
  {
  }

  lemma LexSpelled(t: Token, rest: string)
    requires Printable(t)
    ensures Lex(Spelled(t) + ([' '] + rest)) == [t] + Lex(rest)
  {
    LexMark(' ', rest);
    if t.Word? {
      LexWord(t.text, [' '] + rest);
    } else {
      PunctuationSpelled(t);
      assert Spelled(t) == [Spelled(t)[0]];
      LexMark(Spelled(t)[0], [' '] + rest);
    }
  }

  lemma {:induction false} LexRender(tokens: seq<Token>)
    requires forall t :: t in tokens ==> Printable(t)
    ensures Lex(Render(tokens)) == tokens
  {
    if tokens != [] {
      LexRender(tokens[1..]);
      LexSpelled(tokens[0], Render(tokens[1..]));
      assert Render(tokens) == Spelled(tokens[0]) + ([' '] + Render(tokens[1..]));
    }
  }

  lemma {:induction false} NoComment(line: string)
    requires forall i :: 0 <= i < |line| ==> line[i] != '/'
    ensures Code(line) == line
  {
    if line != "" {
      NoComment(line[1..]);
    }
  }

  lemma {:induction false} RenderHasNoSlash(tokens: seq<Token>)
    requires forall t :: t in tokens ==> Printable(t)
    ensures forall i :: 0 <= i < |Render(tokens)| ==> Render(tokens)[i] != '/'
  {
    if tokens != [] {
      RenderHasNoSlash(tokens[1..]);
      assert Printable(tokens[0]);
      assert forall i :: 0 <= i < |Spelled(tokens[0])| ==> Spelled(tokens[0])[i] != '/';
    }
  }

  /** Printing tokens and reading them back gives the tokens. */
  lemma TokensRoundTrip(tokens: seq<Token>)
    requires forall t :: t in tokens ==> Printable(t)
    ensures LexAll([Render(tokens)]) == tokens
  {
    RenderHasNoSlash(tokens);
    NoComment(Render(tokens));
    LexRender(tokens);
    var lines := [Render(tokens)];
    assert lines[..0] == [] && LexAll(lines[..0]) == [];
  }
}
