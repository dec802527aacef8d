/** Lexing SQL text word by word, from its end. */
module SqlWords {
  import opened SqlText
  import opened Wrappers

  function Words(texts: seq<string>): seq<Token> {
    seq(|texts|, i requires 0 <= i < |texts| => Word(texts[i]))
  }

  predicate Starts(ts: seq<Token>, texts: seq<string>) { Words(texts) <= ts }

  const END := Symbol(';')

  lemma StartsWith(texts: seq<string>, more: seq<Token>)
    ensures Starts(Words(texts) + more, texts) && (Words(texts) + more)[|texts|..] == more && |Words(texts)| == |texts|
  {}

  lemma OneLess<T>(a: seq<T>)
    ensures a + [] == a
  {}

  predicate Ends(rest: string) { rest == "" || !WordChar(rest[0]) }

  lemma WordIs(w: string, rest: string, ts: seq<Token>)
    requires w != "" && AllWord(w) && Ends(rest) && Lex(rest) == Some(ts)
    ensures Lex(w + rest) == Some([Word(w)] + ts)
  {
    hide Lex;
    WordLengthOf(w, rest);
    var s := w + rest;
    assert s[0] == w[0] && WordChar(w[0]) && s[..|w|] == w && s[|w|..] == rest;
    PlainStep(s);
  }

  lemma BlankIs(c: char, rest: string)
    requires Blank(c)
    ensures Lex([c] + rest) == Lex(rest)
  {
    assert ([c] + rest)[1..] == rest;
    PlainStep([c] + rest);
  }

  predicate SymbolChar(c: char) {
    c == ';' || c == '(' || c == ')' || c == ',' || c == '.' || c == ':' || c == '=' || c == '-'
  }

  lemma SymbolIs(c: char, rest: string, ts: seq<Token>)
    requires SymbolChar(c) && Lex(rest) == Some(ts)
    ensures Lex([c] + rest) == Some([Symbol(c)] + ts)
  {
    hide Lex;
    assert ([c] + rest)[1..] == rest && ([c] + rest)[0] == c;
    PlainStep([c] + rest);
  }

  /** A blank and a word. */
  lemma SpacedIs(w: string, rest: string, ts: seq<Token>)
    requires w != "" && AllWord(w) && Ends(rest) && Lex(rest) == Some(ts)
    ensures Lex(" " + w + rest) == Some([Word(w)] + ts)
  {
    hide Lex;
    WordIs(w, rest, ts);
    BlankIs(' ', w + rest);
    assert " " + w + rest == [' '] + (w + rest);
  }

  lemma NothingIs()
    ensures Lex("") == Some([]) && Lex(" ") == Some([]) && Lex("\n") == Some([])
  {
    BlankIs(' ', "");
    BlankIs('\n', "");
    assert [' '] + "" == " " && ['\n'] + "" == "\n";
  }

  lemma EndIs()
    ensures Lex(";\n") == Some([END])
  {
    hide Lex;
    NothingIs();
    SymbolIs(';', "\n", []);
    assert [';'] + "\n" == ";\n" && [END] + [] == [END];
  }

  /** Words, each after a blank. */
  function Led(words: seq<string>): string {
    if words == [] then "" else " " + words[0] + Led(words[1..])
  }

  ghost predicate AllWords(words: seq<string>) { forall w :: w in words ==> w != "" && AllWord(w) }

  lemma LedUnfold(words: seq<string>)
    requires AllWords(words) && words != []
    ensures words[0] != "" && AllWord(words[0]) && AllWords(words[1..])
    ensures Led(words) == " " + words[0] + Led(words[1..]) && Words(words) == [Word(words[0])] + Words(words[1..])
  {
    assert words[0] in words && forall w :: w in words[1..] ==> w in words;
  }

  lemma LedEnds(words: seq<string>, rest: string)
    requires Ends(rest)
    ensures Ends(Led(words) + rest)
  {
    if words != [] { assert (Led(words) + rest)[0] == ' '; }
  }

  lemma NoWords(rest: string, ts: seq<Token>)
    ensures Led([]) + rest == rest && Words([]) + ts == ts
  {}

  lemma {:induction false} LedIs(words: seq<string>, rest: string, ts: seq<Token>)
    requires AllWords(words) && Ends(rest) && Lex(rest) == Some(ts)
    ensures Lex(Led(words) + rest) == Some(Words(words) + ts)
    decreases |words|
  {
    hide *;
    if words == [] {
      NoWords(rest, ts);
      return;
    }
    LedUnfold(words);
    var w, more := words[0], words[1..];
    LedIs(more, rest, ts);
    LedEnds(more, rest);
    SpacedIs(w, Led(more) + rest, Words(more) + ts);
    assert Led(words) + rest == " " + w + (Led(more) + rest);
    assert Words(words) + ts == [Word(w)] + (Words(more) + ts);
  }

  /** Words with blanks around them. */
  lemma BetweenIs(words: seq<string>)
    requires AllWords(words)
    ensures Lex(Led(words) + " ") == Some(Words(words))
  {
    hide *;
    NothingIs();
    BlankEnds("");
    OneLess(Words(words));
    assert " " + "" == " ";
    LedIs(words, " ", []);
  }

  lemma BlankEnds(rest: string)
    ensures Ends(" " + rest)
  {}

  /** Words at the start of a statement. */
  lemma StartIsWords(first: string, words: seq<string>)
    requires first != "" && AllWord(first) && AllWords(words)
    ensures Lex(first + (Led(words) + " ")) == Some(Words([first] + words))
  {
    BetweenIs(words);
    BlankEnds("");
    LedEnds(words, " ");
    hide Lex, Led, AllWord, AllWords, Ends;
    WordIs(first, Led(words) + " ", Words(words));
    assert " " + "" == " " && [Word(first)] + Words(words) == Words([first] + words);
  }

  lemma LedOne(a: string)
    ensures Led([a]) == " " + a
  {
    assert [a][1..] == [];
  }

  lemma LedTwo(a: string, b: string)
    ensures Led([a, b]) == " " + a + (" " + b)
  {
    LedOne(b);
    assert [a, b][1..] == [b];
  }

  lemma LedThree(a: string, b: string, c: string)
    ensures Led([a, b, c]) == " " + a + (" " + b + (" " + c))
  {
    LedTwo(b, c);
    assert [a, b, c][1..] == [b, c];
  }

  lemma LedFive(a: string, b: string, c: string, d: string, e: string)
    ensures Led([a, b, c, d, e]) == " " + a + (" " + b + (" " + c + (" " + d + (" " + e))))
  {
    LedThree(c, d, e);
    assert [a, b, c, d, e][1..] == [b, c, d, e] && [b, c, d, e][1..] == [c, d, e];
    hide Led;
    LedStep(b, [c, d, e]);
    LedStep(a, [b, c, d, e]);
    assert [a] + [b, c, d, e] == [a, b, c, d, e] && [b] + [c, d, e] == [b, c, d, e];
  }

  lemma LedStep(a: string, words: seq<string>)
    ensures Led([a] + words) == " " + a + Led(words)
  {
    assert ([a] + words)[1..] == words;
  }
}
