/** SQL text: the control plane's quoting functions
    (internal/api/project_database_runtime_helpers.go) against a lexer that follows the
    rules of sections 5.2 and 5.3 of ISO/IEC 9075-2, with PostgreSQL's dollar quotes. */
module SqlText {
  import opened Wrappers

  // Quoting

  /** strings.ReplaceAll of a quote character by two of them. */
  function Escape(v: string, q: char): string {
    if v == "" then "" else (if v[0] == q then [q, q] else [v[0]]) + Escape(v[1..], q)
  }

  function Quote(v: string, q: char): string { [q] + Escape(v, q) + [q] }

  function QuoteDatabaseIdentifier(v: string): string { Quote(v, '"') }

  function QuoteDatabaseLiteral(v: string): string { Quote(v, '\'') }

  // Lexing

  datatype Token = Word(text: string) | Ident(name: string) | Literal(value: string) | Dollar(body: string) | Symbol(c: char)

  predicate WordChar(c: char) {
    'a' <= c <= 'z' || 'A' <= c <= 'Z' || '0' <= c <= '9' || c == '_'
  }

  predicate Blank(c: char) { c == ' ' || c == '\n' || c == '\t' || c == '\r' }

  /** The text after an opening quote: the value up to the closing quote, and what follows it. */
  function ReadQuoted(s: string, q: char): (r: Option<(string, string)>)
    ensures r.Some? ==> |r.value.1| < |s|
  {
    if s == "" then None
    else if s[0] == q && |s| > 1 && s[1] == q then
      match ReadQuoted(s[2..], q)
      case None => None
      case Some((v, rest)) => Some(([q] + v, rest))
    else if s[0] == q then Some(("", s[1..]))
    else
      match ReadQuoted(s[1..], q)
      case None => None
      case Some((v, rest)) => Some(([s[0]] + v, rest))
  }

  /** The length of the run of word characters at the start. */
  function WordLength(s: string): (n: nat)
    ensures n <= |s|
  {
    if s != "" && WordChar(s[0]) then 1 + WordLength(s[1..]) else 0
  }

  predicate At(s: string, i: nat, t: string) {
    i + |t| <= |s| && s[i..i + |t|] == t
  }

  ghost predicate Contains(s: string, t: string) {
    exists i: nat :: At(s, i, t)
  }

  /** The first place where t occurs, or |s| when it does not. */
  function FirstIndex(s: string, t: string): (i: nat)
    requires t != ""
    ensures i <= |s|
    ensures i < |s| ==> At(s, i, t)
    ensures forall k: nat :: k < i ==> !At(s, k, t)
    decreases |s|
  {
    if s == "" then 0
    else if At(s, 0, t) then 0
    else
      AtTail(s, t);
      1 + FirstIndex(s[1..], t)
  }

  lemma AtTail(s: string, t: string)
    requires s != ""
    ensures forall k: nat {:trigger At(s, k, t)} :: k > 0 ==> (At(s, k, t) <==> At(s[1..], k - 1, t))
  {
    forall k: nat {:trigger At(s, k, t)} | k > 0 ensures At(s, k, t) <==> At(s[1..], k - 1, t) {
      if k + |t| <= |s| {
        var a, b := s[k..k + |t|], s[1..][k - 1..k - 1 + |t|];
        assert |a| == |b| && forall j :: 0 <= j < |a| ==> a[j] == b[j];
      }
    }
  }

  /** A dollar quote's delimiter at the start of the text: "$", a tag without dollars, "$". */
  function DelimiterLength(s: string): (n: nat)
    ensures n == 0 || 2 <= n <= |s|
  {
    if s == "" || s[0] != '$' then 0
    else var n := WordLength(s[1..]); if 1 + n < |s| && s[1 + n] == '$' then n + 2 else 0
  }

  /** The text after an opening delimiter: the body up to the closing one, and what follows it. */
  function ReadBody(s: string, d: string): (r: Option<(string, string)>)
    requires d != ""
    ensures r.Some? ==> |r.value.1| < |s|
  {
    var end := FirstIndex(s, d);
    if end == |s| then None else assert At(s, end, d); Some((s[..end], s[end + |d|..]))
  }

  /** The tokens of a text, or None when a quote is not closed. */
  function Lex(s: string): Option<seq<Token>>
    decreases |s|
  {
    if s == "" then Some([])
    else if Blank(s[0]) then Lex(s[1..])
    else if s[0] == '"' || s[0] == '\'' then
      (match ReadQuoted(s[1..], s[0])
       case None => None
       case Some((v, rest)) => Prepend(if s[0] == '"' then Ident(v) else Literal(v), Lex(rest)))
    else if WordChar(s[0]) then
      var n := WordLength(s); Prepend(Word(s[..n]), Lex(s[n..]))
    else if DelimiterLength(s) > 0 then
      var n := DelimiterLength(s);
      (match ReadBody(s[n..], s[..n])
       case None => None
       case Some((body, rest)) => Prepend(Dollar(body), Lex(rest)))
    else Prepend(Symbol(s[0]), Lex(s[1..]))
  }

  function Prepend(t: Token, ts: Option<seq<Token>>): Option<seq<Token>> {
    match ts
    case None => None
    case Some(rest) => Some([t] + rest)
  }

  // Quoting and lexing are inverse

  predicate NotStart(s: string, c: char) { s == "" || s[0] != c }

  lemma {:induction false} ReadEscaped(v: string, q: char, rest: string)
    ensures NotStart(rest, q) ==> ReadQuoted(Escape(v, q) + [q] + rest, q) == Some((v, rest))
    ensures !NotStart(rest, q) ==> ReadQuoted(Escape(v, q) + [q] + rest, q) != Some((v, rest))
  {
    var s := Escape(v, q) + [q] + rest;
    if v == "" {
      assert s == [q] + rest;
      if !NotStart(rest, q) { assert s[0] == q && s[1] == q; }
    } else {
      ReadEscaped(v[1..], q, rest);
      assert s[if v[0] == q then 2 else 1..] == Escape(v[1..], q) + [q] + rest;
      assert v == [v[0]] + v[1..];
    }
  }

  /** A quoted value is read back as exactly that value, and the reader stops at its end, if
      and only if the text that follows does not start with the same quote. */
  lemma QuoteRoundTrip(v: string, q: char, rest: string)
    ensures Quote(v, q) + rest == [q] + (Escape(v, q) + [q] + rest)
    ensures ReadQuoted((Quote(v, q) + rest)[1..], q) == Some((v, rest)) <==> NotStart(rest, q)
  {
    ReadEscaped(v, q, rest);
    assert Quote(v, q) + rest == [q] + (Escape(v, q) + [q] + rest);
  }

  // Text made of pieces

  /** A piece of SQL text: fixed text without quotes, a quoted identifier, a literal or a
      dollar-quoted body. */
  datatype Piece = P(text: string) | Q(name: string) | L(value: string) | D(tag: string, body: string)

  function Delimiter(tag: string): string { "$" + tag + "$" }

  function PieceText(p: Piece): string {
    match p
    case P(text) => text
    case Q(name) => QuoteDatabaseIdentifier(name)
    case L(value) => QuoteDatabaseLiteral(value)
    case D(tag, body) => Delimiter(tag) + body + Delimiter(tag)
  }

  function Render(ps: seq<Piece>): string {
    if ps == [] then "" else PieceText(ps[0]) + Render(ps[1..])
  }

  /** Text that no quote or dollar interrupts. */
  predicate Plain(s: string) { forall c :: c in s ==> c != '"' && c != '\'' && c != '$' }

  /** The tokens of fixed text are its own. */
  function TokensOf(p: Piece): seq<Token> {
    match p
    case P(text) => if Lex(text).Some? then Lex(text).value else []
    case Q(name) => [Ident(name)]
    case L(value) => [Literal(value)]
    case D(_, body) => [Dollar(body)]
  }

  /** The tokens that the pieces stand for. */
  function Tokens(ps: seq<Piece>): seq<Token> {
    if ps == [] then [] else TokensOf(ps[0]) + Tokens(ps[1..])
  }

  predicate AllWord(s: string) { forall i :: 0 <= i < |s| ==> WordChar(s[i]) }

  /** The body ends at the first delimiter after its start. */
  predicate EndsBody(tag: string, body: string) {
    FirstIndex(body + Delimiter(tag), Delimiter(tag)) == |body|
  }

  predicate EndsInWord(s: string) { s != "" && WordChar(s[|s| - 1]) }

  predicate PieceOk(p: Piece) {
    match p
    case P(text) => text != "" && Plain(text)
    case D(tag, body) => AllWord(tag) && EndsBody(tag, body)
    case _ => true
  }

  /** Pieces that could run together when written side by side. */
  predicate Clash(p: Piece, next: Piece) {
    (p.P? && next.P? && EndsInWord(p.text) && next.text != "" && WordChar(next.text[0])) || (p.Q? && next.Q?) || (p.L? && next.L?) || (p.P? && EndsInWord(p.text) && next.D?)
  }

  ghost predicate Fit(ps: seq<Piece>) {
    && (forall i :: 0 <= i < |ps| ==> PieceOk(ps[i]))
    && (forall i :: 0 <= i < |ps| - 1 ==> !Clash(ps[i], ps[i + 1]))
  }

  /** What may follow a piece. */
  predicate MayFollow(p: Piece, rest: string) {
    match p
    case P(text) => EndsInWord(text) && rest != "" ==> !WordChar(rest[0])
    case Q(_) => NotStart(rest, '"')
    case L(_) => NotStart(rest, '\'')
    case D(_, _) => true
  }

  function Append(ts: seq<Token>, more: Option<seq<Token>>): Option<seq<Token>> {
    match more
    case None => None
    case Some(rest) => Some(ts + rest)
  }

  lemma {:induction false} WordLengthOf(text: string, rest: string)
    requires AllWord(text) && (rest == "" || !WordChar(rest[0]))
    ensures WordLength(text + rest) == |text|
  {
    if text == "" {
      assert text + rest == rest;
    } else {
      WordLengthOf(text[1..], rest);
      assert (text + rest)[1..] == text[1..] + rest;
    }
  }

  lemma {:induction false} WordLengthWithin(s: string, rest: string)
    requires EndsInWord(s) && rest != "" ==> !WordChar(rest[0])
    ensures WordLength(s + rest) == WordLength(s) || s == ""
    decreases |s|
  {
    if s == "" { return; }
    assert (s + rest)[1..] == s[1..] + rest;
    if |s| == 1 {
      assert s[1..] + rest == rest;
    } else {
      WordLengthWithin(s[1..], rest);
    }
  }

  /** Fixed text keeps its own tokens whatever follows it, if no word runs on. */
  lemma {:induction false} LexPlain(s: string, rest: string)
    requires Plain(s) && MayFollow(P(s), rest)
    ensures Lex(s).Some? && Lex(s + rest) == Append(Lex(s).value, Lex(rest))
    decreases |s|
  {
    if s == "" {
      assert s + rest == rest;
      if Lex(rest).Some? { assert [] + Lex(rest).value == Lex(rest).value; }
      return;
    }
    hide Lex, WordLength;
    var n := if WordChar(s[0]) then WordLength(s) else 1;
    var tail := s[n..];
    HeadLength(s, rest);
    CutAt(s, rest, n);
    PlainTail(s, n, rest);
    LexPlain(tail, rest);
    PlainStep(s);
    PlainStep(s + rest);
    AppendStep(if WordChar(s[0]) then Word(s[..n]) else Symbol(s[0]), Lex(tail).value, Lex(rest));
  }

  lemma HeadLength(s: string, rest: string)
    requires s != "" && MayFollow(P(s), rest)
    ensures WordLength(s) <= |s| && (WordChar(s[0]) ==> WordLength(s) > 0 && WordLength(s + rest) == WordLength(s))
  {
    WordLengthWithin(s, rest);
  }

  lemma CutAt(s: string, rest: string, n: nat)
    requires n <= |s|
    ensures (s + rest)[n..] == s[n..] + rest && (s + rest)[..n] == s[..n]
  {}

  lemma PlainTail(s: string, n: nat, rest: string)
    requires Plain(s) && MayFollow(P(s), rest) && n <= |s| && s != ""
    ensures Plain(s[n..]) && MayFollow(P(s[n..]), rest)
    ensures s[0] != '"' && s[0] != '\'' && s[0] != '$' && (s + rest)[0] == s[0]
  {
    assert s[0] in s && forall c :: c in s[n..] ==> c in s;
  }

  lemma PlainStep(s: string)
    requires s != "" && s[0] != '"' && s[0] != '\'' && s[0] != '$'
    ensures Lex(s) == if Blank(s[0]) then Lex(s[1..])
                      else if WordChar(s[0]) then Prepend(Word(s[..WordLength(s)]), Lex(s[WordLength(s)..]))
                      else Prepend(Symbol(s[0]), Lex(s[1..]))
  {}

  lemma AppendStep(t: Token, ts: seq<Token>, more: Option<seq<Token>>)
    ensures Append([t] + ts, more) == Prepend(t, Append(ts, more))
  {
    if more.Some? { assert [t] + ts + more.value == [t] + (ts + more.value); }
  }

  lemma LexQuoted(v: string, q: char, rest: string)
    requires (q == '"' || q == '\'') && NotStart(rest, q)
    ensures Lex(Quote(v, q) + rest) == Prepend(if q == '"' then Ident(v) else Literal(v), Lex(rest))
  {
    QuoteRoundTrip(v, q, rest);
  }

  lemma AtConcat(s: string, more: string, i: nat, t: string)
    requires i + |t| <= |s|
    ensures At(s + more, i, t) <==> At(s, i, t)
  {
    assert (s + more)[i..i + |t|] == s[i..i + |t|];
  }

  lemma FirstIndexConcat(s: string, more: string, t: string)
    requires t != "" && FirstIndex(s, t) < |s|
    ensures FirstIndex(s + more, t) == FirstIndex(s, t)
  {
    var i, j := FirstIndex(s, t), FirstIndex(s + more, t);
    AtConcat(s, more, i, t);
    if j < i { AtConcat(s, more, j, t); }
  }

  lemma ReadBodyOf(body: string, d: string, rest: string)
    requires d != "" && FirstIndex(body + d, d) == |body|
    ensures ReadBody(body + d + rest, d) == Some((body, rest))
  {
    FirstIndexConcat(body + d, rest, d);
    assert (body + d + rest)[..|body|] == body;
  }

  lemma OpensDollar(tag: string, after: string)
    requires AllWord(tag)
    ensures DelimiterLength(Delimiter(tag) + after) == |Delimiter(tag)|
  {
    var s := Delimiter(tag) + after;
    WordLengthOf(tag, "$" + after);
    assert s[1..] == tag + ("$" + after);
    assert s[1 + |tag|] == Delimiter(tag)[1 + |tag|];
  }

  lemma LexDollar(tag: string, body: string, rest: string)
    requires AllWord(tag) && EndsBody(tag, body)
    ensures Lex(PieceText(D(tag, body)) + rest) == Prepend(Dollar(body), Lex(rest))
  {
    var d, after := Delimiter(tag), body + Delimiter(tag) + rest;
    var s := d + after;
    assert PieceText(D(tag, body)) + rest == s;
    OpensDollar(tag, after);
    assert s[..|d|] == d && s[|d|..] == after && s[0] == '$';
    hide FirstIndex, ReadBody, DelimiterLength, Delimiter, EndsBody;
    BodyOf(tag, body, rest);
    LexOpens(s, d, after);
  }

  lemma BodyOf(tag: string, body: string, rest: string)
    requires AllWord(tag) && EndsBody(tag, body)
    ensures ReadBody(body + Delimiter(tag) + rest, Delimiter(tag)) == Some((body, rest))
  {
    ReadBodyOf(body, Delimiter(tag), rest);
  }

  lemma LexOpens(s: string, d: string, after: string)
    requires s != "" && s[0] == '$' && d != "" && DelimiterLength(s) == |d| <= |s| && s[..|d|] == d && s[|d|..] == after
    requires ReadBody(after, d).Some?
    ensures Lex(s) == Prepend(Dollar(ReadBody(after, d).value.0), Lex(ReadBody(after, d).value.1))
  {
    hide FirstIndex, ReadBody, DelimiterLength;
  }

  lemma LexPiece(p: Piece, rest: string)
    requires PieceOk(p) && MayFollow(p, rest)
    ensures Lex(PieceText(p) + rest) == Append(TokensOf(p), Lex(rest))
  {
    match p
    case P(text) => LexPlain(text, rest);
    case Q(name) => LexQuoted(name, '"', rest);
    case L(value) => LexQuoted(value, '\'', rest);
    case D(tag, body) => LexDollar(tag, body, rest);
  }

  lemma FollowedByRender(p: Piece, ps: seq<Piece>, after: string)
    requires PieceOk(p) && ps != [] && PieceOk(ps[0]) && !Clash(p, ps[0])
    ensures MayFollow(p, Render(ps) + after)
  {
    assert Render(ps)[0] == PieceText(ps[0])[0];
    if ps[0].P? { assert ps[0].text[0] in ps[0].text; }
  }

  lemma FitTail(ps: seq<Piece>)
    requires Fit(ps) && ps != []
    ensures Fit(ps[1..]) && PieceOk(ps[0])
    ensures ps[1..] != [] ==> PieceOk(ps[1]) && !Clash(ps[0], ps[1])
  {
    var rest := ps[1..];
    forall i | 0 <= i < |rest| - 1 ensures !Clash(rest[i], rest[i + 1]) { assert !Clash(ps[i + 1], ps[i + 1 + 1]); }
    assert rest != [] ==> !Clash(ps[0], ps[0 + 1]);
  }

  lemma AppendTwice(a: seq<Token>, b: seq<Token>, more: Option<seq<Token>>)
    ensures Append(a, Append(b, more)) == Append(a + b, more)
  {
    if more.Some? { assert a + (b + more.value) == (a + b) + more.value; }
  }

  lemma RenderUnfold(ps: seq<Piece>, after: string)
    requires ps != []
    ensures Render(ps) + after == PieceText(ps[0]) + (Render(ps[1..]) + after)
    ensures Tokens(ps) == TokensOf(ps[0]) + Tokens(ps[1..])
  {}

  lemma NoPieces(after: string)
    ensures Render([]) + after == after && Append(Tokens([]), Lex(after)) == Lex(after)
  {
    if Lex(after).Some? { assert [] + Lex(after).value == Lex(after).value; }
  }

  /** Fitting pieces keep their tokens whatever follows them, if the last one does not run on. */
  lemma {:induction false} LexFront(ps: seq<Piece>, after: string)
    requires Fit(ps) && (ps != [] ==> MayFollow(ps[|ps| - 1], after))
    ensures Lex(Render(ps) + after) == Append(Tokens(ps), Lex(after))
  {
    if ps == [] {
      NoPieces(after);
      return;
    }
    hide *;
    var p, rest := ps[0], ps[1..];
    FitTail(ps);
    RenderUnfold(ps, after);
    if rest == [] {
      NoPieces(after);
    } else {
      FollowedByRender(p, rest, after);
    }
    LexPiece(p, Render(rest) + after);
    LexFront(rest, after);
    AppendTwice(TokensOf(p), Tokens(rest), Lex(after));
  }

  /** Text made of fitting pieces lexes to exactly the tokens of the pieces. */
  lemma LexRender(ps: seq<Piece>)
    requires Fit(ps)
    ensures Lex(Render(ps)) == Some(Tokens(ps))
  {
    LexFront(ps, "");
    assert Render(ps) + "" == Render(ps) && Tokens(ps) + [] == Tokens(ps);
  }

  // Bodies that contain their delimiter

  /** A delimiter inside the body ends it early. */
  lemma BodyCutShort(tag: string, body: string, rest: string)
    requires !EndsBody(tag, body)
    ensures var r := ReadBody(body + Delimiter(tag) + rest, Delimiter(tag)); r.Some? && |r.value.0| < |body|
  {
    var d := Delimiter(tag);
    assert At(body + d, |body|, d);
    FirstIndexConcat(body + d, rest, d);
  }

  lemma LexEarly(tag: string, after: string)
    requires AllWord(tag) && ReadBody(after, Delimiter(tag)).Some?
    ensures var (early, rest) := ReadBody(after, Delimiter(tag)).value;
            Lex(Delimiter(tag) + after) == Prepend(Dollar(early), Lex(rest))
  {
    var d := Delimiter(tag);
    OpensDollar(tag, after);
    assert d != "" && d[0] == '$' && (d + after)[..|d|] == d && (d + after)[|d|..] == after && (d + after)[0] == '$';
    hide Lex, Delimiter, ReadBody;
    LexOpens(d + after, d, after);
  }

  lemma OtherToken(front: seq<Token>, a: Token, more: Option<seq<Token>>, b: Token, back: seq<Token>)
    requires a != b
    ensures Append(front, Prepend(a, more)) != Some(front + ([b] + back))
  {
    if more.Some? { assert (front + ([a] + more.value))[|front|] == a && (front + ([b] + back))[|front|] == b; }
  }

  lemma DollarText(tag: string, body: string, rest: string)
    ensures Delimiter(tag) != ""
    ensures PieceText(D(tag, body)) + rest == Delimiter(tag) + (body + Delimiter(tag) + rest)
  {}

  lemma Misread(front: seq<Piece>, tag: string, body: string, rest: string, back: seq<Token>)
    requires Fit(front) && (front != [] ==> MayFollow(front[|front| - 1], PieceText(D(tag, body)) + rest))
    requires AllWord(tag) && !EndsBody(tag, body)
    ensures Lex(Render(front) + (PieceText(D(tag, body)) + rest)) != Some(Tokens(front) + ([Dollar(body)] + back))
  {
    hide *;
    var d := Delimiter(tag);
    var after := body + d + rest;
    DollarText(tag, body, rest);
    LexFront(front, d + after);
    BodyCutShort(tag, body, rest);
    LexEarly(tag, after);
    var r := ReadBody(after, d).value;
    OtherToken(Tokens(front), Dollar(r.0), Lex(r.1), Dollar(body), back);
  }

  /** Pieces that would fit if every dollar-quoted body were free of its delimiter. */
  ghost predicate Joined(ps: seq<Piece>) {
    && (forall i :: 0 <= i < |ps| ==> if ps[i].D? then AllWord(ps[i].tag) else PieceOk(ps[i]))
    && (forall i :: 0 <= i < |ps| - 1 ==> !Clash(ps[i], ps[i + 1]))
  }

  ghost predicate BodiesEnd(ps: seq<Piece>) {
    forall i :: 0 <= i < |ps| && ps[i].D? ==> EndsBody(ps[i].tag, ps[i].body)
  }

  lemma FitIff(ps: seq<Piece>)
    ensures Fit(ps) <==> Joined(ps) && BodiesEnd(ps)
  {
    hide EndsBody, AllWord, Plain;
  }

  lemma JoinedConcat(a: seq<Piece>, b: seq<Piece>)
    requires Joined(a) && Joined(b)
    requires a != [] && b != [] ==> !Clash(a[|a| - 1], b[0])
    ensures Joined(a + b) && (BodiesEnd(a + b) <==> BodiesEnd(a) && BodiesEnd(b))
  {
    hide AllWord, PieceOk, Clash, BodiesEnd;
    BodiesConcat(a, b);
    var ps := a + b;
    forall i | 0 <= i < |ps| - 1 ensures !Clash(ps[i], ps[i + 1]) {
      if i < |a| - 1 { assert !Clash(a[i], a[i + 1]); }
      else if i >= |a| { assert !Clash(b[i - |a|], b[i - |a| + 1]); }
    }
  }

  lemma BodiesConcat(a: seq<Piece>, b: seq<Piece>)
    ensures BodiesEnd(a + b) <==> BodiesEnd(a) && BodiesEnd(b)
  {
    hide EndsBody;
    var ps := a + b;
    assert forall i :: 0 <= i < |a| ==> ps[i] == a[i];
    assert forall i :: 0 <= i < |b| ==> ps[|a| + i] == b[i];
  }

  lemma JoinedParts(a: seq<Piece>, p: Piece, b: seq<Piece>)
    requires Joined(a + [p] + b)
    ensures Joined(a) && (a != [] ==> !Clash(a[|a| - 1], p)) && (p.D? ==> AllWord(p.tag))
  {
    hide EndsBody, AllWord, PieceOk, Clash;
    var ps := a + [p] + b;
    assert forall i :: 0 <= i < |a| ==> ps[i] == a[i];
    assert ps[|a|] == p;
    forall i | 0 <= i < |a| - 1 ensures !Clash(a[i], a[i + 1]) { assert !Clash(ps[i], ps[i + 1]); }
    if a != [] { assert !Clash(ps[|a| - 1], ps[|a| - 1 + 1]); }
  }

  lemma DollarMayFollow(p: Piece, tag: string, body: string, rest: string)
    requires !Clash(p, D(tag, body))
    ensures MayFollow(p, PieceText(D(tag, body)) + rest)
  {}

  /** The first body that contains its delimiter. */
  lemma FirstCut(ps: seq<Piece>) returns (k: nat)
    requires !BodiesEnd(ps)
    ensures k < |ps| && ps[k].D? && !EndsBody(ps[k].tag, ps[k].body) && BodiesEnd(ps[..k])
  {
    hide EndsBody;
    k := 0;
    while !ps[k].D? || EndsBody(ps[k].tag, ps[k].body)
      invariant k < |ps| && BodiesEnd(ps[..k])
      invariant exists i :: k <= i < |ps| && ps[i].D? && !EndsBody(ps[i].tag, ps[i].body)
      decreases |ps| - k
    {
      assert ps[..k + 1] == ps[..k] + [ps[k]];
      k := k + 1;
    }
  }

  /** Text made of joined pieces lexes to exactly their tokens if and only if no dollar-quoted
      body contains its delimiter. */
  lemma LexRenderIff(ps: seq<Piece>)
    requires Joined(ps)
    ensures Lex(Render(ps)) == Some(Tokens(ps)) <==> BodiesEnd(ps)
  {
    hide *;
    FitIff(ps);
    if BodiesEnd(ps) {
      LexRender(ps);
    } else {
      var k := FirstCut(ps);
      var front, p, back := ps[..k], ps[k], ps[k + 1..];
      assert ps == front + [p] + back;
      JoinedParts(front, p, back);
      FitIff(front);
      ThreeParts(front, p, back);
      TokensOfDollar(p);
      if front != [] { DollarMayFollow(front[|front| - 1], p.tag, p.body, Render(back)); }
      Misread(front, p.tag, p.body, Render(back), Tokens(back));
    }
  }

  lemma TokensOfDollar(p: Piece)
    requires p.D?
    ensures TokensOf(p) == [Dollar(p.body)]
  {}

  /** One dollar-quoted body between fitting pieces. */
  lemma DollarIff(front: seq<Piece>, tag: string, body: string, back: seq<Piece>)
    requires Fit(front) && front != [] && front[|front| - 1].P? && !EndsInWord(front[|front| - 1].text)
    requires Fit(back) && AllWord(tag)
    ensures Lex(Render(front + [D(tag, body)] + back)) == Some(Tokens(front + [D(tag, body)] + back)) <==> EndsBody(tag, body)
  {
    hide EndsBody, AllWord, Fit, Lex, Render, Tokens, Joined;
    FitIff(front);
    FitIff(back);
    OneDollar(tag, body);
    JoinedConcat(front, [D(tag, body)]);
    JoinedConcat(front + [D(tag, body)], back);
    LexRenderIff(front + [D(tag, body)] + back);
  }

  lemma OneDollar(tag: string, body: string)
    requires AllWord(tag)
    ensures Joined([D(tag, body)]) && (BodiesEnd([D(tag, body)]) <==> EndsBody(tag, body))
  {
    hide EndsBody, AllWord;
    var ps := [D(tag, body)];
    assert ps[0].D? && ps[0].tag == tag && ps[0].body == body;
  }

  lemma ThreeParts(front: seq<Piece>, p: Piece, back: seq<Piece>)
    ensures Render(front + [p] + back) == Render(front) + (PieceText(p) + Render(back))
    ensures Tokens(front + [p] + back) == Tokens(front) + (TokensOf(p) + Tokens(back))
  {
    hide *;
    assert front + [p] + back == front + ([p] + back);
    RenderConcat(front, [p] + back);
    RenderCons(p, back);
  }

  lemma FitConcat(a: seq<Piece>, b: seq<Piece>)
    requires Fit(a) && Fit(b)
    requires a != [] && b != [] ==> !Clash(a[|a| - 1], b[0])
    ensures Fit(a + b)
  {
    var ps := a + b;
    forall i | 0 <= i < |ps| - 1 ensures !Clash(ps[i], ps[i + 1]) {
      if i < |a| - 1 { assert !Clash(a[i], a[i + 1]); }
      else if i >= |a| { assert !Clash(b[i - |a|], b[i - |a| + 1]); }
    }
  }

  predicate Fixed(s: string) { s != "" && Plain(s) }

  predicate Quoted(p: Piece) { p.Q? || p.L? }

  lemma FitOne(text: string)
    requires Fixed(text)
    ensures Fit([P(text)]) && Render([P(text)]) == text
  {
    assert Render([P(text)]) == text + Render([P(text)][1..]);
  }

  lemma FitPair(text: string, x: Piece)
    requires Fixed(text) && Quoted(x)
    ensures Fit([P(text), x]) && Render([P(text), x]) == text + PieceText(x)
  {
    assert [P(text), x][1..] == [x] && Render([x]) == PieceText(x) + Render([x][1..]);
  }

  /** Fixed text and a quoted value in front of pieces that start with fixed text. */
  lemma FitTwo(text: string, x: Piece, rest: seq<Piece>)
    requires Fixed(text) && Quoted(x)
    requires Fit(rest) && rest != [] && rest[0].P?
    ensures Fit([P(text), x] + rest)
    ensures Render([P(text), x] + rest) == text + (PieceText(x) + Render(rest))
  {
    assert Fit([P(text), x]);
    FitConcat([P(text), x], rest);
    assert ([P(text), x] + rest)[1..] == [x] + rest && ([x] + rest)[1..] == rest;
  }

  lemma OneQuoted(a: string, x: Piece, b: string)
    requires Fixed(a) && Fixed(b) && Quoted(x)
    ensures Fit([P(a), x, P(b)])
    ensures Render([P(a), x, P(b)]) == a + PieceText(x) + b
  {
    hide *;
    FitOne(b);
    FitTwo(a, x, [P(b)]);
    assert [P(a), x, P(b)] == [P(a), x] + [P(b)];
    Regroup3(a, PieceText(x), b);
  }

  lemma TwoQuoted(a: string, x: Piece, b: string, y: Piece, c: string)
    requires Fixed(a) && Fixed(b) && Fixed(c) && Quoted(x) && Quoted(y)
    ensures Fit([P(a), x, P(b), y, P(c)])
    ensures Render([P(a), x, P(b), y, P(c)]) == a + PieceText(x) + b + PieceText(y) + c
  {
    hide *;
    FitOne(c);
    FitTwo(b, y, [P(c)]);
    FitTwo(a, x, [P(b), y] + [P(c)]);
    assert [P(a), x, P(b), y, P(c)] == [P(a), x] + ([P(b), y] + [P(c)]);
    Regroup5(a, PieceText(x), b, PieceText(y), c);
  }

  lemma ThreeQuoted(a: string, x: Piece, b: string, y: Piece, c: string, z: Piece)
    requires Fixed(a) && Fixed(b) && Fixed(c) && Quoted(x) && Quoted(y) && Quoted(z)
    ensures Fit([P(a), x, P(b), y, P(c), z])
    ensures Render([P(a), x, P(b), y, P(c), z]) == a + PieceText(x) + b + (PieceText(y) + c + PieceText(z))
  {
    hide *;
    FitPair(c, z);
    FitTwo(b, y, [P(c), z]);
    FitTwo(a, x, [P(b), y] + [P(c), z]);
    assert [P(a), x, P(b), y, P(c), z] == [P(a), x] + ([P(b), y] + [P(c), z]);
    Regroup6(a, PieceText(x), b, PieceText(y), c, PieceText(z));
  }

  lemma PlainConcat(a: string, b: string)
    requires Plain(a) && Plain(b)
    ensures Plain(a + b)
  {}

  /** strconv.Itoa. */
  function Itoa(n: int): (s: string)
    ensures s != "" && Plain(s)
  {
    if n < 0 then "-" + Digits(-n) else Digits(n)
  }

  function Digits(n: nat): (s: string)
    ensures s != "" && Plain(s)
  {
    (if n < 10 then "" else Digits(n / 10)) + [(n % 10 + '0' as int) as char]
  }

  // Fixed texts and quoted values in turn

  function Weave(parts: seq<(string, Piece)>, last: string): seq<Piece> {
    if parts == [] then [P(last)] else [P(parts[0].0), parts[0].1] + Weave(parts[1..], last)
  }

  function WeaveText(parts: seq<(string, Piece)>, last: string): string {
    if parts == [] then last else parts[0].0 + (PieceText(parts[0].1) + WeaveText(parts[1..], last))
  }

  ghost predicate Weavable(parts: seq<(string, Piece)>, last: string) {
    Fixed(last) && forall i :: 0 <= i < |parts| ==> Fixed(parts[i].0) && Quoted(parts[i].1)
  }

  lemma WeaveStep(parts: seq<(string, Piece)>, last: string)
    requires Weavable(parts, last) && parts != []
    ensures Weavable(parts[1..], last) && Fixed(parts[0].0) && Quoted(parts[0].1)
    ensures Weave(parts, last) == [P(parts[0].0), parts[0].1] + Weave(parts[1..], last)
    ensures WeaveText(parts, last) == parts[0].0 + (PieceText(parts[0].1) + WeaveText(parts[1..], last))
  {}

  lemma WeaveNone(last: string)
    requires Weavable([], last)
    ensures Weave([], last) == [P(last)] && WeaveText([], last) == last && Fixed(last)
  {}

  lemma {:induction false} WeaveFits(parts: seq<(string, Piece)>, last: string)
    requires Weavable(parts, last)
    ensures var ps := Weave(parts, last);
            Fit(ps) && ps != [] && ps[0].P? && ps[|ps| - 1] == P(last) && Render(ps) == WeaveText(parts, last)
  {
    hide *;
    if parts == [] {
      WeaveNone(last);
      FitOne(last);
    } else {
      WeaveStep(parts, last);
      WeaveFits(parts[1..], last);
      FitTwo(parts[0].0, parts[0].1, Weave(parts[1..], last));
    }
  }

  lemma {:induction false} WeaveEnds(parts: seq<(string, Piece)>, last: string)
    requires last != ""
    ensures var s := WeaveText(parts, last); s != "" && s[|s| - 1] == last[|last| - 1]
  {
    if parts != [] {
      WeaveEnds(parts[1..], last);
      hide PieceText;
      LastOfThree(parts[0].0, PieceText(parts[0].1), WeaveText(parts[1..], last));
    }
  }

  lemma LastOfThree<T>(a: seq<T>, b: seq<T>, c: seq<T>)
    requires c != []
    ensures var s := a + (b + c); s != [] && s[|s| - 1] == c[|c| - 1]
  {}

  function ValueOf(p: Piece): string
    requires Quoted(p)
  {
    if p.Q? then p.name else p.value
  }

  /** A text with a dollar and without quotes occurs in woven text only inside a value. */
  lemma {:induction false} WeaveContains(parts: seq<(string, Piece)>, last: string, t: string)
    requires Weavable(parts, last) && '$' in t && '"' !in t && '\'' !in t
    ensures Contains(WeaveText(parts, last), t) <==> exists i :: 0 <= i < |parts| && Contains(ValueOf(parts[i].1), t)
  {
    if parts == [] {
      assert '$' !in last;
      NothingContains(last, '$', t);
      return;
    }
    hide Contains, WeaveText, PieceText, ValueOf;
    var text, x, rest := parts[0].0, parts[0].1, parts[1..];
    WeaveStep(parts, last);
    WeaveContains(rest, last, t);
    NoDollar(text);
    NothingContains(text, '$', t);
    QuotedContains(text, x, WeaveText(rest, last), t);
    assert forall i :: 0 <= i < |rest| ==> rest[i] == parts[i + 1];
    assert forall i :: 1 <= i < |parts| ==> parts[i] == rest[i - 1];
  }

  lemma NoDollar(text: string)
    requires Fixed(text)
    ensures '$' !in text
  {}

  lemma QuotedContains(a: string, x: Piece, b: string, t: string)
    requires Quoted(x) && t != "" && '"' !in t && '\'' !in t
    ensures Contains(a + (PieceText(x) + b), t) <==> Contains(a, t) || Contains(ValueOf(x), t) || Contains(b, t)
  {
    hide Contains, Quote;
    var q := if x.Q? then '"' else '\'';
    assert a + (Quote(ValueOf(x), q) + b) == a + Quote(ValueOf(x), q) + b;
    ContainsQuoted(a, ValueOf(x), q, b, t);
  }

  lemma Regroup3(a: string, b: string, c: string)
    ensures a + (b + c) == a + b + c
  {}

  lemma Regroup5(a: string, b: string, c: string, d: string, e: string)
    ensures a + (b + (c + (d + e))) == a + b + c + d + e
  {}

  lemma Regroup6(a: string, b: string, c: string, d: string, e: string, f: string)
    ensures a + (b + (c + (d + (e + f)))) == a + b + c + (d + e + f)
  {}

  lemma Associative<T>(a: seq<T>, b: seq<T>, c: seq<T>)
    ensures a + b + c == a + (b + c)
  {}

  lemma RenderNone(b: seq<Piece>)
    ensures Render([]) + Render(b) == Render(b) && Tokens([]) + Tokens(b) == Tokens(b)
  {
    EmptyRender();
    hide *;
  }

  lemma EmptyRender()
    ensures Render([]) == "" && Tokens([]) == []
  {
    hide PieceText, TokensOf;
  }

  lemma RenderCons(p: Piece, rest: seq<Piece>)
    ensures Render([p] + rest) == PieceText(p) + Render(rest)
    ensures Tokens([p] + rest) == TokensOf(p) + Tokens(rest)
  {
    assert ([p] + rest)[1..] == rest;
  }

  lemma {:induction false} RenderConcat(a: seq<Piece>, b: seq<Piece>)
    ensures Render(a + b) == Render(a) + Render(b)
    ensures Tokens(a + b) == Tokens(a) + Tokens(b)
  {
    hide *;
    if a == [] {
      assert a + b == b;
      RenderNone(b);
    } else {
      var p, rest := a[0], a[1..];
      assert a == [p] + rest && a + b == [p] + (rest + b);
      RenderConcat(rest, b);
      RenderCons(p, rest);
      RenderCons(p, rest + b);
      Associative(PieceText(p), Render(rest), Render(b));
      Associative(TokensOf(p), Tokens(rest), Tokens(b));
    }
  }

  // Where a delimiter can occur

  /** A character outside t cuts the occurrences of t in two. */
  lemma AtAround(a: string, c: char, b: string, t: string, i: nat)
    requires c !in t && t != ""
    ensures At(a + [c] + b, i, t) <==> At(a, i, t) || (i > |a| && At(b, i - |a| - 1, t))
  {
    var s := a + [c] + b;
    if i + |t| <= |a| {
      assert s[i..i + |t|] == a[i..i + |t|];
    } else if i <= |a| && i + |t| <= |s| {
      assert s[i..i + |t|][|a| - i] == c && t[|a| - i] in t;
    } else if i + |t| <= |s| {
      assert s[i..i + |t|] == b[i - |a| - 1..i - |a| - 1 + |t|];
    }
  }

  lemma ContainsAround(a: string, c: char, b: string, t: string)
    requires c !in t && t != ""
    ensures Contains(a + [c] + b, t) <==> Contains(a, t) || Contains(b, t)
  {
    if i: nat :| At(a + [c] + b, i, t) { AtAround(a, c, b, t, i); }
    if i: nat :| At(a, i, t) { AtAround(a, c, b, t, i); }
    if i: nat :| At(b, i, t) { AtAround(a, c, b, t, |a| + 1 + i); }
  }

  lemma NothingContains(s: string, c: char, t: string)
    requires c in t && c !in s
    ensures !Contains(s, t)
  {
    var k :| 0 <= k < |t| && t[k] == c;
    forall i: nat | i + |t| <= |s| ensures !At(s, i, t) {
      assert s[i..i + |t|][k] == s[i + k] && s[i + k] in s;
    }
  }

  /** Doubling quotes neither makes nor breaks an occurrence of a text without quotes. */
  lemma {:induction false} ContainsEscape(v: string, q: char, t: string)
    requires q !in t && t != ""
    ensures Contains(Escape(v, q), t) <==> Contains(v, t)
  {
    var n := FirstQuote(v, q);
    EscapeUpTo(v, q, n);
    if n < |v| {
      var a, b := v[..n], v[n + 1..];
      ContainsEscape(b, q, t);
      assert v == a + [q] + b;
      ContainsAround(a, q, b, t);
      assert Escape(v, q) == a + [q] + ("" + [q] + Escape(b, q));
      ContainsAround(a, q, "" + [q] + Escape(b, q), t);
      ContainsAround("", q, Escape(b, q), t);
      assert !Contains("", t);
    } else {
      assert Escape(v, q) == v[..n] == v;
    }
  }

  function FirstQuote(v: string, q: char): (n: nat)
    ensures n <= |v| && q !in v[..n] && (n < |v| ==> v[n] == q)
  {
    if v == "" || v[0] == q then 0
    else
      var n := 1 + FirstQuote(v[1..], q);
      assert v[..n] == [v[0]] + v[1..][..n - 1];
      n
  }

  lemma {:induction false} EscapeUpTo(v: string, q: char, n: nat)
    requires n <= |v| && q !in v[..n] && (n < |v| ==> v[n] == q)
    ensures Escape(v, q) == v[..n] + if n < |v| then [q, q] + Escape(v[n + 1..], q) else ""
  {
    if n > 0 {
      assert v[0] in v[..n] && forall c :: c in v[1..][..n - 1] ==> c in v[..n];
      EscapeUpTo(v[1..], q, n - 1);
      assert v[..n] == [v[0]] + v[1..][..n - 1];
    }
  }

  /** Quoted text between other texts. */
  lemma ContainsQuoted(a: string, v: string, q: char, b: string, t: string)
    requires q !in t && t != ""
    ensures Contains(a + Quote(v, q) + b, t) <==> Contains(a, t) || Contains(v, t) || Contains(b, t)
  {
    var e := Escape(v, q);
    assert a + Quote(v, q) + b == a + [q] + (e + [q] + b);
    ContainsAround(a, q, e + [q] + b, t);
    ContainsAround(e, q, b, t);
    ContainsEscape(v, q, t);
  }

  /** A body whose last character is not in the delimiter ends at the first delimiter exactly
      if it does not contain one. */
  lemma EndsBodyIff(tag: string, start: string, last: char)
    requires last !in Delimiter(tag)
    ensures EndsBody(tag, start + [last]) <==> !Contains(start, Delimiter(tag))
  {
    var t := Delimiter(tag);
    var s := start + [last] + t;
    var i := FirstIndex(s, t);
    AtAround(start, last, t, t, |start| + 1);
    assert At(t, 0, t) && At(s, |start| + 1, t);
    if i < |start| + 1 { AtAround(start, last, t, t, i); }
    if k: nat :| At(start, k, t) { AtAround(start, last, t, t, k); }
  }

  // Names that the store admits (internal/control/store.go)

  predicate LowerOrDigit(c: char) { 'a' <= c <= 'z' || '0' <= c <= '9' }

  predicate IdentifierPattern(s: string) {
    1 <= |s| <= 63 && !('0' <= s[0] <= '9') && forall c :: c in s ==> LowerOrDigit(c) || c == '_'
  }

  predicate RefPattern(s: string) {
    3 <= |s| <= 64 && forall c :: c in s ==> LowerOrDigit(c) || c == '-'
  }
}
