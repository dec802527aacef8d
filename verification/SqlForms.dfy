/** Forms of SQL text: phrases that stand as they are, with places for names and literals between
    them. Reading what a form was filled with gives it back, however the phrases are laid out. */
module SqlForms {
  import opened SqlText
  import opened SqlWords
  import opened Wrappers

  /** A fixed token, or a place. */
  datatype Place = Fixed(token: Token) | AName | ALiteral

  predicate Open(p: Place) { p.AName? || p.ALiteral? }

  /** Phrases and places in turn. */
  datatype Form = Form(parts: seq<(string, Place)>, last: string)

  function Fixing(ts: seq<Token>): seq<Place> {
    seq(|ts|, i requires 0 <= i < |ts| => Fixed(ts[i]))
  }

  function Phrase(text: string): seq<Token> { if Lex(text).Some? then Lex(text).value else [] }

  function Laid(f: Form): seq<Place>
    decreases |f.parts|
  {
    if f.parts == [] then Fixing(Phrase(f.last))
    else Fixing(Phrase(f.parts[0].0)) + ([f.parts[0].1] + Laid(Form(f.parts[1..], f.last)))
  }

  // Reading

  /** The value in a token at a place; none if the token does not belong there. */
  function ValueAt(p: Place, t: Token): Option<string> {
    match p
    case Fixed(token) => if t == token then Some("") else None
    case AName => if t.Ident? then Some(t.name) else None
    case ALiteral => if t.Literal? then Some(t.value) else None
  }

  function Places(form: seq<Place>): nat {
    if form == [] then 0 else (if Open(form[0]) then 1 else 0) + Places(form[1..])
  }

  /** The values at the open places, and what follows the form. */
  function Match(form: seq<Place>, ts: seq<Token>): (r: Option<(seq<string>, seq<Token>)>)
    ensures r.Some? ==> |r.value.0| == Places(form) && |r.value.1| + |form| == |ts|
    decreases |form|
  {
    if form == [] then Some(([], ts))
    else if ts == [] || ValueAt(form[0], ts[0]).None? then None
    else match Match(form[1..], ts[1..])
      case None => None
      case Some((values, rest)) =>
        Some((if Open(form[0]) then [ValueAt(form[0], ts[0]).value] + values else values, rest))
  }

  // Filling in

  function TokenAt(p: Place, value: string): Token {
    match p
    case Fixed(token) => token
    case AName => Ident(value)
    case ALiteral => Literal(value)
  }

  function Fill(form: seq<Place>, values: seq<string>): seq<Token>
    requires |values| == Places(form)
    decreases |form|
  {
    if form == [] then []
    else if Open(form[0]) then [TokenAt(form[0], values[0])] + Fill(form[1..], values[1..])
    else [TokenAt(form[0], "")] + Fill(form[1..], values)
  }

  lemma FillStep(p: Place, form: seq<Place>, value: string, values: seq<string>)
    requires |values| == Places(form)
    ensures Places([p] + form) == (if Open(p) then 1 else 0) + Places(form)
    ensures Fill([p] + form, if Open(p) then [value] + values else values) == [TokenAt(p, value)] + Fill(form, values)
  {
    assert ([p] + form)[1..] == form;
    if Open(p) { assert ([value] + values)[1..] == values; }
  }

  lemma NothingFilled()
    ensures Places([]) == 0 && Fill([], []) == []
  {}

  lemma MatchStep(p: Place, form: seq<Place>, t: Token, ts: seq<Token>, values: seq<string>, rest: seq<Token>)
    requires ValueAt(p, t).Some? && Match(form, ts) == Some((values, rest))
    ensures Match([p] + form, [t] + ts) == Some((if Open(p) then [ValueAt(p, t).value] + values else values, rest))
  {
    assert ([p] + form)[1..] == form && ([t] + ts)[1..] == ts;
  }

  lemma MatchNothing(rest: seq<Token>)
    ensures Match([], rest) == Some(([], rest))
  {}

  lemma ValueOfToken(p: Place, value: string)
    ensures ValueAt(p, TokenAt(p, value)).Some? && (Open(p) ==> ValueAt(p, TokenAt(p, value)) == Some(value))
  {}

  lemma PlacesStep(p: Place, form: seq<Place>)
    ensures Places([p] + form) == (if Open(p) then 1 else 0) + Places(form)
  {
    assert ([p] + form)[1..] == form;
  }

  /** What fills a form is what is read at its places. */
  lemma {:induction false} FillRead(form: seq<Place>, values: seq<string>, rest: seq<Token>)
    requires |values| == Places(form)
    ensures Match(form, Fill(form, values) + rest) == Some((values, rest))
    decreases |form|
  {
    hide *;
    NothingFilled();
    if form == [] {
      MatchNothing(rest);
      assert values == [] && [] + rest == rest;
      return;
    }
    var p, later := form[0], form[1..];
    assert form == [p] + later;
    PlacesStep(p, later);
    var value := if Open(p) then values[0] else "";
    var others := if Open(p) then values[1..] else values;
    assert values == if Open(p) then [value] + others else others;
    FillRead(later, others, rest);
    FillStep(p, later, value, others);
    ValueOfToken(p, value);
    MatchStep(p, later, TokenAt(p, value), Fill(later, others) + rest, others, rest);
    assert Fill(form, values) + rest == [TokenAt(p, value)] + (Fill(later, others) + rest);
  }

  lemma {:induction false} FillConcat(a: seq<Place>, b: seq<Place>, values: seq<string>, more: seq<string>)
    requires |values| == Places(a) && |more| == Places(b)
    ensures Places(a + b) == Places(a) + Places(b)
    ensures Fill(a + b, values + more) == Fill(a, values) + Fill(b, more)
    decreases |a|
  {
    hide *;
    NothingFilled();
    if a == [] {
      assert a + b == b && values == [] && [] + more == more && [] + Fill(b, more) == Fill(b, more);
      return;
    }
    var p, later := a[0], a[1..];
    assert a == [p] + later && a + b == [p] + (later + b);
    PlacesStep(p, later);
    PlacesStep(p, later + b);
    var value := if Open(p) then values[0] else "";
    var others := if Open(p) then values[1..] else values;
    assert values == if Open(p) then [value] + others else others;
    FillConcat(later, b, others, more);
    FillStep(p, later, value, others);
    FillStep(p, later + b, value, others + more);
    assert values + more == if Open(p) then [value] + (others + more) else others + more;
    assert [TokenAt(p, value)] + (Fill(later, others) + Fill(b, more)) == ([TokenAt(p, value)] + Fill(later, others)) + Fill(b, more);
  }

  lemma FixingStep(t: Token, ts: seq<Token>)
    ensures Fixing([t] + ts) == [Fixed(t)] + Fixing(ts) && Fixing([]) == []
    ensures !Open(Fixed(t)) && TokenAt(Fixed(t), "") == t
  {}

  lemma {:induction false} FixingFills(ts: seq<Token>)
    ensures Places(Fixing(ts)) == 0 && Fill(Fixing(ts), []) == ts
    decreases |ts|
  {
    hide *;
    NothingFilled();
    if ts == [] {
      FixingStep(Symbol(';'), []);
      return;
    }
    var t, later := ts[0], ts[1..];
    assert ts == [t] + later;
    FixingFills(later);
    FixingStep(t, later);
    PlacesStep(Fixed(t), Fixing(later));
    FillStep(Fixed(t), Fixing(later), "", []);
  }

  // Forms with values

  predicate AllOpen(f: Form) { forall i :: 0 <= i < |f.parts| ==> Open(f.parts[i].1) }

  lemma LaidStep(f: Form)
    requires f.parts != []
    ensures Laid(f) == Fixing(Phrase(f.parts[0].0)) + ([f.parts[0].1] + Laid(Form(f.parts[1..], f.last)))
  {}

  lemma LaidLast(last: string)
    ensures Laid(Form([], last)) == Fixing(Phrase(last))
  {}

  /** The tokens of a form of open places, one value for each. */
  lemma {:induction false} FormPlaces(f: Form)
    requires AllOpen(f)
    ensures Places(Laid(f)) == |f.parts|
    decreases |f.parts|
  {
    if f.parts == [] {
      FixingFills(Phrase(f.last));
      LaidLast(f.last);
      return;
    }
    var later := Form(f.parts[1..], f.last);
    assert Open(f.parts[0].1);
    hide Places, Laid, Open, Phrase;
    FormPlaces(later);
    LaidStep(f);
    FixingFills(Phrase(f.parts[0].0));
    PlacesStep(f.parts[0].1, Laid(later));
    PlacesConcat(Fixing(Phrase(f.parts[0].0)), [f.parts[0].1] + Laid(later));
  }

  lemma {:induction false} PlacesConcat(a: seq<Place>, b: seq<Place>)
    ensures Places(a + b) == Places(a) + Places(b)
    decreases |a|
  {
    hide *;
    NothingFilled();
    if a == [] {
      assert a + b == b;
      return;
    }
    assert a == [a[0]] + a[1..] && a + b == [a[0]] + (a[1..] + b);
    PlacesConcat(a[1..], b);
    PlacesStep(a[0], a[1..]);
    PlacesStep(a[0], a[1..] + b);
  }

  /** The first phrase and the first value come first. */
  lemma FirstPart(f: Form, value: string, values: seq<string>)
    requires AllOpen(f) && f.parts != [] && |values| == |f.parts| - 1
    ensures AllOpen(Form(f.parts[1..], f.last))
    ensures Places(Laid(f)) == 1 + |values| && Places(Laid(Form(f.parts[1..], f.last))) == |values|
    ensures Fill(Laid(f), [value] + values)
            == Phrase(f.parts[0].0) + ([TokenAt(f.parts[0].1, value)] + Fill(Laid(Form(f.parts[1..], f.last)), values))
  {
    var ts, p, later := Phrase(f.parts[0].0), f.parts[0].1, Form(f.parts[1..], f.last);
    assert Open(p);
    FormPlaces(f);
    FormPlaces(later);
    LaidStep(f);
    hide Places, Laid, Open, Phrase, Fill, AllOpen;
    FixingFills(ts);
    FillStep(p, Laid(later), value, values);
    FillConcat(Fixing(ts), [p] + Laid(later), [], [value] + values);
    assert [] + ([value] + values) == [value] + values;
  }

  lemma LastPart(last: string)
    ensures Places(Laid(Form([], last))) == 0 && Fill(Laid(Form([], last)), []) == Phrase(last)
  {
    FixingFills(Phrase(last));
  }

  // Woven texts

  /** The piece belongs at the place. */
  predicate Suits(x: Piece, p: Place) { (p.AName? && x.Q?) || (p.ALiteral? && x.L?) }

  /** Phrase by phrase and value by value, the woven text follows the form. */
  ghost predicate Follows(parts: seq<(string, Piece)>, last: string, f: Form) {
    && |parts| == |f.parts| && Phrase(last) == Phrase(f.last)
    && forall i :: 0 <= i < |parts| ==> Phrase(parts[i].0) == Phrase(f.parts[i].0) && Suits(parts[i].1, f.parts[i].1)
  }

  function Values(parts: seq<(string, Piece)>): seq<string> {
    seq(|parts|, i requires 0 <= i < |parts| => if parts[i].1.Q? || parts[i].1.L? then ValueOf(parts[i].1) else "")
  }

  lemma FollowsStep(parts: seq<(string, Piece)>, last: string, f: Form)
    requires Follows(parts, last, f) && parts != []
    ensures Follows(parts[1..], last, Form(f.parts[1..], f.last))
    ensures Phrase(parts[0].0) == Phrase(f.parts[0].0) && Suits(parts[0].1, f.parts[0].1)
    ensures Weave(parts, last) == [P(parts[0].0), parts[0].1] + Weave(parts[1..], last)
    ensures Values(parts) == [ValueOf(parts[0].1)] + Values(parts[1..])
  {
    hide Phrase;
  }

  lemma FollowsOpen(parts: seq<(string, Piece)>, last: string, f: Form)
    requires Follows(parts, last, f)
    ensures AllOpen(f) && |Values(parts)| == |f.parts| == |parts|
  {
    hide Phrase;
    forall i | 0 <= i < |f.parts| ensures Open(f.parts[i].1) { assert Suits(parts[i].1, f.parts[i].1); }
  }

  lemma FollowsEnd(last: string, f: Form)
    requires Follows([], last, f)
    ensures f == Form([], f.last) && Tokens(Weave([], last)) == Phrase(f.last) && Values([]) == []
  {
    assert [P(last)][1..] == [];
    assert TokensOf(P(last)) + [] == Phrase(last);
  }

  lemma TwoTokens(text: string, x: Piece, p: Place, rest: seq<Piece>)
    requires Suits(x, p)
    ensures Tokens([P(text), x] + rest) == Phrase(text) + ([TokenAt(p, ValueOf(x))] + Tokens(rest))
  {
    assert TokensOf(x) == [TokenAt(p, ValueOf(x))] && TokensOf(P(text)) == Phrase(text);
    hide TokenAt, ValueOf, Suits, Phrase, TokensOf;
    assert [P(text), x] + rest == [P(text)] + ([x] + rest);
    RenderCons(P(text), [x] + rest);
    RenderCons(x, rest);
  }

  /** A text woven after a form lexes to the form filled with its values. */
  lemma {:induction false} WovenFills(parts: seq<(string, Piece)>, last: string, f: Form)
    requires Follows(parts, last, f)
    ensures |Values(parts)| == Places(Laid(f)) && Tokens(Weave(parts, last)) == Fill(Laid(f), Values(parts))
    decreases |parts|
  {
    FormPlacesOf(parts, last, f);
    hide *;
    if parts == [] {
      FollowsEnd(last, f);
      LastPart(f.last);
      return;
    }
    FollowsOpen(parts, last, f);
    FollowsStep(parts, last, f);
    WovenFills(parts[1..], last, Form(f.parts[1..], f.last));
    TwoTokens(parts[0].0, parts[0].1, f.parts[0].1, Weave(parts[1..], last));
    FollowsOpen(parts[1..], last, Form(f.parts[1..], f.last));
    FirstPart(f, ValueOf(parts[0].1), Values(parts[1..]));
  }

  lemma FormPlacesOf(parts: seq<(string, Piece)>, last: string, f: Form)
    requires Follows(parts, last, f)
    ensures |Values(parts)| == Places(Laid(f)) && |parts| == |f.parts|
  {
    hide Phrase, Laid, Places, Suits;
    FollowsOpen(parts, last, f);
    FormPlaces(f);
  }

  /** The last phrase comes last. */
  lemma {:induction false} FillEnd(f: Form, values: seq<string>) returns (front: seq<Token>)
    requires AllOpen(f) && |values| == |f.parts| == Places(Laid(f))
    ensures Fill(Laid(f), values) == front + Phrase(f.last)
    decreases |f.parts|
  {
    hide *;
    front := [];
    if f.parts == [] {
      LastPart(f.last);
      assert f == Form([], f.last) && values == [] && [] + Phrase(f.last) == Phrase(f.last);
      return;
    }
    assert values == [values[0]] + values[1..];
    FirstPart(f, values[0], values[1..]);
    front := FillEnd(Form(f.parts[1..], f.last), values[1..]);
    var start := Phrase(f.parts[0].0) + ([TokenAt(f.parts[0].1, values[0])] + front);
    assert start + Phrase(f.last) == Phrase(f.parts[0].0) + ([TokenAt(f.parts[0].1, values[0])] + (front + Phrase(f.last)));
    front := start;
  }

  // Phrases

  lemma PhraseLexes(text: string)
    requires Plain(text)
    ensures Lex(text) == Some(Phrase(text))
  {
    LexPlain(text, "");
  }

  lemma PhraseConcat(a: string, b: string)
    requires Plain(a) && Plain(b) && a != "" && Blank(a[|a| - 1])
    ensures Phrase(a + b) == Phrase(a) + Phrase(b)
  {
    PhraseLexes(b);
    hide Lex;
    LexPlain(a, b);
  }

  lemma PhraseWord(a: string, rest: string)
    requires a != "" && AllWord(a) && Ends(rest) && Plain(rest)
    ensures Phrase(a + rest) == [Word(a)] + Phrase(rest)
  {
    PhraseLexes(rest);
    hide Lex;
    WordIs(a, rest, Phrase(rest));
  }

  /** A phrase of two words and more. */
  lemma PhraseHead(a: string, b: string, rest: string)
    requires a != "" && AllWord(a) && b != "" && AllWord(b) && Ends(rest) && Plain(rest)
    ensures Phrase(a + (" " + b) + rest) == [Word(a), Word(b)] + Phrase(rest)
  {
    PhraseLexes(rest);
    hide Lex, AllWord;
    assert a + (" " + b) + rest == a + (" " + (b + rest));
    WordIs(b, rest, Phrase(rest));
    BlankIs(' ', b + rest);
    assert [' '] + (b + rest) == " " + (b + rest);
    WordIs(a, " " + (b + rest), [Word(b)] + Phrase(rest));
    assert [Word(a)] + ([Word(b)] + Phrase(rest)) == [Word(a), Word(b)] + Phrase(rest);
  }
}
