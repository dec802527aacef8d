/** Reading back what %q prints (internal/api/project_log_activity_handlers.go): the escape sequences
    of Go's interpreted string literals, as the Go specification gives them in "String literals" and
    "Rune literals". The text that the browser throws determines the server's error. */
module QuotedText {
  import opened ErrorText
  import opened Wrappers
  import opened LogServer
  import opened EventStream
  import opened LogDelivery

  // The reader

  function HexDigit(c: char): (v: int)
    ensures -1 <= v < 16
  {
    if '0' <= c <= '9' then c as int - '0' as int
    else if 'a' <= c <= 'f' then c as int - 'a' as int + 10
    else -1
  }

  predicate HexDigits(s: string) { forall c :: c in s ==> HexDigit(c) >= 0 }

  function HexValue(s: string): nat
    requires HexDigits(s)
  {
    if s == "" then 0
    else
      assert HexDigit(s[|s| - 1]) >= 0 && forall c :: c in s[..|s| - 1] ==> c in s;
      16 * HexValue(s[..|s| - 1]) + HexDigit(s[|s| - 1])
  }

  /** A code point that a character can have. */
  predicate Scalar(n: int) { 0 <= n < 0xD800 || 0xE000 <= n < 0x11_0000 }

  function Numbered(digits: string): Option<char> {
    if HexDigits(digits) && Scalar(HexValue(digits)) then Some(HexValue(digits) as char) else None
  }

  /** What the character after a backslash stands for, if it stands alone. */
  function Named(c: char): Option<char> {
    if c == 'a' then Some(7 as char)
    else if c == 'b' then Some(8 as char)
    else if c == 't' then Some('\t')
    else if c == 'n' then Some('\n')
    else if c == 'v' then Some(11 as char)
    else if c == 'f' then Some(12 as char)
    else if c == 'r' then Some('\r')
    else if c == '\\' || c == '"' then Some(c)
    else None
  }

  /** How many digits follow it, if it does not. */
  function Width(c: char): nat {
    if c == 'x' then 2 else if c == 'u' then 4 else if c == 'U' then 8 else 0
  }

  /** The first character of a literal, and what is left. */
  function ReadChar(s: string): Option<(char, string)>
    requires s != ""
  {
    if s[0] == '"' || s[0] == '\n' then None
    else if s[0] != '\\' then Some((s[0], s[1..]))
    else if |s| == 1 then None
    else if Named(s[1]).Some? then Some((Named(s[1]).value, s[2..]))
    else
      var n := Width(s[1]);
      if n == 0 || |s| < 2 + n || Numbered(s[2..2 + n]).None? then None
      else Some((Numbered(s[2..2 + n]).value, s[2 + n..]))
  }

  function Unescape(s: string): Option<string>
    decreases |s|
  {
    if s == "" then Some("")
    else match ReadChar(s)
      case None => None
      case Some((c, rest)) =>
        if |rest| >= |s| then None
        else match Unescape(rest)
          case None => None
          case Some(more) => Some([c] + more)
  }

  // Reading what was printed

  lemma HexDigitBack(n: nat)
    requires n < 16
    ensures HexDigit(HEX[n]) == n
  {
    assert forall k :: 0 <= k < 10 ==> HEX[k] as int == '0' as int + k;
    assert forall k :: 10 <= k < 16 ==> HEX[k] as int == 'a' as int + k - 10;
  }

  function Power(width: nat): nat { if width == 0 then 1 else 16 * Power(width - 1) }

  lemma HexValueStep(init: string, c: char)
    requires HexDigits(init) && HexDigit(c) >= 0
    ensures HexDigits(init + [c]) && HexValue(init + [c]) == 16 * HexValue(init) + HexDigit(c)
  {
    var all := init + [c];
    assert all[..|all| - 1] == init && all[|all| - 1] == c;
  }

  lemma NoHex()
    ensures HexDigits("") && HexValue("") == 0
  {}

  lemma HexStep(n: nat, width: nat)
    requires width > 0 && HexDigits(Hex(n / 16, width - 1))
    ensures HexDigits(Hex(n, width)) && HexValue(Hex(n, width)) == 16 * HexValue(Hex(n / 16, width - 1)) + n % 16
  {
    hide HexValue, HexDigit;
    HexDigitBack(n % 16);
    HexValueStep(Hex(n / 16, width - 1), HEX[n % 16]);
  }

  lemma PowerStep(width: nat)
    requires width > 0
    ensures Power(width) == 16 * Power(width - 1)
  {}

  lemma HexNothing(n: nat)
    ensures Hex(n, 0) == "" && Power(0) == 1
  {}

  lemma Smaller(n: nat, power: nat)
    requires n < 16 * power
    ensures n / 16 < power
  {}

  lemma {:induction false} HexBack(n: nat, width: nat)
    requires n < Power(width)
    ensures HexDigits(Hex(n, width)) && HexValue(Hex(n, width)) == n && |Hex(n, width)| == width
  {
    hide *;
    if width == 0 {
      HexNothing(n);
      NoHex();
      return;
    }
    PowerStep(width);
    Smaller(n, Power(width - 1));
    HexBack(n / 16, width - 1);
    HexStep(n, width);
  }

  lemma Powers()
    ensures Power(2) == 0x100 && Power(4) == 0x1_0000 && Power(8) == 0x1_0000_0000
  {
    assert Power(1) == 16;
    assert Power(3) == 16 * Power(2);
    assert Power(5) == 16 * Power(4);
    assert Power(6) == 16 * Power(5);
    assert Power(7) == 16 * Power(6);
  }

  lemma ReadNumber(c: char, letter: char, width: nat, rest: string)
    requires Width(letter) == width && width > 0 && c as int < Power(width) && Named(letter).None?
    ensures ReadChar(['\\', letter] + Hex(c as int, width) + rest) == Some((c, rest))
  {
    hide Hex, HexValue, HexDigits, Power;
    HexBack(c as int, width);
    var s := ['\\', letter] + Hex(c as int, width) + rest;
    assert s[0] == '\\' && s[1] == letter && s[2..2 + width] == Hex(c as int, width) && s[2 + width..] == rest;
    assert HexValue(Hex(c as int, width)) as char == c;
  }

  lemma ReadName(c: char, letter: char, rest: string)
    requires Named(letter) == Some(c)
    ensures ReadChar(['\\', letter] + rest) == Some((c, rest))
  {
    var s := ['\\', letter] + rest;
    assert s[0] == '\\' && s[1] == letter && s[2..] == rest;
  }

  lemma ReadEscape(c: char, rest: string)
    ensures ReadChar(Escape(c) + rest) == Some((c, rest)) && Escape(c) != ""
  {
    var n := c as int;
    Powers();
    hide ReadChar, Hex, Power;
    if c == '"' { ReadName(c, '"', rest); }
    else if c == '\\' { ReadName(c, '\\', rest); }
    else if n == 7 { ReadName(c, 'a', rest); }
    else if n == 8 { ReadName(c, 'b', rest); }
    else if n == 9 { ReadName(c, 't', rest); }
    else if n == 10 { ReadName(c, 'n', rest); }
    else if n == 11 { ReadName(c, 'v', rest); }
    else if n == 12 { ReadName(c, 'f', rest); }
    else if n == 13 { ReadName(c, 'r', rest); }
    else if n < 32 || n == 0x7F { ReadNumber(c, 'x', 2, rest); }
    else if n < 0x10000 { ReadNumber(c, 'u', 4, rest); }
    else { ReadNumber(c, 'U', 8, rest); }
  }

  lemma ReadKept(printable: Printable, c: char, rest: string)
    requires Kept(printable, c)
    ensures ReadChar([c] + rest) == Some((c, rest))
  {
    assert ([c] + rest)[1..] == rest;
  }

  lemma EscapedStep(printable: Printable, c: char, rest: string)
    ensures var first := if Kept(printable, c) then [c] else Escape(c);
            Escaped(printable, [c] + rest) == first + Escaped(printable, rest)
    ensures Escaped(printable, "") == ""
  {
    assert ([c] + rest)[1..] == rest;
    hide Kept, Escape;
  }

  lemma UnescapeStep(first: string, c: char, rest: string, more: string)
    requires first != "" && ReadChar(first + rest) == Some((c, rest)) && Unescape(rest) == Some(more)
    ensures Unescape(first + rest) == Some([c] + more)
  {
    hide ReadChar;
  }

  lemma NothingUnescaped()
    ensures Unescape("") == Some("")
  {}

  /** What %q prints between its quotes reads back as the text, whatever Go takes for printable. */
  lemma {:induction false} EscapedReadsBack(printable: Printable, text: string)
    ensures Unescape(Escaped(printable, text)) == Some(text)
  {
    hide *;
    if text == "" {
      EscapedStep(printable, 'a', "");
      NothingUnescaped();
      return;
    }
    var c, rest := text[0], text[1..];
    assert text == [c] + rest;
    EscapedStep(printable, c, rest);
    EscapedReadsBack(printable, rest);
    var tail := Escaped(printable, rest);
    if Kept(printable, c) {
      ReadKept(printable, c, tail);
      UnescapeStep([c], c, tail, rest);
    } else {
      ReadEscape(c, tail);
      UnescapeStep(Escape(c), c, tail, rest);
    }
  }

  /** However the stream is cut, the text that the browser throws reads back as the error of the
      failed poll. */
  lemma ErrorReadsBack(printable: Printable, ticks: seq<Tick>, error: string, chunks: seq<string>)
    requires forall t :: t in ticks ==> !t.Fail?
    requires JsonPayloads(PollResults(ticks))
    requires Concat(chunks) == Render(FramesFrom(ticks + [Fail(Quoted(printable, error))], {}))
    ensures var o := Feed("", chunks); o.thrown && Unescape(o.message) == Some(error)
  {
    hide *;
    ErrorDelivered(printable, ticks, error, chunks);
    EscapedReadsBack(printable, error);
  }
}
