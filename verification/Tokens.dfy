/** Printed text as a sequence of tokens, and a lexer that gets them back. JSON and XML share both:
    they differ in the escape style of quoted strings and in what may stand unquoted. */
module Tokens {
  import opened Common
  import opened Escapes

  /** `Space` is layout, `Word` an unquoted name, `Apos` a plain string in single quotes, `Raw` text that is
      not meant for this lexer. */
  datatype Token =
    | Punct(c: char) | Quoted(s: string) | Apos(s: string) | Word(s: string) | Number(n: int) | Space(s: string)
    | Raw(s: string)

  function Digit(d: int): char
    requires 0 <= d < 10
  {
    "0123456789"[d]
  }

  function Natural(n: nat): string {
    if n < 10 then [Digit(n)] else Natural(n / 10) + [Digit(n % 10)]
  }

  /** %lld */
  function Decimal(n: int): string { if n < 0 then "-" + Natural(-n) else Natural(n) }

  function Render(style: Style, t: Token): string {
    match t
    case Punct(c) => [c]
    case Quoted(s) => "\"" + Escape(style, s) + "\""
    case Apos(s) => "'" + s + "'"
    case Word(s) => s
    case Number(n) => Decimal(n)
    case Space(s) => s
    case Raw(s) => s
  }

  function RenderAll(style: Style, ts: seq<Token>): string {
    if ts == [] then [] else Render(style, ts[0]) + RenderAll(style, ts[1..])
  }

  lemma {:induction false} RenderAppend(style: Style, a: seq<Token>, b: seq<Token>)
    ensures RenderAll(style, a + b) == RenderAll(style, a) + RenderAll(style, b)
  {
    if a == [] {
      assert a + b == b;
    } else {
      assert (a + b)[1..] == a[1..] + b;
      RenderAppend(style, a[1..], b);
    }
  }

  // ---- the lexer ------------------------------------------------------------------------------

  predicate IsSpace(c: char) { c == ' ' || c == '\n' || c == '\r' || c == '\t' }

  predicate IsDigit(c: char) { '0' <= c <= '9' }

  predicate StartsName(c: char) { 'a' <= c <= 'z' || 'A' <= c <= 'Z' || c == '_' }

  predicate InName(c: char) { StartsName(c) || IsDigit(c) || c == '-' || c == '.' || c == ':' }

  predicate IsName(s: string) { s != [] && StartsName(s[0]) && forall c :: c in s ==> InName(c) }

  predicate IsPunct(style: Style, c: char) {
    match style
    case Json => c == '{' || c == '}' || c == '[' || c == ']' || c == ':' || c == ','
    case Xml => c == '<' || c == '>' || c == '/' || c == '=' || c == '?'
    case _ => false
  }

  /** The rest of a quoted string, up to and including its closing quote. */
  function ReadQuoted(style: Style, t: string): Option<(string, string)>
    ensures ReadQuoted(style, t).Some? ==> |ReadQuoted(style, t).value.1| < |t|
    decreases |t|
  {
    if t == [] then None
    else if t[0] == '"' then Some(([], t[1..]))
    else match ReadOne(style, t)
         case Stuck => None
         case Got(c, rest) =>
           match ReadQuoted(style, rest)
           case None => None
           case Some((s, rest)) => Some(([c] + s, rest))
  }

  predicate InApos(c: char) { c != '\'' && c != '<' && c != '&' }

  /** The rest of a plain string in single quotes. */
  function ReadApos(t: string): Option<(string, string)>
    ensures ReadApos(t).Some? ==> |ReadApos(t).value.1| < |t|
    decreases |t|
  {
    if t == [] then None
    else if t[0] == '\'' then Some(([], t[1..]))
    else if !InApos(t[0]) then None
    else match ReadApos(t[1..])
         case None => None
         case Some((s, rest)) => Some(([t[0]] + s, rest))
  }

  function ReadName(t: string): (r: (string, string))
    ensures |r.0| + |r.1| == |t|
    decreases |t|
  {
    if t == [] || !InName(t[0]) then ([], t)
    else
      var (s, rest) := ReadName(t[1..]);
      ([t[0]] + s, rest)
  }

  function ReadDigits(t: string, value: int): (r: (int, string))
    ensures |r.1| <= |t|
    decreases |t|
  {
    if t == [] || !IsDigit(t[0]) then (value, t)
    else ReadDigits(t[1..], 10 * value + (t[0] as int - '0' as int))
  }

  /** Section 6 of RFC 8259 without fractions and exponents: no superfluous leading zero. */
  function ReadNatural(t: string): Option<(int, string)>
    ensures ReadNatural(t).Some? ==> |ReadNatural(t).value.1| < |t|
  {
    if t == [] || !IsDigit(t[0]) then None
    else if t[0] == '0' then (if |t| > 1 && IsDigit(t[1]) then None else Some((0, t[1..])))
    else Some(ReadDigits(t[1..], t[0] as int - '0' as int))
  }

  function LexOne(style: Style, t: string): Option<(Token, string)>
    requires t != []
    ensures LexOne(style, t).Some? ==> |LexOne(style, t).value.1| < |t|
  {
    if IsSpace(t[0]) then Some((Space([t[0]]), t[1..]))
    else if IsPunct(style, t[0]) then Some((Punct(t[0]), t[1..]))
    else if t[0] == '"' then
      match ReadQuoted(style, t[1..])
      case None => None
      case Some((s, rest)) => Some((Quoted(s), rest))
    else if style.Xml? && t[0] == '\'' then
      match ReadApos(t[1..])
      case None => None
      case Some((s, rest)) => Some((Apos(s), rest))
    else if style.Json? && t[0] == '-' then
      match ReadNatural(t[1..])
      case None => None
      case Some((n, rest)) => Some((Number(-n), rest))
    else if style.Json? && IsDigit(t[0]) then
      match ReadNatural(t)
      case None => None
      case Some((n, rest)) => Some((Number(n), rest))
    else if style.Xml? && StartsName(t[0]) then
      var (s, rest) := ReadName(t);
      Some((Word(s), rest))
    else None
  }

  /** The tokens of a text: of JSON without its layout, of XML with one token for every blank. */
  function Lex(style: Style, t: string): Option<seq<Token>>
    decreases |t|
  {
    if t == [] then Some([])
    else match LexOne(style, t)
         case None => None
         case Some((token, rest)) =>
           match Lex(style, rest)
           case None => None
           case Some(ts) => Some(if token.Space? && !style.Xml? then ts else [token] + ts)
  }

  function Bare(ts: seq<Token>): seq<Token> {
    if ts == [] then [] else (if ts[0].Space? then [] else [ts[0]]) + Bare(ts[1..])
  }

  lemma {:induction false} BareAppend(a: seq<Token>, b: seq<Token>)
    ensures Bare(a + b) == Bare(a) + Bare(b)
  {
    if a == [] {
      assert a + b == b;
    } else {
      assert (a + b)[1..] == a[1..] + b;
      BareAppend(a[1..], b);
    }
  }

  function Blanks(s: string): seq<Token> { if s == [] then [] else [Space(s[..1])] + Blanks(s[1..]) }

  function SpreadOne(t: Token): seq<Token> { if t.Space? then Blanks(t.s) else [t] }

  /** The tokens with one for every blank. */
  function Spread(ts: seq<Token>): seq<Token> {
    if ts == [] then [] else SpreadOne(ts[0]) + Spread(ts[1..])
  }

  lemma {:induction false} SpreadAppend(a: seq<Token>, b: seq<Token>)
    ensures Spread(a + b) == Spread(a) + Spread(b)
  {
    if a == [] {
      assert a + b == b;
    } else {
      assert (a + b)[1..] == a[1..] + b;
      SpreadAppend(a[1..], b);
    }
  }

  /** What lexing keeps of printed tokens. */
  function Kept(style: Style, ts: seq<Token>): seq<Token> { if style.Xml? then Spread(ts) else Bare(ts) }

  // ---- the lexer undoes the printer -----------------------------------------------------------

  predicate Lexable(style: Style, t: Token) {
    match t
    case Punct(c) => IsPunct(style, c)
    case Quoted(_) => style.Json? || style.Xml?
    case Apos(s) => style.Xml? && forall c :: c in s ==> InApos(c)
    case Word(s) => style.Xml? && IsName(s)
    case Number(_) => style.Json?
    case Space(s) => forall c :: c in s ==> IsSpace(c)
    case Raw(_) => false
  }

  /** A name or number must be followed by something that ends it. */
  predicate Open(t: Token) { t.Word? || t.Number? || t == Space([]) }

  predicate Linked(style: Style, ts: seq<Token>) {
    && (forall t :: t in ts ==> Lexable(style, t))
    && (forall i, j :: 0 <= i < |ts| && j == i + 1 && j < |ts| ==> !(Open(ts[i]) && Open(ts[j])))
  }

  lemma LinkedAppend(style: Style, a: seq<Token>, b: seq<Token>)
    requires Linked(style, a) && Linked(style, b)
    requires a == [] || b == [] || !Open(a[|a| - 1]) || !Open(b[0])
    ensures Linked(style, a + b)
  {
    forall i, j | 0 <= i < |a + b| && j == i + 1 && j < |a + b| ensures !(Open((a + b)[i]) && Open((a + b)[j])) {
    }
  }

  /** The text goes on with something that is not part of a name or number. */
  predicate Ends(style: Style, t: string) { t == [] || !(if style.Json? then IsDigit(t[0]) else InName(t[0])) }

  lemma {:induction false} ReadsDigits(n: nat, rest: string)
    ensures ReadDigits(Natural(n) + rest, 0) == ReadDigits(rest, n)
  {
    if n < 10 {
      assert (Natural(n) + rest)[1..] == rest;
    } else {
      assert Natural(n) + rest == Natural(n / 10) + ([Digit(n % 10)] + rest);
      ReadsDigits(n / 10, [Digit(n % 10)] + rest);
      assert ([Digit(n % 10)] + rest)[1..] == rest;
    }
  }

  lemma {:induction false} NaturalHead(n: nat)
    ensures Natural(n) != [] && IsDigit(Natural(n)[0]) && (n > 0 ==> Natural(n)[0] != '0')
  {
    if n >= 10 {
      NaturalHead(n / 10);
    }
  }

  lemma ReadsNatural(n: nat, rest: string)
    requires Ends(Json, rest)
    ensures ReadNatural(Natural(n) + rest) == Some((n, rest))
  {
    NaturalHead(n);
    ReadsDigits(n, rest);
    var t := Natural(n) + rest;
    assert t[0] == Natural(n)[0];
    if n == 0 {
      assert t[1..] == rest;
    }
  }

  lemma ReadsQuotedOne(style: Style, c: char, tail: string, s: string, rest: string)
    requires (style.Json? || style.Xml?) && ReadQuoted(style, tail) == Some((s, rest))
    ensures ReadQuoted(style, EscapeChar(style, c) + tail) == Some(([c] + s, rest))
  {
    ReadsEscaped(style, c, tail);
    EscapeLengths(style, c);
    assert (EscapeChar(style, c) + tail)[0] == EscapeChar(style, c)[0] != '"';
  }

  lemma {:induction false} ReadsQuoted(style: Style, s: string, rest: string)
    requires style.Json? || style.Xml?
    ensures ReadQuoted(style, Escape(style, s) + ("\"" + rest)) == Some((s, rest))
  {
    var end := "\"" + rest;
    if s == [] {
      assert Escape(style, s) + end == end && end[1..] == rest;
    } else {
      ReadsQuoted(style, s[1..], rest);
      ReadsQuotedOne(style, s[0], Escape(style, s[1..]) + end, s[1..], rest);
      Assoc(EscapeChar(style, s[0]), Escape(style, s[1..]), end);
      assert [s[0]] + s[1..] == s;
    }
  }

  lemma {:induction false} ReadsName(s: string, rest: string)
    requires (forall c :: c in s ==> InName(c)) && Ends(Xml, rest)
    ensures ReadName(s + rest) == (s, rest)
  {
    if s == [] {
      assert s + rest == rest;
    } else {
      assert (s + rest)[1..] == s[1..] + rest;
      ReadsName(s[1..], rest);
      assert [s[0]] + s[1..] == s;
    }
  }

  lemma LexBlank(style: Style, c: char, rest: string)
    requires IsSpace(c) && Lex(style, rest).Some?
    ensures Lex(style, [c] + rest) == Some((if style.Xml? then [Space([c])] else []) + Lex(style, rest).value)
  {
    var t := [c] + rest;
    assert t[1..] == rest && [t[0]] == [c];
    assert LexOne(style, t) == Some((Space([c]), rest));
    assert [] + Lex(style, rest).value == Lex(style, rest).value;
  }

  lemma {:induction false} LexSpaces(style: Style, s: string, rest: string)
    requires (forall c :: c in s ==> IsSpace(c)) && Lex(style, rest).Some?
    ensures Lex(style, s + rest) == Some((if style.Xml? then Blanks(s) else []) + Lex(style, rest).value)
    decreases |s|
  {
    var ts := Lex(style, rest).value;
    if s == [] {
      assert s + rest == rest && [] + ts == ts;
    } else {
      assert s + rest == [s[0]] + (s[1..] + rest) && s[0] in s && s[..1] == [s[0]];
      assert forall c :: c in s[1..] ==> c in s;
      LexSpaces(style, s[1..], rest);
      LexBlank(style, s[0], s[1..] + rest);
      if style.Xml? { RegroupTokens([Space(s[..1])], Blanks(s[1..]), ts); }
    }
  }

  lemma RegroupTokens(a: seq<Token>, b: seq<Token>, c: seq<Token>)
    ensures a + b + c == a + (b + c)
  {
  }

  lemma {:induction false} ReadsApos(s: string, rest: string)
    requires forall c :: c in s ==> InApos(c)
    ensures ReadApos(s + ("'" + rest)) == Some((s, rest))
    decreases |s|
  {
    var end := "'" + rest;
    if s == [] {
      assert s + end == end && end[1..] == rest;
    } else {
      assert s[0] in s && forall c :: c in s[1..] ==> c in s;
      assert (s + end)[1..] == s[1..] + end && (s + end)[0] == s[0];
      ReadsApos(s[1..], rest);
      assert [s[0]] + s[1..] == s;
    }
  }

  lemma LexApos(s: string, rest: string)
    requires forall c :: c in s ==> InApos(c)
    ensures LexOne(Xml, Render(Xml, Apos(s)) + rest) == Some((Apos(s), rest))
  {
    ReadsApos(s, rest);
    var t := Render(Xml, Apos(s)) + rest;
    assert t[0] == '\'' && t[1..] == s + ("'" + rest);
  }

  lemma LexBody(style: Style, body: string)
    requires style.Json? || style.Xml?
    ensures LexOne(style, ['"'] + body) == match ReadQuoted(style, body)
                                           case None => None
                                           case Some((s, rest)) => Some((Quoted(s), rest))
  {
    assert (['"'] + body)[1..] == body;
  }

  lemma LexQuoted(style: Style, s: string, rest: string)
    requires style.Json? || style.Xml?
    ensures LexOne(style, Render(style, Quoted(s)) + rest) == Some((Quoted(s), rest))
  {
    var body := Escape(style, s) + ("\"" + rest);
    ReadsQuoted(style, s, rest);
    LexBody(style, body);
    assert Render(style, Quoted(s)) + rest == ['"'] + body;
  }

  lemma LexNumber(n: int, rest: string)
    requires Ends(Json, rest)
    ensures Decimal(n) != [] && LexOne(Json, Decimal(n) + rest) == Some((Number(n), rest))
  {
    if n < 0 { LexNegative(-n, rest); } else { LexNatural(n, rest); }
  }

  lemma LexNatural(n: nat, rest: string)
    requires Ends(Json, rest)
    ensures Natural(n) != [] && LexOne(Json, Natural(n) + rest) == Some((Number(n), rest))
  {
    NaturalHead(n);
    ReadsNatural(n, rest);
    assert (Natural(n) + rest)[0] == Natural(n)[0];
  }

  lemma LexMinus(body: string)
    ensures LexOne(Json, "-" + body) == match ReadNatural(body)
                                        case None => None
                                        case Some((n, rest)) => Some((Number(-n), rest))
  {
    assert ("-" + body)[1..] == body;
  }

  lemma LexNegative(k: nat, rest: string)
    requires Ends(Json, rest)
    ensures LexOne(Json, "-" + Natural(k) + rest) == Some((Number(0 - k), rest))
  {
    var body := Natural(k) + rest;
    assert ReadNatural(body) == Some((k, rest)) by {
      ReadsNatural(k, rest);
    }
    LexMinus(body);
    Assoc("-", Natural(k), rest);
  }

  /** One printed token is lexed as itself. */
  lemma LexToken(style: Style, t: Token, rest: string)
    requires Lexable(style, t) && !t.Space? && (Open(t) ==> Ends(style, rest))
    ensures Render(style, t) != [] && LexOne(style, Render(style, t) + rest) == Some((t, rest))
  {
    match t
    case Punct(c) => assert ([c] + rest)[1..] == rest;
    case Quoted(s) => LexQuoted(style, s, rest);
    case Apos(s) => LexApos(s, rest);
    case Word(s) =>
      ReadsName(s, rest);
      assert (s + rest)[0] == s[0];
    case Number(n) => LexNumber(n, rest);
  }

  lemma RenderEnds(style: Style, ts: seq<Token>)
    requires ts != [] && Lexable(style, ts[0]) && !Open(ts[0])
    ensures Ends(style, RenderAll(style, ts))
  {
    assert RenderAll(style, ts)[0] == Render(style, ts[0])[0];
    if ts[0].Space? {
      assert ts[0].s[0] in ts[0].s;
    }
  }

  /** Lexing printed tokens gives them back: without the layout in JSON, blank by blank in XML. */
  lemma {:induction false} LexRender(style: Style, ts: seq<Token>)
    requires Linked(style, ts)
    ensures Lex(style, RenderAll(style, ts)) == Some(Kept(style, ts))
  {
    if ts != [] {
      var rest := RenderAll(style, ts[1..]);
      assert Lexable(style, ts[0]);
      LexRender(style, ts[1..]);
      if ts[0].Space? {
        LexSpaces(style, ts[0].s, rest);
        assert !style.Xml? ==> [] + Bare(ts[1..]) == Bare(ts);
      } else {
        if |ts| > 1 && Open(ts[0]) {
          RenderEnds(style, ts[1..]);
        }
        LexToken(style, ts[0], rest);
      }
    }
  }
}
