/** The escape functions of ffprobe's writers and a decoder for each. Strings hold no NUL in C;
    nothing here depends on that. */
module Escapes {
  import opened Common

  const BS := 8 as char
  const FF := 12 as char

  /** json_escape_str, ini_escape_str, xml_escape_str, flat_escape_value_str, c_escape_str. */
  datatype Style = Json | Ini | Xml | Flat | CStyle(sep: char)

  function Hex(n: int): char
    requires 0 <= n < 16
  {
    "0123456789abcdef"[n]
  }

  function Unhex(c: char): Option<int> {
    if '0' <= c <= '9' then Some(c as int - '0' as int)
    else if 'a' <= c <= 'f' then Some(c as int - 'a' as int + 10)
    else if 'A' <= c <= 'F' then Some(c as int - 'A' as int + 10)
    else None
  }

  /** `00` and two hexadecimal digits, for a control character. */
  function Hex4(c: char): string
    requires c as int < 32
  {
    ['0', '0', Hex(c as int / 16), Hex(c as int % 16)]
  }

  /** What one character becomes. */
  function EscapeChar(style: Style, c: char): string {
    match style
    case Json =>
      if c == '"' then "\\\"" else if c == '\\' then "\\\\"
      else if c == BS then "\\b" else if c == FF then "\\f"
      else if c == '\n' then "\\n" else if c == '\r' then "\\r" else if c == '\t' then "\\t"
      else if c as int < 32 then "\\u" + Hex4(c)
      else [c]
    case Ini =>
      if c == BS then "\\b" else if c == FF then "\\f"
      else if c == '\n' then "\\n" else if c == '\r' then "\\r" else if c == '\t' then "\\t"
      else if c == '\\' || c == '#' || c == '=' || c == ':' then ['\\', c]
      else if c as int < 32 then "\\x" + Hex4(c)
      else [c]
    case Xml =>
      if c == '&' then "&amp;" else if c == '<' then "&lt;" else if c == '>' then "&gt;"
      else if c == '"' then "&quot;" else if c == '\'' then "&apos;"
      else [c]
    case Flat =>
      if c == '\n' then "\\n" else if c == '\r' then "\\r"
      else if c == '\\' || c == '"' || c == '`' || c == '$' then ['\\', c]
      else [c]
    case CStyle(sep) =>
      if c == BS then "\\b" else if c == FF then "\\f"
      else if c == '\n' then "\\n" else if c == '\r' then "\\r" else if c == '\\' then "\\\\"
      else if c == sep then ['\\', c]
      else [c]
  }

  function Escape(style: Style, s: string): string {
    if s == [] then [] else EscapeChar(style, s[0]) + Escape(style, s[1..])
  }

  lemma {:induction false} EscapeAppends(style: Style, s: string, c: char)
    ensures Escape(style, s + [c]) == Escape(style, s) + EscapeChar(style, c)
  {
    if s == [] {
      assert s + [c] == [c] && [c][1..] == [];
    } else {
      assert (s + [c])[1..] == s[1..] + [c];
      EscapeAppends(style, s[1..], c);
    }
  }

  /** One turn of an escape loop. */
  lemma EscapeTurn(style: Style, src: string, p: nat)
    requires p < |src|
    ensures Escape(style, src[..p + 1]) == Escape(style, src[..p]) + EscapeChar(style, src[p])
  {
    assert src[..p + 1] == src[..p] + [src[p]];
    EscapeAppends(style, src[..p], src[p]);
  }

  // ---- the code -------------------------------------------------------------------------------

  method JsonEscape(src: string) returns (dst: string)
    ensures dst == Escape(Json, src)
  {
    dst := [];
    for p := 0 to |src|
      invariant dst == Escape(Json, src[..p])
    {
      EscapeTurn(Json, src, p);
      var piece := JsonEscapeChar(src[p]);
      dst := dst + piece;
    }
    assert src[..|src|] == src;
  }

  method JsonEscapeChar(c: char) returns (piece: string)
    ensures piece == EscapeChar(Json, c)
  {
    var escapes := ['"', '\\', BS, FF, '\n', '\r', '\t'];
    var substitutes := ['"', '\\', 'b', 'f', 'n', 'r', 't'];
    var k := Index(escapes, c);
    piece := [c];
    if k < |escapes| {
      piece := ['\\', substitutes[k]];
      assert c == escapes[k];
    } else {
      assert forall j :: 0 <= j < 7 ==> escapes[j] != c;
      assert escapes[0] == '"' && escapes[1] == '\\' && escapes[2] == BS && escapes[3] == FF;
      assert escapes[4] == '\n' && escapes[5] == '\r' && escapes[6] == '\t';
      if c as int < 32 {
        piece := "\\u" + Hex4(c);
      }
    }
  }

  /** strchr: the index of the first occurrence, or the length. */
  method Index(s: string, c: char) returns (k: nat)
    ensures k <= |s| && (forall j :: 0 <= j < k ==> s[j] != c) && (k < |s| ==> s[k] == c)
  {
    k := 0;
    while k < |s| && s[k] != c
      invariant k <= |s| && forall j :: 0 <= j < k ==> s[j] != c
    {
      k := k + 1;
    }
  }

  method IniEscape(src: string) returns (dst: string)
    ensures dst == Escape(Ini, src)
  {
    dst := [];
    for i := 0 to |src|
      invariant dst == Escape(Ini, src[..i])
    {
      EscapeTurn(Ini, src, i);
      var c := src[i];
      if c == BS { dst := dst + "\\b"; }
      else if c == FF { dst := dst + "\\f"; }
      else if c == '\n' { dst := dst + "\\n"; }
      else if c == '\r' { dst := dst + "\\r"; }
      else if c == '\t' { dst := dst + "\\t"; }
      else {
        var piece: string := [];
        if c == '\\' || c == '#' || c == '=' || c == ':' { piece := "\\"; }
        if c as int < 32 { piece := piece + "\\x" + Hex4(c); } else { piece := piece + [c]; }
        assert piece == EscapeChar(Ini, c);
        dst := dst + piece;
      }
    }
    assert src[..|src|] == src;
  }

  method XmlEscape(src: string) returns (dst: string)
    ensures dst == Escape(Xml, src)
  {
    dst := [];
    for p := 0 to |src|
      invariant dst == Escape(Xml, src[..p])
    {
      EscapeTurn(Xml, src, p);
      match src[p]
      case '&' => dst := dst + "&amp;";
      case '<' => dst := dst + "&lt;";
      case '>' => dst := dst + "&gt;";
      case '"' => dst := dst + "&quot;";
      case '\'' => dst := dst + "&apos;";
      case c => dst := dst + [c];
    }
    assert src[..|src|] == src;
  }

  method FlatEscape(src: string) returns (dst: string)
    ensures dst == Escape(Flat, src)
  {
    dst := [];
    for p := 0 to |src|
      invariant dst == Escape(Flat, src[..p])
    {
      EscapeTurn(Flat, src, p);
      match src[p]
      case '\n' => dst := dst + "\\n";
      case '\r' => dst := dst + "\\r";
      case '\\' => dst := dst + "\\\\";
      case '"' => dst := dst + "\\\"";
      case '`' => dst := dst + "\\`";
      case '$' => dst := dst + "\\$";
      case c => dst := dst + [c];
    }
    assert src[..|src|] == src;
  }

  method CEscape(src: string, sep: char) returns (dst: string)
    ensures dst == Escape(CStyle(sep), src)
  {
    dst := [];
    for p := 0 to |src|
      invariant dst == Escape(CStyle(sep), src[..p])
    {
      EscapeTurn(CStyle(sep), src, p);
      var c := src[p];
      if c == BS { dst := dst + "\\b"; }
      else if c == FF { dst := dst + "\\f"; }
      else if c == '\n' { dst := dst + "\\n"; }
      else if c == '\r' { dst := dst + "\\r"; }
      else if c == '\\' { dst := dst + "\\\\"; }
      else {
        var piece := [c];
        if c == sep { piece := ['\\', c]; }
        dst := dst + piece;
      }
    }
    assert src[..|src|] == src;
  }

  // ---- decoders -------------------------------------------------------------------------------

  datatype Read = Stuck | Got(c: char, rest: string)

  /** The character named after a backslash, other than by its code. */
  function Named(style: Style, c: char): char {
    if c == 'n' then '\n' else if c == 'r' then '\r'
    else if c == 'b' && !style.Flat? then BS else if c == 'f' && !style.Flat? then FF
    else if c == 't' && !style.Flat? && !style.CStyle? then '\t'
    else c
  }

  function ReadHex4(t: string): Read {
    if |t| < 4 || t[0] != '0' || t[1] != '0' then Stuck
    else match (Unhex(t[2]), Unhex(t[3]))
         case (Some(a), Some(b)) => Got((16 * a + b) as char, t[4..])
         case _ => Stuck
  }

  function Entity(t: string): Read {
    if |t| >= 5 && t[..5] == "&amp;" then Got('&', t[5..])
    else if |t| >= 4 && t[..4] == "&lt;" then Got('<', t[4..])
    else if |t| >= 4 && t[..4] == "&gt;" then Got('>', t[4..])
    else if |t| >= 6 && t[..6] == "&quot;" then Got('"', t[6..])
    else if |t| >= 6 && t[..6] == "&apos;" then Got('\'', t[6..])
    else Stuck
  }

  /** Reads the first character of a text in the given style. The JSON form is section 7 of RFC 8259,
      for codes below 256; the XML form is section 4.6 of XML 1.0. */
  function ReadOne(style: Style, t: string): (r: Read)
    ensures r.Got? ==> |r.rest| < |t|
  {
    if t == [] then Stuck
    else if style.Xml? then
      if t[0] == '&' then Entity(t) else if t[0] == '<' || t[0] == '"' then Stuck else Got(t[0], t[1..])
    else if t[0] == '\\' then
      if |t| == 1 then Stuck
      else if style.Json? then
        if t[1] == 'u' then ReadHex4(t[2..])
        else if t[1] in "\"\\/bfnrt" then Got(Named(style, t[1]), t[2..])
        else Stuck
      else if style.Ini? && t[1] == 'x' then ReadHex4(t[2..])
      else Got(Named(style, t[1]), t[2..])
    else if style.Json? && (t[0] == '"' || t[0] as int < 32) then Stuck
    else Got(t[0], t[1..])
  }

  function Decode(style: Style, t: string): Option<string>
    decreases |t|
  {
    if t == [] then Some([])
    else match ReadOne(style, t)
         case Stuck => None
         case Got(c, rest) =>
           match Decode(style, rest)
           case None => None
           case Some(s) => Some([c] + s)
  }

  /** The separator can be told from the name of an escaped control character. */
  predicate Decodable(style: Style) { style.CStyle? ==> style.sep !in "bfnr" }

  lemma Hex4Reads(c: char, rest: string)
    requires c as int < 32
    ensures ReadHex4(Hex4(c) + rest) == Got(c, rest)
  {
    assert (Hex4(c) + rest)[4..] == rest;
  }

  lemma EntityReads(c: char, rest: string)
    requires c in "&<>\"'"
    ensures Entity(EscapeChar(Xml, c) + rest) == Got(c, rest)
  {
    var t := EscapeChar(Xml, c) + rest;
    assert t[|EscapeChar(Xml, c)|..] == rest;
    assert forall k :: 0 <= k < |EscapeChar(Xml, c)| ==> t[k] == EscapeChar(Xml, c)[k];
    assert |t| >= 4 && t[1] == EscapeChar(Xml, c)[1] && t[2] == EscapeChar(Xml, c)[2];
  }

  /** A two-character escape is read back by its second character. */
  lemma ShortReads(style: Style, c: char, rest: string)
    requires !style.Xml? && |EscapeChar(style, c)| == 2 && Decodable(style)
    ensures ReadOne(style, EscapeChar(style, c) + rest) == Got(c, rest)
  {
    var e := EscapeChar(style, c);
    var t := e + rest;
    assert t[2..] == rest && t[0] == e[0] == '\\' && t[1] == e[1];
    assert Named(style, e[1]) == c;
  }

  lemma PlainReads(style: Style, c: char, rest: string)
    requires EscapeChar(style, c) == [c]
    ensures ReadOne(style, EscapeChar(style, c) + rest) == Got(c, rest)
  {
    var t := [c] + rest;
    assert t[1..] == rest && t[0] == c;
  }

  lemma EscapeLengths(style: Style, c: char)
    ensures var e := EscapeChar(style, c);
      || e == [c]
      || (style.Xml? && c in "&<>\"'")
      || (!style.Xml? && |e| == 2)
      || ((style.Json? || style.Ini?) && c as int < 32 && e == ['\\', if style.Json? then 'u' else 'x'] + Hex4(c))
  {
  }

  /** Reading takes off exactly what escaping put there, whatever follows. */
  lemma ReadsEscaped(style: Style, c: char, rest: string)
    requires Decodable(style)
    ensures ReadOne(style, EscapeChar(style, c) + rest) == Got(c, rest)
  {
    EscapeLengths(style, c);
    var e := EscapeChar(style, c);
    if e == [c] {
      PlainReads(style, c, rest);
    } else if style.Xml? {
      EntityReads(c, rest);
      assert (e + rest)[0] == e[0];
    } else if |e| == 2 {
      ShortReads(style, c, rest);
    } else {
      assert (e + rest)[2..] == Hex4(c) + rest;
      assert (e + rest)[0] == e[0] && (e + rest)[1] == e[1];
      Hex4Reads(c, rest);
    }
  }

  lemma DecodeFirst(style: Style, t: string, c: char, rest: string)
    requires ReadOne(style, t) == Got(c, rest) && Decode(style, rest).Some?
    ensures Decode(style, t) == Some([c] + Decode(style, rest).value)
  {
  }

  /** Every style is undone by its decoder, for every string. */
  lemma {:induction false} DecodeEscape(style: Style, s: string)
    requires Decodable(style)
    ensures Decode(style, Escape(style, s)) == Some(s)
  {
    if s != [] {
      ReadsEscaped(style, s[0], Escape(style, s[1..]));
      DecodeEscape(style, s[1..]);
      DecodeFirst(style, Escape(style, s), s[0], Escape(style, s[1..]));
      assert [s[0]] + s[1..] == s;
    }
  }

  lemma EscapeOne(style: Style, c: char)
    ensures Escape(style, [c]) == EscapeChar(style, c)
  {
    var s: string := [c];
    assert s[1..] == [] && s[0] == c;
    assert EscapeChar(style, c) + [] == EscapeChar(style, c);
  }

  /** The control character that a letter stands for when it is the separator. */
  lemma SameEscape(sep: char)
    requires sep == 'b' || sep == 'f' || sep == 'n' || sep == 'r'
    ensures Named(CStyle(sep), sep) != sep
    ensures EscapeChar(CStyle(sep), sep) == ['\\', sep] == EscapeChar(CStyle(sep), Named(CStyle(sep), sep))
  {
    if sep == 'b' {
      assert Named(CStyle(sep), sep) == BS;
    } else if sep == 'f' {
      assert Named(CStyle(sep), sep) == FF;
    } else if sep == 'n' {
      assert Named(CStyle(sep), sep) == '\n';
    } else {
      assert Named(CStyle(sep), sep) == '\r';
    }
  }

  /** The C style loses nothing exactly when the separator is none of b, f, n, r. */
  lemma CStyleLosesNothing(sep: char)
    ensures Decodable(CStyle(sep)) <==>
      forall s, t :: Escape(CStyle(sep), s) == Escape(CStyle(sep), t) ==> s == t
  {
    var style := CStyle(sep);
    if Decodable(style) {
      forall s, t | Escape(style, s) == Escape(style, t) ensures s == t {
        DecodeEscape(style, s);
        DecodeEscape(style, t);
      }
    } else {
      var s: string := [sep];
      var t: string := [Named(style, sep)];
      SameEscape(sep);
      EscapeOne(style, sep);
      EscapeOne(style, Named(style, sep));
      assert Escape(style, s) == Escape(style, t) && s[0] != t[0];
    }
  }

  // ---- what the escapes are for -----------------------------------------------------------------

  /** The characters that must not stand in a value as they are: those that end it, separate it from what follows, or
      mean something else where it is read. */
  predicate Special(style: Style, c: char) {
    match style
    case Json => c == '"' || c as int < 32
    case Ini => c == '#' || c == '=' || c == ':' || c as int < 32
    case Xml => c == '<' || c == '>' || c == '"' || c == '\''
    case Flat => c == '"' || c == '`' || c == '$' || c == '\n' || c == '\r'
    case CStyle(sep) => (c == sep && c != '\\') || c == BS || c == FF || c == '\n' || c == '\r'
  }

  /** Every special character stands behind a backslash that is not itself escaped. XML has no backslash escapes. */
  predicate Guarded(style: Style, t: string) {
    if t == [] then true
    else if t[0] == '\\' && !style.Xml? then |t| >= 2 && Guarded(style, t[2..])
    else !Special(style, t[0]) && Guarded(style, t[1..])
  }

  lemma {:induction false} GuardedAppend(style: Style, a: string, b: string)
    requires Guarded(style, a) && Guarded(style, b)
    ensures Guarded(style, a + b)
    decreases |a|
  {
    if a == [] {
      assert a + b == b;
    } else if a[0] == '\\' && !style.Xml? {
      assert (a + b)[2..] == a[2..] + b;
      GuardedAppend(style, a[2..], b);
    } else {
      assert (a + b)[1..] == a[1..] + b;
      GuardedAppend(style, a[1..], b);
    }
  }

  lemma HexIsDigit(n: int)
    requires 0 <= n < 16
    ensures '0' <= Hex(n) <= '9' || 'a' <= Hex(n) <= 'f'
  {
  }

  lemma HexIsGuarded(style: Style, c: char)
    requires c as int < 32 && (style.Json? || style.Ini?)
    ensures Guarded(style, Hex4(c))
  {
    HexIsDigit(c as int / 16);
    HexIsDigit(c as int % 16);
    assert forall d :: d in Hex4(c) ==> '0' <= d <= '9' || 'a' <= d <= 'f';
    AllPlain(style, Hex4(c));
  }

  lemma EntityIsGuarded(c: char)
    requires c in "&<>\"'"
    ensures Guarded(Xml, EscapeChar(Xml, c))
  {
    AllPlain(Xml, EscapeChar(Xml, c));
  }

  lemma {:induction false} AllPlain(style: Style, t: string)
    requires forall c :: c in t ==> c != '\\' && !Special(style, c)
    ensures Guarded(style, t)
  {
    if t != [] {
      assert t[0] in t && forall c :: c in t[1..] ==> c in t;
      AllPlain(style, t[1..]);
    }
  }

  lemma CharIsGuarded(style: Style, c: char)
    ensures Guarded(style, EscapeChar(style, c))
  {
    EscapeLengths(style, c);
    var e := EscapeChar(style, c);
    if e == [c] {
      assert e[1..] == [];
    } else if style.Xml? {
      EntityIsGuarded(c);
    } else if |e| == 2 {
      assert e[2..] == [];
    } else {
      HexIsGuarded(style, c);
      assert e[2..] == Hex4(c);
    }
  }

  /** No escaped value holds a special character that is not guarded. */
  lemma {:induction false} EscapedIsGuarded(style: Style, s: string)
    ensures Guarded(style, Escape(style, s))
  {
    if s != [] {
      EscapedIsGuarded(style, s[1..]);
      CharIsGuarded(style, s[0]);
      GuardedAppend(style, EscapeChar(style, s[0]), Escape(style, s[1..]));
    }
  }

  lemma PlainCharStays(style: Style, c: char)
    requires !Special(style, c) && c != (if style.Xml? then '&' else '\\')
    ensures EscapeChar(style, c) == [c]
  {
  }

  /** Text without special characters, and without the character that starts an escape, stays as it is. */
  lemma {:induction false} PlainStays(style: Style, s: string)
    requires forall c :: c in s ==> !Special(style, c) && c != (if style.Xml? then '&' else '\\')
    ensures Escape(style, s) == s
  {
    if s != [] {
      assert s[0] in s && forall c :: c in s[1..] ==> c in s;
      PlainStays(style, s[1..]);
      PlainCharStays(style, s[0]);
      assert [s[0]] + s[1..] == s;
    }
  }
}
