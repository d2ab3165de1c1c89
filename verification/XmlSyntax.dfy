/** A reader for XML 1.0 documents without text content, comments and processing instructions, on the tokens
    of `Tokens.Lex` with all their blanks. */
module XmlSyntax {
  import opened Common
  import opened Escapes
  import opened Tokens

  datatype Node = Element(name: string, attributes: seq<(string, string)>, children: seq<Node>)

  datatype Parsed<+T> = Fail | Done(value: T, rest: seq<Token>)

  /** Section 2.2: the characters a document may contain. */
  predicate IsChar(c: char) {
    || c == '\t' || c == '\n' || c == '\r'
    || 0x20 <= c as int <= 0xD7FF || 0xE000 <= c as int <= 0xFFFD || 0x1_0000 <= c as int
  }

  predicate Chars(s: string) { forall c :: c in s ==> IsChar(c) }

  /** Sections 2.11 and 3.3.3: a line end or a tab in an attribute value is reported as a blank. */
  function Normalise(s: string): string {
    if s == [] then []
    else if s[0] == '\r' && |s| > 1 && s[1] == '\n' then " " + Normalise(s[2..])
    else [if s[0] == '\t' || s[0] == '\n' || s[0] == '\r' then ' ' else s[0]] + Normalise(s[1..])
  }

  predicate Layout(ts: seq<Token>) { forall t :: t in ts ==> t.Space? }

  function SkipBlanks(ts: seq<Token>): (r: seq<Token>)
    ensures |r| <= |ts| && (r != [] ==> !r[0].Space?)
  {
    if ts != [] && ts[0].Space? then SkipBlanks(ts[1..]) else ts
  }

  function AttValue(t: Token): Option<string> {
    match t
    case Quoted(s) => if Chars(s) then Some(Normalise(s)) else None
    case Apos(s) => if Chars(s) then Some(Normalise(s)) else None
    case _ => None
  }

  /** The attributes in front, each after at least one blank, and what follows them. */
  function ParseAttributes(ts: seq<Token>): (r: (seq<(string, string)>, seq<Token>))
    ensures |r.1| <= |ts|
    decreases |ts|
  {
    var u := SkipBlanks(ts);
    if |u| < |ts| && |u| >= 3 && u[0].Word? && u[1] == Punct('=') && AttValue(u[2]).Some? then
      var (more, rest) := ParseAttributes(u[3..]);
      ([(u[0].s, AttValue(u[2]).value)] + more, rest)
    else ([], ts)
  }

  predicate Unique(attributes: seq<(string, string)>) {
    forall i, j :: 0 <= i < j < |attributes| ==> attributes[i].0 != attributes[j].0
  }

  function ParseElement(ts: seq<Token>): (r: Parsed<Node>)
    ensures r.Done? ==> |r.rest| < |ts|
    decreases |ts|, 0
  {
    if |ts| < 2 || ts[0] != Punct('<') || !ts[1].Word? then Fail
    else
      var (attributes, rest) := ParseAttributes(ts[2..]);
      if !Unique(attributes) then Fail
      else match ParseBody(ts[1].s, SkipBlanks(rest))
           case Fail => Fail
           case Done(children, rest) => Done(Element(ts[1].s, attributes, children), rest)
  }

  /** After the attributes: the end of an empty tag, or content up to the matching end tag. */
  function ParseBody(name: string, ts: seq<Token>): (r: Parsed<seq<Node>>)
    ensures r.Done? ==> |r.rest| <= |ts|
    decreases |ts|, 2
  {
    if |ts| >= 2 && ts[0] == Punct('/') && ts[1] == Punct('>') then Done([], ts[2..])
    else if ts == [] || ts[0] != Punct('>') then Fail
    else match ParseContent(ts[1..])
         case Fail => Fail
         case Done(children, rest) =>
           if |rest| < 3 || rest[..3] != EndStart(name) then Fail
           else
             var end := SkipBlanks(rest[3..]);
             if end == [] || end[0] != Punct('>') then Fail else Done(children, end[1..])
  }

  function EndStart(name: string): seq<Token> { [Punct('<'), Punct('/'), Word(name)] }

  /** Elements and blanks up to an end tag. */
  function ParseContent(ts: seq<Token>): (r: Parsed<seq<Node>>)
    ensures r.Done? ==> |r.rest| <= |ts|
    decreases |ts|, 1
  {
    var u := SkipBlanks(ts);
    if |u| >= 2 && u[0] == Punct('<') && u[1] == Punct('/') then Done([], u)
    else match ParseElement(u)
         case Fail => Fail
         case Done(node, rest) => Prepend([node], ParseContent(rest))
  }

  function Prepend(nodes: seq<Node>, p: Parsed<seq<Node>>): (r: Parsed<seq<Node>>)
    ensures p.Done? ==> r.Done? && r.rest == p.rest
  {
    match p
    case Fail => Fail
    case Done(more, rest) => Done(nodes + more, rest)
  }

  /** The XML declaration: version 1.0, and the encoding if it is given. */
  predicate IsDeclaration(attributes: seq<(string, string)>) {
    && 1 <= |attributes| <= 2 && attributes[0] == ("version", "1.0")
    && (|attributes| == 2 ==> attributes[1].0 == "encoding")
  }

  /** A whole document: the XML declaration and one element. */
  function ParseXml(text: string): Option<Node> {
    match Lex(Xml, text)
    case None => None
    case Some(ts) =>
      if |ts| < 3 || ts[..3] != [Punct('<'), Punct('?'), Word("xml")] then None
      else
        var (declaration, rest) := ParseAttributes(ts[3..]);
        var rest := SkipBlanks(rest);
        if !IsDeclaration(declaration) || |rest| < 2 || rest[..2] != [Punct('?'), Punct('>')] then None
        else match ParseElement(SkipBlanks(rest[2..]))
             case Fail => None
             case Done(node, rest) => if SkipBlanks(rest) == [] then Some(node) else None
  }

  // ---- reading around blanks ------------------------------------------------------------------

  lemma {:induction false} Skip(p: seq<Token>, ts: seq<Token>)
    requires Layout(p)
    ensures SkipBlanks(p + ts) == SkipBlanks(ts)
    decreases |p|
  {
    if p == [] {
      assert p + ts == ts;
    } else {
      assert (p + ts)[1..] == p[1..] + ts && (p + ts)[0] == p[0];
      Skip(p[1..], ts);
    }
  }

  lemma SkipTo(p: seq<Token>, ts: seq<Token>)
    requires Layout(p) && (ts == [] || !ts[0].Space?)
    ensures SkipBlanks(p + ts) == ts
  {
    Skip(p, ts);
  }

  lemma ContentSkips(p: seq<Token>, ts: seq<Token>)
    requires Layout(p)
    ensures ParseContent(p + ts) == ParseContent(ts)
  {
    Skip(p, ts);
  }

  function Attribute(key: string, value: Token): seq<Token> { [Word(key), Punct('='), value] }

  /** An attribute after a blank is taken exactly when its value is allowed. */
  lemma AttributeParses(p: seq<Token>, key: string, value: Token, rest: seq<Token>)
    requires Layout(p) && p != [] && (value.Quoted? || value.Apos?)
    ensures var ts := p + (Attribute(key, value) + rest);
      && SkipBlanks(ts) == Attribute(key, value) + rest
      && ParseAttributes(ts) ==
         if AttValue(value).Some? then
           ([(key, AttValue(value).value)] + ParseAttributes(rest).0, ParseAttributes(rest).1)
         else ([], ts)
  {
    var u := Attribute(key, value) + rest;
    SkipTo(p, u);
    assert u[3..] == rest;
  }

  lemma NoAttribute(p: seq<Token>, ts: seq<Token>)
    requires Layout(p) && ts != [] && !ts[0].Space? && !ts[0].Word?
    ensures ParseAttributes(p + ts) == ([], p + ts) && SkipBlanks(p + ts) == ts
  {
    SkipTo(p, ts);
  }

  lemma ElementParses(name: string, tail: seq<Token>)
    ensures ParseElement([Punct('<'), Word(name)] + tail) ==
      var (attributes, rest) := ParseAttributes(tail);
      if !Unique(attributes) then Fail
      else match ParseBody(name, SkipBlanks(rest))
           case Fail => Fail
           case Done(children, rest) => Done(Element(name, attributes, children), rest)
  {
    assert ([Punct('<'), Word(name)] + tail)[2..] == tail;
  }

  /** An element in content, after blanks. */
  lemma ContentStarts(p: seq<Token>, name: string, tail: seq<Token>)
    requires Layout(p)
    ensures ParseContent(p + ([Punct('<'), Word(name)] + tail)) ==
      match ParseElement([Punct('<'), Word(name)] + tail)
      case Fail => Fail
      case Done(node, rest) => Prepend([node], ParseContent(rest))
  {
    SkipTo(p, [Punct('<'), Word(name)] + tail);
  }

  function EndTag(name: string): seq<Token> { EndStart(name) + [Punct('>')] }

  lemma ContentEnds(p: seq<Token>, name: string, rest: seq<Token>)
    requires Layout(p)
    ensures ParseContent(p + (EndTag(name) + rest)) == Done([], EndTag(name) + rest)
  {
    SkipTo(p, EndTag(name) + rest);
  }

  lemma PrependNothing(p: Parsed<seq<Node>>)
    ensures Prepend([], p) == p
  {
    if p.Done? { assert [] + p.value == p.value; }
  }

  lemma PrependTwice(a: seq<Node>, b: seq<Node>, p: Parsed<seq<Node>>)
    ensures Prepend(a, Prepend(b, p)) == Prepend(a + b, p)
  {
    if p.Done? { assert a + (b + p.value) == a + b + p.value; }
  }

  lemma TakeEnd(name: string, rest: seq<Token>)
    ensures var end := EndTag(name) + rest;
      && |end| >= 3 && end[..3] == EndStart(name)
      && SkipBlanks(end[3..]) == [Punct('>')] + rest && ([Punct('>')] + rest)[1..] == rest
  {
    assert (EndTag(name) + rest)[3..] == [Punct('>')] + rest;
  }

  /** Content that has been read, between a start tag and its end tag. */
  lemma BodyParses(name: string, content: seq<Token>, p: seq<Token>, rest: seq<Token>, good: bool, nodes: seq<Node>)
    requires Layout(p)
    requires var end := p + (EndTag(name) + rest);
      ParseContent(content + end) == if good then Prepend(nodes, ParseContent(end)) else Fail
    ensures ParseBody(name, [Punct('>')] + (content + (p + (EndTag(name) + rest)))) ==
      if good then Done(nodes, rest) else Fail
  {
    var end := EndTag(name) + rest;
    var inner := content + (p + end);
    assert ParseContent(inner) == if good then Done(nodes, end) else Fail by {
      ContentEnds(p, name, rest);
      assert nodes + [] == nodes;
    }
    TakeEnd(name, rest);
    assert ([Punct('>')] + inner)[1..] == inner;
  }
}
