/** What the reader of `XmlSyntax` gets from the output of ffprobe's XML writer: the section tree itself exactly
    when every attribute stands in an open start tag, the keys differ, all characters are allowed in XML, and no
    tabs or line ends occur in values. */
module XmlReader {
  import opened Common
  import opened Escapes
  import opened Tokens
  import opened Writers
  import opened Selection
  import opened XmlSyntax

  // ---- what a section tree means --------------------------------------------------------------

  function Text(item: Item): string
    requires !item.Sub? && Printed(item)
  {
    if item.Str? then item.value.s else Decimal(item.n)
  }

  /** The item is printed as an attribute of the start tag. */
  predicate IsAttribute(s: Section, item: Item) { !item.Sub? && Printed(item) && !(item.Str? && s.hasVariableFields) }

  /** A value as it is, or as a reader reports it. */
  function Reported(s: string, read: bool): string { if read then Normalise(s) else s }

  function Attributes(s: Section, items: seq<Item>, read: bool): seq<(string, string)> {
    if items == [] then []
    else
      (if IsAttribute(s, items[0]) then [(KeyOf(items[0]), Reported(Text(items[0]), read))] else [])
      + Attributes(s, items[1..], read)
  }

  /** A section with variable fields has no element of its own. */
  function Nodes(t: Tree, read: bool): seq<Node>
    decreases t, 0
  {
    var children := Children(t.section, t.items, read);
    if t.section.hasVariableFields then children
    else if t.section.isArray then [Element(t.section.name, [], children)]
    else [Element(t.section.name, Attributes(t.section, t.items, read), children)]
  }

  function Children(s: Section, items: seq<Item>, read: bool): seq<Node>
    decreases items, 0
  {
    if items == [] then [] else Child(s, items[0], read) + Children(s, items[1..], read)
  }

  function Child(s: Section, item: Item, read: bool): seq<Node>
    decreases item, 1
  {
    match item
    case Sub(t) => Nodes(t, read)
    case Int(_, _) => []
    case Str(_, _, _) => if Printed(item) && s.hasVariableFields then [FieldNode(s, item, read)] else []
  }

  /** The element a string in a section with variable fields becomes. */
  function FieldNode(s: Section, item: Item, read: bool): Node
    requires !item.Sub? && Printed(item)
  {
    Element(s.elementName, [("key", Reported(KeyOf(item), read)), ("value", Reported(Text(item), read))], [])
  }

  function SpaceAttributes(): seq<(string, string)> {
    [("xmlns:xsi", XSI)] + ([("xmlns:ffprobe", SCHEMA)] + [("xsi:schemaLocation", LOCATION)])
  }

  /** The document for a tree: its root section stands for the document element. */
  function Document(t: Tree, qualified: bool, read: bool): Node {
    Element(XmlRoot(qualified), if qualified then SpaceAttributes() else [], Children(t.section, t.items, read))
  }

  /** The document element and its namespaces. */
  lemma RootIsFfprobe(t: Tree, read: bool)
    ensures Document(t, false, read).name == "ffprobe" && Document(t, false, read).attributes == []
    ensures Document(t, true, read).name == "ffprobe:ffprobe"
    ensures Document(t, true, read).attributes ==
      [("xmlns:xsi", "http://www.w3.org/2001/XMLSchema-instance"),
       ("xmlns:ffprobe", "http://www.ffmpeg.org/schema/ffprobe"),
       ("xsi:schemaLocation", "http://www.ffmpeg.org/schema/ffprobe ffprobe.xsd")]
  {
  }

  // ---- when the output can be read ------------------------------------------------------------

  /** Whether the start tag is still open after the items. */
  predicate StillWithin(items: seq<Item>, within: bool) {
    if items == [] then within else StillWithin(items[1..], within && !items[0].Sub?)
  }

  /** Attributes are only printed while the section's own start tag is open, and have different keys; what is
      printed consists of XML characters. */
  predicate Good(t: Tree)
    decreases t, 0
  {
    if t.section.hasVariableFields || t.section.isArray then GoodItems(t.section, t.items, false)
    else GoodItems(t.section, t.items, true) && Unique(Attributes(t.section, t.items, true))
  }

  predicate GoodItems(s: Section, items: seq<Item>, within: bool)
    decreases items, 0
  {
    items != [] ==> GoodItem(s, items[0], within) && GoodItems(s, items[1..], within && !items[0].Sub?)
  }

  predicate GoodItem(s: Section, item: Item, within: bool)
    decreases item, 1
  {
    match item
    case Sub(t) => Good(t)
    case _ =>
      Printed(item) ==> Chars(Text(item)) && if IsAttribute(s, item) then within else Chars(KeyOf(item))
  }

  /** Names that are printed as such are names. */
  predicate Named(t: Tree)
    decreases t, 0
  {
    WellNamed(t.section) && NamedItems(t.section, t.items)
  }

  predicate NamedItems(s: Section, items: seq<Item>)
    decreases items, 0
  {
    items != [] ==> NamedItem(s, items[0]) && NamedItems(s, items[1..])
  }

  predicate NamedItem(s: Section, item: Item)
    decreases item, 1
  {
    match item
    case Sub(t) => Named(t)
    case _ => IsAttribute(s, item) ==> IsName(KeyOf(item))
  }

  // ---- printed tokens, blank by blank ---------------------------------------------------------

  /** Blanks one by one already. */
  predicate Thin(ts: seq<Token>) { forall t :: t in ts && t.Space? ==> |t.s| == 1 }

  lemma ThinOne(t: Token)
    requires t.Space? ==> |t.s| == 1
    ensures SpreadOne(t) == [t]
  {
    if t.Space? {
      assert t.s[..1] == t.s && t.s[1..] == [];
      assert Blanks(t.s) == [Space(t.s)] + [];
    }
  }

  lemma {:induction false} SpreadThin(ts: seq<Token>)
    requires Thin(ts)
    ensures Spread(ts) == ts
  {
    if ts != [] {
      assert ts[0] in ts && forall t :: t in ts[1..] ==> t in ts;
      SpreadThin(ts[1..]);
      ThinOne(ts[0]);
      assert [ts[0]] + ts[1..] == ts;
    }
  }

  lemma {:induction false} BlanksAreLayout(s: string)
    ensures Layout(Blanks(s))
  {
    if s != [] { BlanksAreLayout(s[1..]); }
  }

  /** Some blanks, and then tokens that are thin. */
  lemma IndentedThin(n: int, ts: seq<Token>)
    requires Thin(ts)
    ensures Spread([Indent(n)] + ts) == Blanks(Indent(n).s) + ts && Layout(Blanks(Indent(n).s))
  {
    BlanksAreLayout(Indent(n).s);
    SpreadAppend([Indent(n)], ts);
    SpreadThin(ts);
    assert Spread([Indent(n)]) == Blanks(Indent(n).s) + Spread([]) == Blanks(Indent(n).s);
  }

  const NL := Space("\n")
  const SP := Space(" ")

  /** An element with two attributes, as it is printed for a field. */
  function FieldTokens(name: string, key: string, value: string): seq<Token> {
    [Punct('<'), Word(name), SP] + (XmlAttribute("key", key) + [SP])
    + (XmlAttribute("value", value) + [Punct('/'), Punct('>'), NL])
  }

  lemma FieldLayout(name: string, key: string, value: string, rest: seq<Token>)
    ensures FieldTokens(name, key, value) + rest ==
      [Punct('<'), Word(name)]
      + ([SP] + (Attribute("key", Quoted(key))
                 + ([SP] + (Attribute("value", Quoted(value)) + ([Punct('/'), Punct('>')] + ([NL] + rest))))))
  {
  }

  lemma TwoAttributes(key1: string, value1: string, key2: string, value2: string, end: seq<Token>)
    requires end != [] && !end[0].Space? && !end[0].Word?
    ensures var (attributes, rest) := ParseAttributes(
              [SP] + (Attribute(key1, Quoted(value1)) + ([SP] + (Attribute(key2, Quoted(value2)) + end))));
      if Chars(value1) && Chars(value2) then
        attributes == [(key1, Normalise(value1)), (key2, Normalise(value2))] && rest == end
      else rest != [] && SkipBlanks(rest) != [] && SkipBlanks(rest)[0].Word?
  {
    var second := [SP] + (Attribute(key2, Quoted(value2)) + end);
    AttributeParses([SP], key1, Quoted(value1), second);
    AttributeParses([SP], key2, Quoted(value2), end);
    NoAttribute([], end);
    assert [] + end == end;
  }

  lemma EmptyTag(name: string, rest: seq<Token>)
    ensures var end := [Punct('/'), Punct('>')] + rest;
      SkipBlanks(end) == end && ParseBody(name, end) == Done([], rest)
  {
    assert ([Punct('/'), Punct('>')] + rest)[2..] == rest;
  }

  lemma FieldParses(name: string, key: string, value: string, rest: seq<Token>)
    ensures ParseElement(FieldTokens(name, key, value) + rest) ==
      if Chars(key) && Chars(value) then
        Done(Element(name, [("key", Normalise(key)), ("value", Normalise(value))], []), [NL] + rest)
      else Fail
  {
    var end := [Punct('/'), Punct('>')] + ([NL] + rest);
    FieldLayout(name, key, value, rest);
    TwoAttributes("key", key, "value", value, end);
    ElementParses(name, [SP] + (Attribute("key", Quoted(key)) + ([SP] + (Attribute("value", Quoted(value)) + end))));
    EmptyTag(name, [NL] + rest);
  }

  lemma FieldAfterBlanks(lead: seq<Token>, name: string, key: string, value: string, rest: seq<Token>)
    requires Layout(lead)
    ensures ParseContent(lead + (FieldTokens(name, key, value) + rest)) ==
      if Chars(key) && Chars(value) then
        Prepend([Element(name, [("key", Normalise(key)), ("value", Normalise(value))], [])], ParseContent(rest))
      else Fail
  {
    var tail := [SP] + (Attribute("key", Quoted(key))
                        + ([SP] + (Attribute("value", Quoted(value)) + ([Punct('/'), Punct('>')] + ([NL] + rest)))));
    FieldLayout(name, key, value, rest);
    FieldParses(name, key, value, rest);
    ContentStarts(lead, name, tail);
    ContentSkips([NL], rest);
  }

  lemma FieldMeans(s: Section, item: Item)
    requires item.Str? && Printed(item) && s.hasVariableFields
    ensures GoodItem(s, item, false) <==> Chars(KeyOf(item)) && Chars(Text(item))
    ensures Child(s, item, true) ==
      [Element(s.elementName, [("key", Normalise(KeyOf(item))), ("value", Normalise(Text(item)))], [])]
  {
  }

  /** A field in content. */
  lemma FieldInContent(s: Section, item: Item, indent: int, rest: seq<Token>)
    requires item.Str? && Printed(item) && s.hasVariableFields
    ensures ParseContent(Spread(XmlItem(s, 0, item, indent)) + rest) ==
      if GoodItem(s, item, false) then Prepend(Child(s, item, true), ParseContent(rest)) else Fail
  {
    var (lead, field) := (Blanks(Indent(indent).s), FieldTokens(s.elementName, KeyOf(item), Text(item)));
    FieldIsIndented(s, item, indent);
    IndentedThin(indent, field);
    RegroupTokens(lead, field, rest);
    FieldAfterBlanks(lead, s.elementName, KeyOf(item), Text(item), rest);
    FieldMeans(s, item);
  }

  lemma FieldIsIndented(s: Section, item: Item, indent: int)
    requires item.Str? && Printed(item) && s.hasVariableFields
    ensures XmlItem(s, 0, item, indent) == [Indent(indent)] + FieldTokens(s.elementName, KeyOf(item), Text(item))
  {
  }

  /** An attribute outside of a start tag is text, which no reader takes for an attribute. */
  lemma AttributeInContent(s: Section, item: Item, nb: nat, indent: int, rest: seq<Token>)
    requires IsAttribute(s, item)
    ensures ParseContent(Spread(XmlItem(s, nb, item, indent)) + rest) == Fail
  {
    var gap := if nb != 0 then [SP] else [];
    var ts := XmlAttribute(KeyOf(item), Text(item)) + rest;
    SpreadThin(gap + XmlAttribute(KeyOf(item), Text(item)));
    RegroupTokens(gap, XmlAttribute(KeyOf(item), Text(item)), rest);
    WordFails(gap, ts);
  }

  lemma WordFails(gap: seq<Token>, ts: seq<Token>)
    requires Layout(gap) && ts != [] && ts[0].Word?
    ensures ParseContent(gap + ts) == Fail
  {
    SkipTo(gap, ts);
  }

  // ---- parsing what the writer prints -----------------------------------------------------------

  /** The writer is inside the tree, and its current section is `s`. */
  predicate Inside(c: Context, s: Section) {
    c.levels != [] && c.levels[|c.levels| - 1].section == s && c.priv.XmlPriv? && WellNamed(s)
  }

  lemma MovesOn(c: Context, s: Section, item: Item)
    requires Inside(c, s)
    ensures var c1 := WriteItem(c, item).0;
      && Inside(c1, s) && |c1.levels| == |c.levels| && SameXml(c.priv, c1.priv)
      && c1.priv.within == (c.priv.within && !item.Sub?)
      && (!item.Sub? ==> c1.priv == c.priv)
      && c1.levels[|c.levels| - 1].nbItem ==
         c.levels[|c.levels| - 1].nbItem + if Visible(c.priv, s, item) then 1 else 0
  {
    LevelMoves(c, item);
  }

  /** What is read of one piece and then of another. */
  lemma Chain(a: seq<Token>, b: seq<Token>, rest: seq<Token>,
              good: bool, nodes: seq<Node>, good': bool, nodes': seq<Node>)
    requires ParseContent(a + (b + rest)) == if good then Prepend(nodes, ParseContent(b + rest)) else Fail
    requires ParseContent(b + rest) == if good' then Prepend(nodes', ParseContent(rest)) else Fail
    ensures ParseContent(a + b + rest) == if good && good' then Prepend(nodes + nodes', ParseContent(rest)) else Fail
  {
    RegroupTokens(a, b, rest);
    PrependTwice(nodes, nodes', ParseContent(rest));
  }

  lemma {:induction false} ItemsParse(c: Context, s: Section, items: seq<Item>, rest: seq<Token>)
    requires Inside(c, s) && !c.priv.within && NamedItems(s, items) && FullItems(false, s, items)
    ensures ParseContent(Spread(WriteItems(c, items).1) + rest) ==
      if GoodItems(s, items, false) then Prepend(Children(s, items, true), ParseContent(rest)) else Fail
    decreases items, 0
  {
    if items == [] {
      assert [] + rest == rest;
      PrependNothing(ParseContent(rest));
    } else {
      var (c1, first) := WriteItem(c, items[0]);
      var more := WriteItems(c1, items[1..]).1;
      MovesOn(c, s, items[0]);
      ItemParses(c, s, items[0], Spread(more) + rest);
      ItemsParse(c1, s, items[1..], rest);
      SpreadAppend(first, more);
      Chain(Spread(first), Spread(more), rest, GoodItem(s, items[0], false), Child(s, items[0], true),
            GoodItems(s, items[1..], false), Children(s, items[1..], true));
    }
  }

  lemma ScalarParses(c: Context, s: Section, item: Item, rest: seq<Token>)
    requires Inside(c, s) && !item.Sub? && FullItem(false, s, item)
    ensures ParseContent(Spread(Scalar(c, item).1) + rest) ==
      if GoodItem(s, item, false) then Prepend(Child(s, item, true), ParseContent(rest)) else Fail
  {
    var l := c.levels[|c.levels| - 1];
    FullIsVisible(c.priv, s, item);
    if !Printed(item) {
      assert [] + rest == rest;
      PrependNothing(ParseContent(rest));
    } else if IsAttribute(s, item) {
      AttributeInContent(s, item, l.nbItem, c.priv.indent, rest);
    } else {
      FieldInContent(s, item, c.priv.indent, rest);
      assert XmlItem(s, l.nbItem, item, c.priv.indent) == XmlItem(s, 0, item, c.priv.indent);
    }
  }

  lemma {:induction false} ItemParses(c: Context, s: Section, item: Item, rest: seq<Token>)
    requires Inside(c, s) && !c.priv.within && NamedItem(s, item) && FullItem(false, s, item)
    ensures ParseContent(Spread(WriteItem(c, item).1) + rest) ==
      if GoodItem(s, item, false) then Prepend(Child(s, item, true), ParseContent(rest)) else Fail
    decreases item, 1
  {
    if item.Sub? { TreeParses(c, item.tree, rest); } else { ScalarParses(c, s, item, rest); }
  }

  /** What a header prints of its own: blanks and a start tag, finished or not. */
  lemma HeadLayout(l: Level, s: Section, indent: int) returns (lead: seq<Token>)
    ensures Layout(lead) && Spread(XmlStart(l, s, indent)) == lead + XmlTag(s)
  {
    var gap := if l.section.isWrapper && l.nbItem != 0 then [NL] else [];
    var blanks := Blanks(Indent(indent).s);
    lead := gap + blanks;
    StartLayout(l, s, indent);
    SpreadAppend(gap, [Indent(indent)] + XmlTag(s));
    SpreadThin(gap);
    TagIsThin(s);
    IndentedThin(indent, XmlTag(s));
    RegroupTokens(gap, blanks, XmlTag(s));
  }

  lemma StartLayout(l: Level, s: Section, indent: int)
    ensures var gap := if l.section.isWrapper && l.nbItem != 0 then [NL] else [];
      XmlStart(l, s, indent) == gap + ([Indent(indent)] + XmlTag(s))
  {
    RegroupTokens(if l.section.isWrapper && l.nbItem != 0 then [NL] else [], [Indent(indent)], XmlTag(s));
  }

  lemma TagIsThin(s: Section)
    ensures Thin(XmlTag(s))
  {
  }

  lemma EndLine(name: string, rest: seq<Token>)
    ensures [Punct('<'), Punct('/'), Word(name), Punct('>'), NL] + rest == EndTag(name) + ([NL] + rest)
  {
  }

  /** The end tag on a line of its own. */
  lemma FootLayout(name: string, indent: int, rest: seq<Token>) returns (lead: seq<Token>)
    ensures Layout(lead)
    ensures Spread([Indent(indent)] + [Punct('<'), Punct('/'), Word(name), Punct('>'), NL]) + rest ==
      lead + (EndTag(name) + ([NL] + rest))
  {
    var tag := [Punct('<'), Punct('/'), Word(name), Punct('>'), NL];
    lead := Blanks(Indent(indent).s);
    IndentedThin(indent, tag);
    RegroupTokens(lead, tag, rest);
    EndLine(name, rest);
  }

  lemma Spread3(a: seq<Token>, b: seq<Token>, c: seq<Token>, rest: seq<Token>)
    ensures Spread(a + b + c) + rest == Spread(a) + (Spread(b) + (Spread(c) + rest))
  {
    SpreadAppend(a + b, c);
    SpreadAppend(a, b);
    RegroupTokens(Spread(a) + Spread(b), Spread(c), rest);
    RegroupTokens(Spread(a), Spread(b), Spread(c) + rest);
  }

  /** An element around items, with what stands between its name and the end of its start tag. */
  lemma {:induction false} EnclosedParses(name: string, open: seq<Token>, attributes: seq<(string, string)>,
                                          c: Context, s: Section, items: seq<Item>, lead: seq<Token>, rest: seq<Token>)
    requires Inside(c, s) && !c.priv.within && NamedItems(s, items) && FullItems(false, s, items)
    requires Layout(lead) && Unique(attributes)
    requires var inner := [Punct('>')] + (([NL] + Spread(WriteItems(c, items).1)) + (lead + (EndTag(name) + rest)));
      ParseAttributes(open + inner) == (attributes, inner)
    ensures var inner := [Punct('>')] + (([NL] + Spread(WriteItems(c, items).1)) + (lead + (EndTag(name) + rest)));
      ParseElement([Punct('<'), Word(name)] + (open + inner)) ==
        if GoodItems(s, items, false) then Done(Element(name, attributes, Children(s, items, true)), rest) else Fail
    decreases items, 1
  {
    var (content, end) := (Spread(WriteItems(c, items).1), lead + (EndTag(name) + rest));
    ItemsParse(c, s, items, end);
    RegroupTokens([NL], content, end);
    ContentSkips([NL], content + end);
    BodyParses(name, [NL] + content, lead, rest, GoodItems(s, items, false), Children(s, items, true));
    ElementParses(name, open + ([Punct('>')] + (([NL] + content) + end)));
  }

  /** What follows the name in a start tag parses as attributes and a body, or does not parse. */
  predicate TagParsed(s: Section, items: seq<Item>, ts: seq<Token>, rest: seq<Token>) {
    var (attributes, body) := ParseAttributes(ts);
    if GoodItems(s, items, true) then
      attributes == Attributes(s, items, true)
      && ParseBody(s.name, SkipBlanks(body)) == Done(Children(s, items, true), rest)
    else ParseBody(s.name, SkipBlanks(body)) == Fail
  }

  /** The items of a section whose start tag is open, its end, and what comes after it. */
  function Following(c: Context, s: Section, items: seq<Item>, rest: seq<Token>): seq<Token>
    requires Inside(c, s) && |c.levels| > 1
  {
    var (c2, body) := WriteItems(c, items);
    ItemsStayInside(c, s, items);
    Spread(body) + (Spread(CloseTokens(c2.priv, |c.levels| - 1, s)) + rest)
  }

  lemma {:induction false} ItemsStayInside(c: Context, s: Section, items: seq<Item>)
    requires Inside(c, s)
    ensures Inside(WriteItems(c, items).0, s)
  {
    ItemsRestore(c, items);
  }

  lemma {:induction false} NoMoreWithin(items: seq<Item>)
    ensures !StillWithin(items, false)
  {
    if items != [] { NoMoreWithin(items[1..]); }
  }

  lemma {:induction false} NoMoreAttributes(s: Section, items: seq<Item>, read: bool)
    requires GoodItems(s, items, false)
    ensures Attributes(s, items, read) == []
  {
    if items != [] { NoMoreAttributes(s, items[1..], read); }
  }

  lemma {:induction false} WithinAfter(c: Context, items: seq<Item>)
    requires c.levels != [] && c.priv.XmlPriv?
    ensures var c' := WriteItems(c, items).0; c'.priv.XmlPriv? && c'.priv.within == StillWithin(items, c.priv.within)
    decreases items
  {
    if items != [] {
      LevelMoves(c, items[0]);
      WithinAfter(WriteItem(c, items[0]).0, items[1..]);
    }
  }

  /** An item of an open start tag that prints nothing. */
  lemma SilentInTag(c: Context, s: Section, items: seq<Item>, rest: seq<Token>)
    requires Inside(c, s) && |c.levels| > 1 && items != [] && !items[0].Sub? && !Printed(items[0])
    ensures var c1 := WriteItem(c, items[0]).0;
      && Inside(c1, s) && |c1.levels| == |c.levels|
      && Following(c, s, items, rest) == Following(c1, s, items[1..], rest)
  {
    MovesOn(c, s, items[0]);
    var (c1, first) := WriteItem(c, items[0]);
    assert first == [] && [] + WriteItems(c1, items[1..]).1 == WriteItems(c1, items[1..]).1;
  }

  lemma SilentMeansNothing(s: Section, items: seq<Item>, ts: seq<Token>, rest: seq<Token>)
    requires items != [] && !items[0].Sub? && !Printed(items[0]) && TagParsed(s, items[1..], ts, rest)
    ensures TagParsed(s, items, ts, rest)
  {
    assert [] + Attributes(s, items[1..], true) == Attributes(s, items[1..], true);
    assert Child(s, items[0], true) == [] && [] + Children(s, items[1..], true) == Children(s, items[1..], true);
    assert GoodItem(s, items[0], true);
  }

  lemma AttributeIsRead(s: Section, items: seq<Item>, gap: seq<Token>, ts: seq<Token>, rest: seq<Token>)
    requires items != [] && IsAttribute(s, items[0]) && TagParsed(s, items[1..], ts, rest) && Layout(gap) && gap != []
    requires !s.hasVariableFields
    ensures TagParsed(s, items, gap + (Attribute(KeyOf(items[0]), Quoted(Text(items[0]))) + ts), rest)
  {
    AttributeParses(gap, KeyOf(items[0]), Quoted(Text(items[0])), ts);
    assert Child(s, items[0], true) == [] && [] + Children(s, items[1..], true) == Children(s, items[1..], true);
    assert GoodItem(s, items[0], true) == Chars(Text(items[0]));
  }

  /** An attribute comes after a blank: one that is pending, or its own. */
  lemma AttributeInTag(c: Context, s: Section, items: seq<Item>, p: seq<Token>, rest: seq<Token>)
    returns (gap: seq<Token>)
    requires Inside(c, s) && |c.levels| > 1 && items != [] && IsAttribute(s, items[0]) && FullItem(false, s, items[0])
    requires Layout(p) && (c.levels[|c.levels| - 1].nbItem == 0 ==> p != [])
    ensures Layout(gap) && gap != []
    ensures var c1 := WriteItem(c, items[0]).0;
      && Inside(c1, s) && |c1.levels| == |c.levels|
      && p + Following(c, s, items, rest) ==
         gap + (Attribute(KeyOf(items[0]), Quoted(Text(items[0]))) + Following(c1, s, items[1..], rest))
  {
    FullIsVisible(c.priv, s, items[0]);
    MovesOn(c, s, items[0]);
    var (c1, first) := WriteItem(c, items[0]);
    var own := if c.levels[|c.levels| - 1].nbItem != 0 then [SP] else [];
    var attribute := Attribute(KeyOf(items[0]), Quoted(Text(items[0])));
    assert first == own + attribute;
    SpreadThin(first);
    var more := WriteItems(c1, items[1..]).1;
    var tail := Spread(CloseTokens(WriteItems(c, items).0.priv, |c.levels| - 1, s)) + rest;
    SpreadAppend(first, more);
    RegroupTokens(own + attribute, Spread(more), tail);
    RegroupTokens(own, attribute, Spread(more) + tail);
    RegroupTokens(p, own, attribute + (Spread(more) + tail));
    gap := p + own;
  }

  /** The rest of a start tag and all that follows it, up to the end of the element; `p` are blanks already
      printed. */
  lemma {:induction false} TagParses(c: Context, s: Section, items: seq<Item>, p: seq<Token>, rest: seq<Token>)
    requires Inside(c, s) && |c.levels| > 1 && c.priv.within
    requires !s.hasVariableFields && !s.isArray && NamedItems(s, items) && FullItems(false, s, items)
    requires Layout(p) && (c.levels[|c.levels| - 1].nbItem == 0 ==> p != [])
    ensures TagParsed(s, items, p + Following(c, s, items, rest), [NL] + rest)
    decreases items, 3
  {
    if items == [] {
      EndOfTag(c, s, p, rest);
    } else if items[0].Sub? {
      ContentFollows(c, s, items, p, rest);
    } else if Printed(items[0]) {
      ShownInTag(c, s, items, p, rest);
    } else {
      MovesOn(c, s, items[0]);
      SilentInTag(c, s, items, rest);
      TagParses(WriteItem(c, items[0]).0, s, items[1..], p, rest);
      SilentMeansNothing(s, items, p + Following(c, s, items, rest), [NL] + rest);
    }
  }

  lemma {:induction false} ShownInTag(c: Context, s: Section, items: seq<Item>, p: seq<Token>, rest: seq<Token>)
    requires Inside(c, s) && |c.levels| > 1 && c.priv.within
    requires !s.hasVariableFields && !s.isArray && NamedItems(s, items) && FullItems(false, s, items)
    requires Layout(p) && (c.levels[|c.levels| - 1].nbItem == 0 ==> p != [])
    requires items != [] && !items[0].Sub? && Printed(items[0])
    ensures TagParsed(s, items, p + Following(c, s, items, rest), [NL] + rest)
    decreases items, 2
  {
    MovesOn(c, s, items[0]);
    var c1 := WriteItem(c, items[0]).0;
    var gap := AttributeInTag(c, s, items, p, rest);
    var tail := Following(c1, s, items[1..], rest);
    assert TagParsed(s, items[1..], tail, [NL] + rest) by {
      TagParses(c1, s, items[1..], [], rest);
      assert [] + tail == tail;
    }
    AttributeIsRead(s, items, gap, tail, [NL] + rest);
  }

  lemma EndOfTag(c: Context, s: Section, p: seq<Token>, rest: seq<Token>)
    requires Inside(c, s) && |c.levels| > 1 && c.priv.within && Layout(p)
    ensures TagParsed(s, [], p + Following(c, s, [], rest), [NL] + rest)
  {
    var end := [Punct('/'), Punct('>')] + ([NL] + rest);
    SpreadThin([Punct('/'), Punct('>'), NL]);
    assert Following(c, s, [], rest) == end;
    NoAttribute(p, end);
    EmptyTag(s.name, [NL] + rest);
  }

  /** The same without an open start tag. */
  function Outside(c: Context): Context
    requires c.priv.XmlPriv?
  {
    c.(priv := XmlPriv(c.priv.indent, false, c.priv.qualified))
  }

  /** The first subsection ends the start tag it finds open, and is otherwise printed as outside of one. */
  lemma FirstSubsection(c: Context, t: Tree)
    requires c.levels != [] && c.priv.XmlPriv? && c.priv.within
    ensures Write(c, t).0 == Write(Outside(c), t).0
    ensures Write(c, t).1 == [Punct('>'), NL] + Write(Outside(c), t).1
  {
    var (head, head') := (Header(c, t.section).1, Header(Outside(c), t.section).1);
    assert Header(c, t.section).0 == Header(Outside(c), t.section).0;
    assert head == [Punct('>'), NL] + head' by {
      var start := XmlStart(Parent(c.levels).value, t.section, c.priv.indent + 1);
      assert head' == [] + if t.section.hasVariableFields then [] else start;
    }
    var (c2, body) := WriteItems(Header(c, t.section).0, t.items);
    var foot := Footer(c2).1;
    RegroupTokens([Punct('>'), NL], head', body);
    RegroupTokens([Punct('>'), NL], head' + body, foot);
  }

  /** From the first subsection on. */
  lemma {:induction false} ContentFollows(c: Context, s: Section, items: seq<Item>, p: seq<Token>, rest: seq<Token>)
    requires Inside(c, s) && |c.levels| > 1 && c.priv.within && !s.hasVariableFields
    requires NamedItems(s, items) && FullItems(false, s, items)
    requires items != [] && items[0].Sub? && Layout(p)
    ensures TagParsed(s, items, p + Following(c, s, items, rest), [NL] + rest)
    decreases items, 1
  {
    var c0 := Outside(c);
    var content := Spread(WriteItems(c0, items).1);
    var lead := ContentLayout(c, s, items, rest);
    var end := lead + (EndTag(s.name) + ([NL] + rest));
    ItemsParse(c0, s, items, end);
    RegroupTokens([NL], content, end);
    ContentSkips([NL], content + end);
    BodyParses(s.name, [NL] + content, lead, [NL] + rest, GoodItems(s, items, false), Children(s, items, true));
    NoAttribute(p, [Punct('>')] + (([NL] + content) + end));
    if GoodItems(s, items, false) { NoMoreAttributes(s, items, true); }
    assert GoodItem(s, items[0], true) == GoodItem(s, items[0], false);
  }

  lemma ContentLayout(c: Context, s: Section, items: seq<Item>, rest: seq<Token>) returns (lead: seq<Token>)
    requires Inside(c, s) && |c.levels| > 1 && c.priv.within && !s.hasVariableFields
    requires items != [] && items[0].Sub?
    ensures Layout(lead)
    ensures Following(c, s, items, rest) ==
      [Punct('>')] + (([NL] + Spread(WriteItems(Outside(c), items).1)) + (lead + (EndTag(s.name) + ([NL] + rest))))
  {
    var (c2, body) := WriteItems(c, items);
    var body' := WriteItems(Outside(c), items).1;
    ItemsAfterGt(c, items);
    WithinAfter(c, items);
    NoMoreWithin(items[1..]);
    lead := FootLayout(s.name, c2.priv.indent, rest);
    var foot := Spread(CloseTokens(c2.priv, |c.levels| - 1, s)) + rest;
    assert foot == lead + (EndTag(s.name) + ([NL] + rest));
    GtLayout(Spread(body'), foot);
  }

  lemma ItemsAfterGt(c: Context, items: seq<Item>)
    requires c.levels != [] && c.priv.XmlPriv? && c.priv.within && items != [] && items[0].Sub?
    ensures Spread(WriteItems(c, items).1) == [Punct('>'), NL] + Spread(WriteItems(Outside(c), items).1)
  {
    var gt := [Punct('>'), NL];
    var body := WriteItems(Outside(c), items).1;
    assert WriteItems(c, items).1 == gt + body by {
      FirstSubsection(c, items[0].tree);
      RegroupTokens(gt, WriteItem(Outside(c), items[0]).1, WriteItems(WriteItem(c, items[0]).0, items[1..]).1);
    }
    SpreadAppend(gt, body);
    SpreadThin(gt);
  }

  lemma GtLayout(body: seq<Token>, end: seq<Token>)
    ensures [Punct('>'), NL] + body + end == [Punct('>')] + (([NL] + body) + end)
    ensures [Punct('>'), NL] + (body + end) == [Punct('>')] + (([NL] + body) + end)
  {
  }

  lemma {:induction false} TreeParses(c: Context, t: Tree, rest: seq<Token>)
    requires c.levels != [] && c.priv.XmlPriv? && !c.priv.within && Named(t) && Full(false, t)
    ensures ParseContent(Spread(Write(c, t).1) + rest) ==
      if Good(t) then Prepend(Nodes(t, true), ParseContent(rest)) else Fail
    decreases t, 0
  {
    var s := t.section;
    var (c1, head) := Header(c, s);
    var (c2, body) := WriteItems(c1, t.items);
    assert Inside(c1, s);
    ItemsStayInside(c1, s, t.items);
    if s.hasVariableFields {
      WithinAfter(c1, t.items);
      NoMoreWithin(t.items);
      assert head == [] && Footer(c2).1 == [] && [] + body + [] == body;
      ItemsParse(c1, s, t.items, rest);
    } else {
      TaggedTree(c, t, rest);
      var lead := HeadLayout(Parent(c.levels).value, s, c.priv.indent + 1);
      if s.isArray { ArrayParses(c, t, lead, rest); } else { StructParses(c, t, lead, rest); }
      ContentSkips([NL], rest);
    }
  }

  /** A section with a start tag of its own. */
  lemma TaggedTree(c: Context, t: Tree, rest: seq<Token>)
    requires c.levels != [] && c.priv.XmlPriv? && !c.priv.within && Named(t) && Full(false, t)
    requires !t.section.hasVariableFields
    ensures var c1 := Header(c, t.section).0;
      && Inside(c1, t.section)
      && Spread(Write(c, t).1) + rest ==
         Spread(XmlStart(Parent(c.levels).value, t.section, c.priv.indent + 1))
         + Following(c1, t.section, t.items, rest)
  {
    var (c1, head) := Header(c, t.section);
    var (c2, body) := WriteItems(c1, t.items);
    ItemsStayInside(c1, t.section, t.items);
    ItemsRestore(c1, t.items);
    assert head == XmlStart(Parent(c.levels).value, t.section, c.priv.indent + 1);
    assert Footer(c2).1 == CloseTokens(c2.priv, |c.levels|, t.section);
    Spread3(head, body, Footer(c2).1, rest);
  }

  lemma TagLayout(lead: seq<Token>, name: string, gap: seq<Token>, tail: seq<Token>)
    ensures lead + ([Punct('<'), Word(name)] + gap) + tail == lead + ([Punct('<'), Word(name)] + (gap + tail))
  {
  }

  lemma {:induction false} StructParses(c: Context, t: Tree, lead: seq<Token>, rest: seq<Token>)
    requires c.levels != [] && c.priv.XmlPriv? && !c.priv.within && Named(t) && Full(false, t)
    requires !t.section.hasVariableFields && !t.section.isArray && Layout(lead)
    ensures var c1 := Header(c, t.section).0;
      && Inside(c1, t.section)
      && ParseContent(lead + XmlTag(t.section) + Following(c1, t.section, t.items, rest)) ==
         if Good(t) then Prepend(Nodes(t, true), ParseContent([NL] + rest)) else Fail
    decreases t.items, 4
  {
    var s := t.section;
    var c1 := Header(c, s).0;
    var following := Following(c1, s, t.items, rest);
    assert ParseElement([Punct('<'), Word(s.name)] + ([SP] + following)) ==
      if Good(t) then Done(Nodes(t, true)[0], [NL] + rest) else Fail by {
      TagParses(c1, s, t.items, [SP], rest);
      StructIsRead(t, [SP] + following, rest);
    }
    ContentStarts(lead, s.name, [SP] + following);
    assert XmlTag(s) == [Punct('<'), Word(s.name)] + [SP];
    TagLayout(lead, s.name, [SP], following);
  }

  lemma StructIsRead(t: Tree, tail: seq<Token>, rest: seq<Token>)
    requires TagParsed(t.section, t.items, tail, [NL] + rest) && !t.section.hasVariableFields && !t.section.isArray
    ensures ParseElement([Punct('<'), Word(t.section.name)] + tail) ==
      if Good(t) then Done(Nodes(t, true)[0], [NL] + rest) else Fail
  {
    ElementParses(t.section.name, tail);
  }

  lemma {:induction false} ArrayParses(c: Context, t: Tree, lead: seq<Token>, rest: seq<Token>)
    requires c.levels != [] && c.priv.XmlPriv? && !c.priv.within && Named(t) && Full(false, t)
    requires !t.section.hasVariableFields && t.section.isArray && Layout(lead)
    ensures var c1 := Header(c, t.section).0;
      && Inside(c1, t.section)
      && ParseContent(lead + XmlTag(t.section) + Following(c1, t.section, t.items, rest)) ==
         if Good(t) then Prepend(Nodes(t, true), ParseContent([NL] + rest)) else Fail
    decreases t.items, 3
  {
    var s := t.section;
    var c1 := Header(c, s).0;
    var body := Spread(WriteItems(c1, t.items).1);
    var foot := ArrayEnd(c1, s, t.items, rest);
    var end := foot + (EndTag(s.name) + ([NL] + rest));
    var inner := [Punct('>')] + (([NL] + body) + end);
    NoAttribute([], inner);
    assert [] + inner == inner;
    EnclosedParses(s.name, [], [], c1, s, t.items, foot, [NL] + rest);
    ContentStarts(lead, s.name, inner);
    assert XmlTag(s) == [Punct('<'), Word(s.name)] + [Punct('>'), NL];
    TagLayout(lead, s.name, [Punct('>'), NL], body + end);
    GtLayout(body, end);
  }

  lemma ArrayEnd(c: Context, s: Section, items: seq<Item>, rest: seq<Token>) returns (lead: seq<Token>)
    requires Inside(c, s) && |c.levels| > 1 && !c.priv.within && !s.hasVariableFields
    ensures Layout(lead)
    ensures Following(c, s, items, rest) ==
      Spread(WriteItems(c, items).1) + (lead + (EndTag(s.name) + ([NL] + rest)))
  {
    WithinAfter(c, items);
    NoMoreWithin(items);
    lead := FootLayout(s.name, WriteItems(c, items).0.priv.indent, rest);
  }

  /** When a footer is printed, within_tag says that this section's own start tag is still open: the section
      has a tag, and nothing inside it has been opened. */
  lemma WithinTagIsOwn(c: Context, t: Tree)
    requires c.levels != [] && c.priv.XmlPriv?
    ensures var c2 := WriteItems(Header(c, t.section).0, t.items).0;
      && c2.priv.XmlPriv?
      && (c2.priv.within <==>
            && !t.section.hasVariableFields && !t.section.isArray
            && forall i :: 0 <= i < |t.items| ==> !t.items[i].Sub?)
  {
    WithinAfter(Header(c, t.section).0, t.items);
    WithinMeansNoSubs(t.items, !t.section.hasVariableFields && !t.section.isArray);
  }

  lemma {:induction false} WithinMeansNoSubs(items: seq<Item>, within: bool)
    ensures StillWithin(items, within) <==> within && forall i :: 0 <= i < |items| ==> !items[i].Sub?
  {
    if items != [] {
      WithinMeansNoSubs(items[1..], within && !items[0].Sub?);
      assert forall i :: 0 <= i < |items[1..]| ==> items[1..][i] == items[i + 1];
    }
  }

  // ---- the printed tokens can be told apart -----------------------------------------------------

  /** Lexable on its own and before anything else the XML writer prints. */
  predicate Clean(ts: seq<Token>) { Linked(Xml, ts) && (ts != [] ==> !Open(ts[|ts| - 1])) }

  lemma CleanAppend(a: seq<Token>, b: seq<Token>)
    requires Clean(a) && Clean(b)
    ensures Clean(a + b)
  {
    LinkedAppend(Xml, a, b);
  }

  lemma CleanBlanks(n: int)
    ensures Clean([Indent(n)]) && Clean([NL]) && Clean([SP])
  {
    if n >= 1 { assert |Indent(n).s| == 4 * n; }
  }

  lemma CleanTag(name: string)
    requires IsName(name)
    ensures Clean([Punct('<'), Word(name), SP]) && Clean([Punct('<'), Word(name), Punct('>'), NL])
    ensures Clean([Punct('>'), NL]) && Clean([Punct('/'), Punct('>'), NL])
  {
  }

  lemma CleanEnd(name: string)
    requires IsName(name)
    ensures Clean([Punct('<'), Punct('/'), Word(name), Punct('>'), NL])
  {
  }

  lemma CleanAttribute(key: string, value: Token)
    requires IsName(key) && Lexable(Xml, value) && (value.Quoted? || value.Apos?)
    ensures Clean(Attribute(key, value))
  {
  }

  lemma CleanField(name: string, key: string, value: string)
    requires IsName(name)
    ensures Clean(FieldTokens(name, key, value))
  {
    CleanTag(name);
    CleanBlanks(0);
    CleanAttribute("key", Quoted(key));
    CleanAttribute("value", Quoted(value));
    CleanAppend(XmlAttribute("key", key), [SP]);
    CleanAppend(XmlAttribute("value", value), [Punct('/'), Punct('>'), NL]);
    CleanAppend([Punct('<'), Word(name), SP], XmlAttribute("key", key) + [SP]);
    CleanAppend([Punct('<'), Word(name), SP] + (XmlAttribute("key", key) + [SP]),
                XmlAttribute("value", value) + [Punct('/'), Punct('>'), NL]);
  }

  lemma CleanScalar(c: Context, s: Section, item: Item)
    requires Inside(c, s) && !item.Sub? && NamedItem(s, item) && FullItem(false, s, item)
    ensures Clean(Scalar(c, item).1)
  {
    var l := c.levels[|c.levels| - 1];
    CleanBlanks(c.priv.indent);
    if Printed(item) {
      if IsAttribute(s, item) {
        CleanAttribute(KeyOf(item), Quoted(Text(item)));
        CleanAppend(if l.nbItem != 0 then [SP] else [], XmlAttribute(KeyOf(item), Text(item)));
      } else {
        CleanField(s.elementName, KeyOf(item), Text(item));
        CleanAppend([Indent(c.priv.indent)], FieldTokens(s.elementName, KeyOf(item), Text(item)));
        FieldIsIndented(s, item, c.priv.indent);
        assert XmlItem(s, l.nbItem, item, c.priv.indent) == XmlItem(s, 0, item, c.priv.indent);
      }
    }
  }

  lemma CleanOpen(l: Level, s: Section, indent: int, within: bool, qualified: bool)
    requires WellNamed(s)
    ensures Clean(XmlOpen(Some(l), s, indent, within, qualified))
  {
    var gt := if within then [Punct('>'), NL] else [];
    var gap := if l.section.isWrapper && l.nbItem != 0 then [NL] else [];
    CleanTag(s.name);
    CleanBlanks(indent + 1);
    CleanAppend(gap, [Indent(indent + 1)]);
    CleanAppend(gap + [Indent(indent + 1)], XmlTag(s));
    CleanAppend(gt, if s.hasVariableFields then [] else XmlStart(l, s, indent + 1));
  }

  lemma CleanClose(p: Priv, level: nat, s: Section)
    requires WellNamed(s) && level > 0 && p.XmlPriv?
    ensures Clean(CloseTokens(p, level, s))
  {
    CleanTag(s.name);
    CleanEnd(s.name);
    CleanBlanks(p.indent);
    CleanAppend([Indent(p.indent)], [Punct('<'), Punct('/'), Word(s.name), Punct('>'), NL]);
  }

  lemma {:induction false} WriteIsClean(c: Context, t: Tree)
    requires c.levels != [] && c.priv.XmlPriv? && Named(t) && Full(false, t)
    ensures Clean(Write(c, t).1)
    decreases t, 0
  {
    var (c1, head) := Header(c, t.section);
    var (c2, body) := WriteItems(c1, t.items);
    assert Inside(c1, t.section);
    ItemsStayInside(c1, t.section, t.items);
    CleanOpen(Parent(c.levels).value, t.section, c.priv.indent, c.priv.within, c.priv.qualified);
    ItemsAreClean(c1, t.section, t.items);
    CleanClose(c2.priv, |c2.levels| - 1, t.section);
    CleanAppend(head, body);
    CleanAppend(head + body, Footer(c2).1);
  }

  lemma {:induction false} ItemsAreClean(c: Context, s: Section, items: seq<Item>)
    requires Inside(c, s) && NamedItems(s, items) && FullItems(false, s, items)
    ensures Clean(WriteItems(c, items).1)
    decreases items, 0
  {
    if items != [] {
      OneIsClean(c, s, items[0]);
      MovesOn(c, s, items[0]);
      var (c1, first) := WriteItem(c, items[0]);
      ItemsAreClean(c1, s, items[1..]);
      CleanAppend(first, WriteItems(c1, items[1..]).1);
    }
  }

  lemma {:induction false} OneIsClean(c: Context, s: Section, item: Item)
    requires Inside(c, s) && NamedItem(s, item) && FullItem(false, s, item)
    ensures Clean(WriteItem(c, item).1)
    decreases item, 1
  {
    if item.Sub? { WriteIsClean(c, item.tree); } else { CleanScalar(c, s, item); }
  }

  // ---- the whole output -----------------------------------------------------------------------

  /** The text printed for a whole tree. */
  function Output(t: Tree, qualified: bool): string {
    RenderAll(Xml, Write(Start(XmlPriv(0, false, qualified)), t).1)
  }

  lemma CleanDeclaration()
    ensures Clean(XmlDeclaration())
  {
    CleanBlanks(0);
    CleanAttribute("version", Quoted("1.0"));
    CleanAttribute("encoding", Quoted("UTF-8"));
    CleanAppend(XmlAttribute("version", "1.0"), [SP]);
    var end := [Punct('?'), Punct('>'), NL];
    assert Clean(end);
    CleanAppend(XmlAttribute("encoding", "UTF-8"), end);
    var start: seq<Token> := [Punct('<'), Punct('?'), Word("xml"), SP];
    assert Clean(start);
    CleanAppend(start, XmlAttribute("version", "1.0") + [SP]);
    CleanAppend(start + (XmlAttribute("version", "1.0") + [SP]), XmlAttribute("encoding", "UTF-8") + end);
  }

  /** A value without quotes, markup, tabs and line ends. */
  predicate Harmless(s: string) { forall c :: c in s ==> InApos(c) && IsChar(c) && c != '\t' && c != '\n' && c != '\r' }

  lemma HostIsHarmless()
    ensures Harmless("http://www.w3.org/2001/")
  {
  }

  lemma InstanceIsHarmless()
    ensures Harmless("XMLSchema-instance")
  {
  }

  lemma XsiIsHarmless()
    ensures Harmless(XSI)
  {
    HostIsHarmless();
    InstanceIsHarmless();
    assert XSI == "http://www.w3.org/2001/" + "XMLSchema-instance";
  }

  lemma SchemaHostIsHarmless()
    ensures Harmless("http://www.ffmpeg.org")
  {
  }

  lemma SchemaPathIsHarmless()
    ensures Harmless("/schema/ffprobe")
  {
  }

  lemma SchemaIsHarmless()
    ensures Harmless(SCHEMA)
  {
    SchemaHostIsHarmless();
    SchemaPathIsHarmless();
    assert SCHEMA == "http://www.ffmpeg.org" + "/schema/ffprobe";
  }

  lemma LocationIsHarmless()
    ensures Harmless(LOCATION)
  {
    SchemaIsHarmless();
    assert LOCATION == SCHEMA + " ffprobe.xsd";
    assert Harmless(" ffprobe.xsd");
  }

  lemma UrisAreHarmless()
    ensures Harmless(XSI) && Harmless(SCHEMA) && Harmless(LOCATION)
  {
    XsiIsHarmless();
    SchemaIsHarmless();
    LocationIsHarmless();
  }

  lemma {:induction false} NormaliseHarmless(s: string)
    requires Harmless(s)
    ensures Normalise(s) == s
  {
    if s != [] {
      assert s[0] in s && forall c :: c in s[1..] ==> c in s;
      NormaliseHarmless(s[1..]);
      assert [s[0]] + s[1..] == s;
    }
  }

  lemma CleanSpace(key: string, value: string)
    requires IsName(key) && Harmless(value)
    ensures Clean(XmlSpace(key, value))
  {
  }

  lemma SpaceNames()
    ensures IsName("xmlns:xsi") && IsName("xmlns:ffprobe") && IsName("xsi:schemaLocation")
    ensures IsName(XmlRoot(true)) && IsName(XmlRoot(false))
  {
  }

  lemma CleanSpaces()
    ensures Clean(XmlSpaces())
  {
    UrisAreHarmless();
    SpaceNames();
    CleanSpace("xmlns:xsi", XSI);
    CleanSpace("xmlns:ffprobe", SCHEMA);
    CleanSpace("xsi:schemaLocation", LOCATION);
    CleanAppend(XmlSpace("xmlns:ffprobe", SCHEMA), XmlSpace("xsi:schemaLocation", LOCATION));
    CleanAppend(XmlSpace("xmlns:xsi", XSI),
                XmlSpace("xmlns:ffprobe", SCHEMA) + XmlSpace("xsi:schemaLocation", LOCATION));
  }

  lemma CleanRootOpen(qualified: bool)
    ensures Clean(XmlRootOpen(qualified))
  {
    var start: seq<Token> := [Punct('<'), Word(XmlRoot(qualified))];
    var spaces := if qualified then XmlSpaces() else [];
    SpaceNames();
    CleanTag(XmlRoot(qualified));
    if qualified {
      CleanSpaces();
      assert Linked(Xml, start + spaces) by {
        assert spaces[0] == SP;
        LinkedAppend(Xml, start, spaces);
      }
      CleanAppend(start + spaces, [Punct('>'), NL]);
    } else {
      assert start + [] + [Punct('>'), NL] == [Punct('<'), Word(XmlRoot(qualified)), Punct('>'), NL];
    }
  }

  lemma SpaceParses(key: string, value: string, rest: seq<Token>)
    requires Harmless(value)
    ensures ParseAttributes(XmlSpace(key, value) + rest) ==
      ([(key, value)] + ParseAttributes(rest).0, ParseAttributes(rest).1)
  {
    NormaliseHarmless(value);
    AttributeParses([SP], key, Apos(value), rest);
    assert XmlSpace(key, value) + rest == [SP] + (Attribute(key, Apos(value)) + rest);
  }

  lemma SpacesAreUnique()
    ensures Unique(SpaceAttributes())
  {
    assert |"xmlns:xsi"| < |"xmlns:ffprobe"| < |"xsi:schemaLocation"|;
  }

  /** The namespace attributes are read, up to the end of the start tag. */
  lemma SpacesParse(ts: seq<Token>)
    requires ts != [] && !ts[0].Space? && !ts[0].Word?
    ensures ParseAttributes(XmlSpaces() + ts) == (SpaceAttributes(), ts) && Unique(SpaceAttributes())
  {
    var (a, b, c) :=
      (XmlSpace("xmlns:xsi", XSI), XmlSpace("xmlns:ffprobe", SCHEMA), XmlSpace("xsi:schemaLocation", LOCATION));
    UrisAreHarmless();
    NoAttribute([], ts);
    assert [] + ts == ts;
    SpaceParses("xsi:schemaLocation", LOCATION, ts);
    SpaceParses("xmlns:ffprobe", SCHEMA, c + ts);
    SpaceParses("xmlns:xsi", XSI, b + (c + ts));
    RegroupTokens(a, b + c, ts);
    RegroupTokens(b, c, ts);
    assert [("xsi:schemaLocation", LOCATION)] + [] == [("xsi:schemaLocation", LOCATION)];
    SpacesAreUnique();
  }

  /** The printed tokens of a whole document, piece by piece. */
  lemma RootLayout(t: Tree, qualified: bool)
    requires Named(t) && Full(false, t)
    ensures var ts := Write(Start(XmlPriv(0, false, qualified)), t).1;
      && Clean(ts)
      && Spread(ts) == XmlDeclaration() + RootTokens(t, qualified)
  {
    var c := Start(XmlPriv(0, false, qualified));
    var (c1, head) := Header(c, t.section);
    var (c2, body) := WriteItems(c1, t.items);
    var foot := Footer(c2).1;
    assert Inside(c1, t.section);
    ItemsRestore(c1, t.items);
    ItemsAreClean(c1, t.section, t.items);
    RootIsClean(qualified);
    CleanAppend(head, body);
    CleanAppend(head + body, foot);
    Spread3(head, body, foot, []);
    SpreadRoot(qualified);
    assert foot == [Punct('<'), Punct('/'), Word(XmlRoot(qualified)), Punct('>'), NL];
    RootRegroup(Spread(head + body + foot), Spread(body), qualified);
  }

  /** From the document element on. */
  function RootTokens(t: Tree, qualified: bool): seq<Token> {
    var open := if qualified then XmlSpaces() else [];
    var body := Spread(WriteItems(Header(Start(XmlPriv(0, false, qualified)), t.section).0, t.items).1);
    [Punct('<'), Word(XmlRoot(qualified))]
    + (open + ([Punct('>')] + (([NL] + body) + ([] + (EndTag(XmlRoot(qualified)) + [NL])))))
  }

  lemma RootIsClean(qualified: bool)
    ensures Clean(XmlDeclaration() + XmlRootOpen(qualified))
    ensures Clean([Punct('<'), Punct('/'), Word(XmlRoot(qualified)), Punct('>'), NL])
  {
    CleanDeclaration();
    CleanRootOpen(qualified);
    CleanAppend(XmlDeclaration(), XmlRootOpen(qualified));
    SpaceNames();
    CleanEnd(XmlRoot(qualified));
  }

  lemma DeclarationIsThin()
    ensures Thin(XmlDeclaration())
  {
  }

  lemma RootOpenIsThin(qualified: bool)
    ensures Thin(XmlRootOpen(qualified))
  {
    assert Thin(XmlSpaces());
  }

  lemma SpreadRoot(qualified: bool)
    ensures Spread(XmlDeclaration() + XmlRootOpen(qualified)) == XmlDeclaration() + XmlRootOpen(qualified)
    ensures var foot := [Punct('<'), Punct('/'), Word(XmlRoot(qualified)), Punct('>'), NL];
      Spread(foot) == foot
  {
    DeclarationIsThin();
    RootOpenIsThin(qualified);
    SpreadThin(XmlDeclaration() + XmlRootOpen(qualified));
    SpreadThin([Punct('<'), Punct('/'), Word(XmlRoot(qualified)), Punct('>'), NL]);
  }

  lemma RootRegroup(ts: seq<Token>, body: seq<Token>, qualified: bool)
    requires var name := XmlRoot(qualified);
      ts + [] == (XmlDeclaration() + XmlRootOpen(qualified))
                 + (body + ([Punct('<'), Punct('/'), Word(name), Punct('>'), NL] + []))
    ensures var (name, open) := (XmlRoot(qualified), if qualified then XmlSpaces() else []);
      ts == XmlDeclaration()
            + ([Punct('<'), Word(name)]
               + (open + ([Punct('>')] + (([NL] + body) + ([] + (EndTag(name) + [NL]))))))
  {
    var name := XmlRoot(qualified);
    var open := if qualified then XmlSpaces() else [];
    var end := [Punct('<'), Punct('/'), Word(name), Punct('>'), NL];
    assert ts + [] == ts && end + [] == end;
    EndLine(name, []);
    assert [NL] + [] == [NL] && end == [] + (EndTag(name) + [NL]);
    RegroupTokens(XmlDeclaration(), XmlRootOpen(qualified), body + end);
    RegroupTokens([Punct('<'), Word(name)], open, [Punct('>'), NL]);
    RegroupTokens([Punct('<'), Word(name)], open + [Punct('>'), NL], body + end);
    RegroupTokens(open, [Punct('>'), NL], body + end);
    GtLayout(body, end);
  }

  lemma DeclarationLayout(rest: seq<Token>)
    ensures var ts := XmlDeclaration() + rest;
      && |ts| >= 3 && ts[..3] == [Punct('<'), Punct('?'), Word("xml")]
      && ts[3..] == [SP] + (Attribute("version", Quoted("1.0"))
                            + ([SP] + (Attribute("encoding", Quoted("UTF-8"))
                               + ([Punct('?'), Punct('>')] + ([NL] + rest)))))
  {
  }

  lemma VersionIsHarmless()
    ensures Chars("1.0") && Normalise("1.0") == "1.0" && Chars("UTF-8") && Normalise("UTF-8") == "UTF-8"
  {
    assert Harmless("1.0") && Harmless("UTF-8");
    NormaliseHarmless("1.0");
    NormaliseHarmless("UTF-8");
  }

  lemma DeclarationParses(rest: seq<Token>)
    ensures var ts := XmlDeclaration() + rest;
      && |ts| >= 3 && ts[..3] == [Punct('<'), Punct('?'), Word("xml")]
      && var (declaration, after) := ParseAttributes(ts[3..]);
         IsDeclaration(declaration) && SkipBlanks(after) == [Punct('?'), Punct('>')] + ([NL] + rest)
  {
    var end := [Punct('?'), Punct('>')] + ([NL] + rest);
    DeclarationLayout(rest);
    VersionIsHarmless();
    TwoAttributes("version", "1.0", "encoding", "UTF-8", end);
  }

  lemma RootParses(t: Tree, qualified: bool)
    requires Named(t) && Full(false, t)
    ensures ParseElement(RootTokens(t, qualified)) ==
      if GoodItems(t.section, t.items, false) then Done(Document(t, qualified, true), [NL]) else Fail
  {
    var c1 := Header(Start(XmlPriv(0, false, qualified)), t.section).0;
    var (name, open) := (XmlRoot(qualified), if qualified then XmlSpaces() else []);
    assert Inside(c1, t.section);
    var inner := [Punct('>')] + (([NL] + Spread(WriteItems(c1, t.items).1)) + ([] + (EndTag(name) + [NL])));
    if qualified {
      SpacesParse(inner);
    } else {
      NoAttribute([], inner);
      assert [] + inner == inner;
    }
    EnclosedParses(name, open, if qualified then SpaceAttributes() else [], c1, t.section, t.items, [], [NL]);
  }

  lemma FullTreeReads(t: Tree, qualified: bool)
    requires Named(t) && Full(false, t)
    ensures ParseXml(Output(t, qualified)) ==
      if GoodItems(t.section, t.items, false) then Some(Document(t, qualified, true)) else None
  {
    var element := RootTokens(t, qualified);
    RootLayout(t, qualified);
    LexRender(Xml, Write(Start(XmlPriv(0, false, qualified)), t).1);
    DeclarationParses(element);
    assert ([Punct('?'), Punct('>')] + ([NL] + element))[2..] == [NL] + element;
    SkipTo([NL], element);
    RootParses(t, qualified);
    assert SkipBlanks([NL]) == [];
  }

  /** What a reader reports of the output: the document for what was selected, with blanks for tabs and line ends in
      values, when attributes only stand in open start tags, differ in their keys, and all characters are allowed.
      Otherwise the output is no XML document, or holds text besides elements. */
  lemma ReadsOutput(t: Tree, qualified: bool)
    requires Named(Selected(false, t))
    ensures var kept := Selected(false, t);
      ParseXml(Output(t, qualified)) ==
        if GoodItems(kept.section, kept.items, false) then Some(Document(kept, qualified, true)) else None
  {
    PrintsSelected(XmlPriv(0, false, qualified), t);
    SelectedIsFull(false, t);
    FullTreeReads(Selected(false, t), qualified);
  }

  // ---- when what is read is the tree itself -----------------------------------------------------

  /** No tab and no line end. */
  predicate Plain(s: string) { forall c :: c in s ==> c != '\t' && c != '\n' && c != '\r' }

  predicate PlainItems(s: Section, items: seq<Item>)
    decreases items, 0
  {
    items != [] ==> PlainItem(s, items[0]) && PlainItems(s, items[1..])
  }

  predicate PlainItem(s: Section, item: Item)
    decreases item, 1
  {
    match item
    case Sub(t) => PlainItems(t.section, t.items)
    case _ => Printed(item) ==> Plain(Text(item)) && (IsAttribute(s, item) || Plain(KeyOf(item)))
  }

  lemma {:induction false} NormaliseShortens(s: string)
    ensures |Normalise(s)| <= |s|
    decreases |s|
  {
    if s == [] {
    } else if s[0] == '\r' && |s| > 1 && s[1] == '\n' {
      NormaliseShortens(s[2..]);
    } else {
      NormaliseShortens(s[1..]);
    }
  }

  /** Exactly the plain strings are reported as they are. */
  lemma {:induction false} PlainIsKept(s: string)
    ensures Normalise(s) == s <==> Plain(s)
    decreases |s|
  {
    if s == [] {
    } else if s[0] == '\r' && |s| > 1 && s[1] == '\n' {
      NormaliseShortens(s[2..]);
      assert s[0] in s;
    } else {
      PlainIsKept(s[1..]);
      assert s == [s[0]] + s[1..] && Normalise(s)[1..] == Normalise(s[1..]);
      assert s[0] in s && forall c :: c in s <==> c == s[0] || c in s[1..];
    }
  }

  lemma Cancel<T>(a: seq<T>, b: seq<T>, c: seq<T>, d: seq<T>)
    requires |a| == |c|
    ensures a + b == c + d <==> a == c && b == d
  {
    if a + b == c + d {
      assert a == (a + b)[..|a|] == (c + d)[..|c|] == c;
      assert b == (a + b)[|a|..] == (c + d)[|c|..] == d;
    }
  }

  lemma {:induction false} SameShape(s: Section, items: seq<Item>)
    ensures |Children(s, items, true)| == |Children(s, items, false)|
    decreases items, 0
  {
    if items != [] {
      SameShapeOne(s, items[0]);
      SameShape(s, items[1..]);
    }
  }

  lemma {:induction false} SameShapeOne(s: Section, item: Item)
    ensures |Child(s, item, true)| == |Child(s, item, false)|
    decreases item, 1
  {
    if item.Sub? { SameShape(item.tree.section, item.tree.items); }
  }

  predicate SameRead(s: Section, items: seq<Item>) {
    Attributes(s, items, true) == Attributes(s, items, false) && Children(s, items, true) == Children(s, items, false)
  }

  lemma {:induction false} PlainItemsAreKept(s: Section, items: seq<Item>, within: bool)
    requires GoodItems(s, items, within)
    ensures SameRead(s, items) <==> PlainItems(s, items)
    decreases items, 0
  {
    if items != [] {
      var (item, more) := (items[0], items[1..]);
      PlainItemsAreKept(s, more, within && !item.Sub?);
      PlainItemIsKept(s, item, within);
      SameShapeOne(s, item);
      Cancel(Child(s, item, true), Children(s, more, true), Child(s, item, false), Children(s, more, false));
      Cancel(OwnAttribute(s, item, true), Attributes(s, more, true),
             OwnAttribute(s, item, false), Attributes(s, more, false));
    }
  }

  function OwnAttribute(s: Section, item: Item, read: bool): seq<(string, string)> {
    if IsAttribute(s, item) then [(KeyOf(item), Reported(Text(item), read))] else []
  }

  lemma {:induction false} PlainItemIsKept(s: Section, item: Item, within: bool)
    requires GoodItem(s, item, within)
    ensures OwnAttribute(s, item, true) == OwnAttribute(s, item, false) && Child(s, item, true) == Child(s, item, false)
      <==> PlainItem(s, item)
    decreases item, 1
  {
    if item.Sub? {
      PlainTreeIsKept(item.tree);
    } else if Printed(item) {
      PlainIsKept(Text(item));
      PlainIsKept(KeyOf(item));
    }
  }

  lemma {:induction false} PlainTreeIsKept(t: Tree)
    requires Good(t)
    ensures Nodes(t, true) == Nodes(t, false) <==> PlainItems(t.section, t.items)
    decreases t, 0
  {
    var (s, bare) := (t.section, t.section.hasVariableFields || t.section.isArray);
    PlainItemsAreKept(s, t.items, !bare);
    if bare {
      NoMoreAttributes(s, t.items, true);
      NoMoreAttributes(s, t.items, false);
    }
  }

  /** For every section tree whose names are names: a conforming reader gets what was selected of the tree back from
      the output, with its attributes and elements in order, exactly when attributes are only printed in open start
      tags and differ in their keys, all characters are XML characters, and printed values and keys hold no tabs
      and line ends. */
  lemma XmlRoundTrip(t: Tree, qualified: bool)
    requires Named(Selected(false, t))
    ensures var kept := Selected(false, t);
      ParseXml(Output(t, qualified)) == Some(Document(kept, qualified, false)) <==>
        GoodItems(kept.section, kept.items, false) && PlainItems(kept.section, kept.items)
  {
    ReadsOutput(t, qualified);
    var kept := Selected(false, t);
    if GoodItems(kept.section, kept.items, false) {
      PlainItemsAreKept(kept.section, kept.items, false);
      NoMoreAttributes(kept.section, kept.items, true);
      NoMoreAttributes(kept.section, kept.items, false);
    }
  }

  const PLAIN_SECTION := Section("format", false, false, false, false, false, "", true, {})

  /** A section with one value. */
  function One(value: string): Tree { Tree(PLAIN_SECTION, [Str("comment", false, AsGiven(value))]) }

  /** A root section around it. */
  function Holding(value: string): Tree { Tree(PLAIN_SECTION, [Sub(One(value))]) }

  lemma OneMeans(value: string, read: bool)
    ensures Named(One(value)) && Full(false, One(value)) && (Good(One(value)) <==> Chars(value))
    ensures Nodes(One(value), read) == [Element("format", [("comment", Reported(value, read))], [])]
  {
    var t := One(value);
    assert t.items[1..] == [];
    assert IsAttribute(PLAIN_SECTION, t.items[0]) && IsName("format") && IsName("comment");
    assert forall r :: Attributes(PLAIN_SECTION, t.items, r) == [("comment", Reported(value, r))];
    assert Unique(Attributes(PLAIN_SECTION, t.items, true));
    assert NamedItems(PLAIN_SECTION, t.items) && (GoodItems(PLAIN_SECTION, t.items, true) <==> Chars(value));
    assert Children(PLAIN_SECTION, t.items, read) == [];
  }

  lemma HoldingMeans(value: string, read: bool)
    ensures Named(Holding(value)) && Full(false, Holding(value))
    ensures (GoodItems(PLAIN_SECTION, Holding(value).items, false) <==> Chars(value))
    ensures Children(PLAIN_SECTION, Holding(value).items, read) == Nodes(One(value), read)
  {
    var t := Holding(value);
    OneMeans(value, read);
    assert t.items[1..] == [] && Child(PLAIN_SECTION, t.items[0], read) == Nodes(One(value), read);
    assert NamedItem(PLAIN_SECTION, t.items[0]) && NamedItems(PLAIN_SECTION, t.items[1..]);
    assert FullItem(false, PLAIN_SECTION, t.items[0]) && FullItems(false, PLAIN_SECTION, t.items[1..]);
    assert GoodItem(PLAIN_SECTION, t.items[0], false) <==> Good(One(value));
    assert Nodes(One(value), read) + [] == Nodes(One(value), read);
  }

  /** A line end in a value comes back as a blank. */
  lemma LineEndIsLost(qualified: bool)
    ensures ParseXml(Output(Holding("a\nb"), qualified)) == Some(Document(Holding("a b"), qualified, false))
  {
    LineEndIsBlank();
    HoldingMeans("a\nb", true);
    HoldingMeans("a b", false);
    OneMeans("a\nb", true);
    OneMeans("a b", false);
    FullTreeReads(Holding("a\nb"), qualified);
  }

  /** A control character makes the output no XML at all. */
  lemma ControlCharacterIsFatal(qualified: bool)
    ensures ParseXml(Output(Holding([1 as char]), qualified)) == None
  {
    var bad: string := [1 as char];
    assert bad[0] in bad && !Chars(bad);
    HoldingMeans(bad, true);
    FullTreeReads(Holding(bad), qualified);
  }

  lemma LineEndIsBlank()
    ensures Chars("a\nb") && Normalise("a\nb") == "a b"
  {
    assert "a\nb"[1..] == "\nb" && "\nb"[1..] == "b" && "b"[1..] == "";
    assert Normalise("b") == "b" && Normalise("\nb") == " b";
  }
}
