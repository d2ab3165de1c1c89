/** ffprobe's section writers: the shared context (section stack and item counters) and what the JSON,
    XML and CSV printers write for a section header, a section footer and a key-value pair. */
module Writers {
  import opened Common
  import opened Escapes
  import opened Tokens

  /** An entry of the section table, and which of its keys -show_entries selects. */
  datatype Section = Section(
    name: string,
    isWrapper: bool,
    isArray: bool,
    hasVariableFields: bool,
    packetsAndFrames: bool,
    isPacket: bool,
    elementName: string,
    showAll: bool,
    entries: set<string>)

  /** What the table promises of names. */
  predicate WellNamed(s: Section) { IsName(s.name) && (s.hasVariableFields ==> IsName(s.elementName)) }

  /** A section that is open, and how many items it counts. */
  datatype Level = Level(section: Section, nbItem: nat)

  /** The private state of the writer in use: compact JSON, fully qualified XML, CSV without keys. */
  datatype Priv =
    | JsonPriv(indent: int, compact: bool)
    | XmlPriv(indent: int, within: bool, qualified: bool)
    | CsvPriv(sep: char, nokey: bool)

  /** Packets and frames printed in the current mixed list, and the number of the one being printed. */
  datatype Counts = Counts(packets: nat, frames: nat, number: nat)

  datatype Context = Context(levels: seq<Level>, priv: Priv, counts: Counts)

  /** A writer before its first section. */
  function Start(p: Priv): Context { Context([], p, Counts(0, 0, 0)) }

  /** The string arguments of writer_print_string: printed as given, printed as validation returns them,
      or found invalid. */
  datatype Value = AsGiven(s: string) | Validated(key: string, s: string) | Invalid

  datatype Item = Str(key: string, optional: bool, value: Value) | Int(key: string, n: int) | Sub(tree: Tree)

  /** A section with its items in the order they are written. */
  datatype Tree = Tree(section: Section, items: seq<Item>)

  const SECTION_MAX_NB_LEVELS := 10

  // ---- which items count, which are printed ---------------------------------------------------

  function StyleOf(p: Priv): Style { if p.XmlPriv? then Xml else Json }

  /** Only the CSV writer displays optional fields. */
  predicate Visible(p: Priv, s: Section, item: Item) {
    match item
    case Str(key, optional, _) => (optional ==> p.CsvPriv?) && (s.showAll || key in s.entries)
    case Int(key, _) => s.showAll || key in s.entries
    case Sub(_) => true
  }

  /** A string that fails validation is counted but not printed. */
  predicate Printed(item: Item) { item.Str? ==> !item.value.Invalid? }

  function KeyOf(item: Item): string
    requires !item.Sub?
  {
    if item.Str? && item.value.Validated? then item.value.key else item.key
  }

  // ---- JSON -----------------------------------------------------------------------------------

  /** JSON_INDENT and XML_INDENT: a blank padded to four columns a level. */
  function Indent(n: int): Token { Space(if n < 1 then " " else seq(4 * n, _ => ' ')) }

  function ItemSep(compact: bool): seq<Token> { [Punct(','), Space(if compact then " " else "\n")] }

  function StartEnd(compact: bool): Token { Space(if compact then " " else "\n") }

  function Key(s: string): seq<Token> { [Quoted(s), Punct(':'), Space(" ")] }

  function IndentUnless(compact: bool, n: int): seq<Token> { if compact then [] else [Indent(n)] }

  function JsonComma(parent: Option<Level>): seq<Token> {
    if parent.Some? && parent.value.nbItem != 0 then [Punct(','), Space("\n")] else []
  }

  function JsonOpen(parent: Option<Level>, s: Section, indent: int, compact: bool): seq<Token> {
    if s.isWrapper then [Punct('{'), Space("\n")]
    else if s.isArray then [Indent(indent)] + Key(s.name) + [Punct('['), Space("\n")]
    else if parent.Some? && !parent.value.section.isArray then
      [Indent(indent)] + Key(s.name) + [Punct('{'), StartEnd(compact)]
    else
      [Indent(indent)] + [Punct('{'), StartEnd(compact)]
      + if parent.Some? && parent.value.section.packetsAndFrames then
          IndentUnless(compact, indent + 1) + Key("type") + [Quoted(s.name)] + ItemSep(compact)
        else []
  }

  function JsonClose(level: int, s: Section, indent: int, compact: bool): seq<Token> {
    if level == 0 then [Space("\n"), Punct('}'), Space("\n")]
    else if s.isArray then [Space("\n")] + [Indent(indent - 1)] + [Punct(']')]
    else [StartEnd(compact)] + IndentUnless(compact, indent - 1) + [Punct('}')]
  }

  function JsonItem(nbItem: nat, key: string, value: Token, indent: int, compact: bool): seq<Token> {
    (if nbItem != 0 then ItemSep(compact) else []) + IndentUnless(compact, indent) + Key(key) + [value]
  }

  // ---- XML ------------------------------------------------------------------------------------

  function XmlAttribute(key: string, value: string): seq<Token> { [Word(key), Punct('='), Quoted(value)] }

  /** The XML declaration. */
  function XmlDeclaration(): seq<Token> {
    [Punct('<'), Punct('?'), Word("xml"), Space(" ")]
    + (XmlAttribute("version", "1.0") + [Space(" ")])
    + (XmlAttribute("encoding", "UTF-8") + [Punct('?'), Punct('>'), Space("\n")])
  }

  function XmlRoot(qualified: bool): string { if qualified then "ffprobe:ffprobe" else "ffprobe" }

  const XSI := "http://www.w3.org/2001/XMLSchema-instance"
  const SCHEMA := "http://www.ffmpeg.org/schema/ffprobe"
  const LOCATION := "http://www.ffmpeg.org/schema/ffprobe ffprobe.xsd"

  function XmlSpace(key: string, value: string): seq<Token> { [Space(" "), Word(key), Punct('='), Apos(value)] }

  /** The namespace attributes of the fully qualified form, in single quotes. */
  function XmlSpaces(): seq<Token> {
    XmlSpace("xmlns:xsi", XSI) + (XmlSpace("xmlns:ffprobe", SCHEMA) + XmlSpace("xsi:schemaLocation", LOCATION))
  }

  function XmlRootOpen(qualified: bool): seq<Token> {
    [Punct('<'), Word(XmlRoot(qualified))] + (if qualified then XmlSpaces() else []) + [Punct('>'), Space("\n")]
  }

  function XmlOpen(parent: Option<Level>, s: Section, indent: int, within: bool, qualified: bool): seq<Token> {
    if parent.None? then XmlDeclaration() + XmlRootOpen(qualified)
    else
      (if within then [Punct('>'), Space("\n")] else [])
      + if s.hasVariableFields then [] else XmlStart(parent.value, s, indent + 1)
  }

  function XmlStart(parent: Level, s: Section, indent: int): seq<Token> {
    (if parent.section.isWrapper && parent.nbItem != 0 then [Space("\n")] else [])
    + [Indent(indent)] + XmlTag(s)
  }

  /** A finished start tag for an array, an unfinished one for the rest. */
  function XmlTag(s: Section): seq<Token> {
    if s.isArray then [Punct('<'), Word(s.name), Punct('>'), Space("\n")] else [Punct('<'), Word(s.name), Space(" ")]
  }

  function XmlClose(level: int, s: Section, indent: int, within: bool, qualified: bool): seq<Token> {
    if level == 0 then [Punct('<'), Punct('/'), Word(XmlRoot(qualified)), Punct('>'), Space("\n")]
    else if within then [Punct('/'), Punct('>'), Space("\n")]
    else if s.hasVariableFields then []
    else [Indent(indent)] + [Punct('<'), Punct('/'), Word(s.name), Punct('>'), Space("\n")]
  }

  /** In a section with variable fields a string becomes an element of its own; an integer never does. */
  function XmlItem(s: Section, nbItem: nat, item: Item, indent: int): seq<Token>
    requires !item.Sub? && Printed(item)
  {
    if item.Str? && s.hasVariableFields then
      [Indent(indent)] + [Punct('<'), Word(s.elementName), Space(" ")]
      + (XmlAttribute("key", KeyOf(item)) + [Space(" ")])
      + (XmlAttribute("value", item.value.s) + [Punct('/'), Punct('>'), Space("\n")])
    else
      (if nbItem != 0 then [Space(" ")] else [])
      + XmlAttribute(KeyOf(item), if item.Str? then item.value.s else Decimal(item.n))
  }

  // ---- CSV: the compact writer with its csv defaults ------------------------------------------

  predicate NeedsQuoting(s: string, sep: char) {
    exists c :: c in s && (c == sep || c == '"' || c == '\n' || c == '\r')
  }

  function DoubleQuotes(s: string): string {
    if s == [] then [] else (if s[0] == '"' then "\"\"" else [s[0]]) + DoubleQuotes(s[1..])
  }

  /** csv_escape_str */
  function CsvEscape(s: string, sep: char): string {
    if NeedsQuoting(s, sep) then "\"" + DoubleQuotes(s) + "\"" else DoubleQuotes(s)
  }

  function CsvOpen(s: Section, sep: char): seq<Token> {
    if s.isWrapper || s.isArray then [] else [Raw(s.name), Raw([sep])]
  }

  function CsvClose(s: Section): seq<Token> { if s.isWrapper || s.isArray then [] else [Raw("\n")] }

  function CsvItem(nbItem: nat, item: Item, sep: char, nokey: bool): seq<Token>
    requires !item.Sub? && Printed(item)
  {
    (if nbItem != 0 then [Raw([sep])] else [])
    + (if nokey then [] else [Raw(KeyOf(item)), Raw("=")])
    + [Raw(if item.Str? then CsvEscape(item.value.s, sep) else Decimal(item.n))]
  }

  /** A section the compact writer would print inside its parent's line. */
  predicate Nested(parent: Option<Level>, s: Section) {
    !s.isArray && parent.Some? && !parent.value.section.isWrapper && !parent.value.section.isArray
  }

  // ---- the three calls ------------------------------------------------------------------------

  function Parent(levels: seq<Level>): Option<Level> {
    if levels == [] then None else Some(levels[|levels| - 1])
  }

  /** What nb_section_packet, nb_section_frame and nb_section_packet_frame become at a header. */
  function CountsAtHeader(k: Counts, parent: Option<Level>, s: Section): Counts {
    if s.packetsAndFrames then Counts(0, 0, 0)
    else if parent.Some? && parent.value.section.packetsAndFrames then
      k.(number := if s.isPacket then k.packets else k.frames)
    else k
  }

  function CountsAtFooter(k: Counts, parent: Option<Level>, s: Section): Counts {
    if parent.None? || !parent.value.section.packetsAndFrames then k
    else if s.isPacket then k.(packets := k.packets + 1)
    else k.(frames := k.frames + 1)
  }

  function PrivAfterHeader(p: Priv, parent: Option<Level>, s: Section): Priv {
    match p
    case JsonPriv(indent, compact) => JsonPriv(indent + 1, compact)
    case XmlPriv(indent, _, qualified) =>
      if parent.None? then p else XmlPriv(indent + 1, !s.hasVariableFields && !s.isArray, qualified)
    case CsvPriv(_, _) => p
  }

  function OpenTokens(p: Priv, parent: Option<Level>, s: Section): seq<Token> {
    match p
    case JsonPriv(indent, compact) => JsonComma(parent) + JsonOpen(parent, s, indent, compact)
    case XmlPriv(indent, within, qualified) => XmlOpen(parent, s, indent, within, qualified)
    case CsvPriv(sep, _) => CsvOpen(s, sep)
  }

  /** writer_print_section_header: the new context and what is printed. */
  function Header(c: Context, s: Section): (Context, seq<Token>) {
    var parent := Parent(c.levels);
    (Context(c.levels + [Level(s, 0)], PrivAfterHeader(c.priv, parent, s), CountsAtHeader(c.counts, parent, s)),
     OpenTokens(c.priv, parent, s))
  }

  function CountItem(levels: seq<Level>): seq<Level> {
    if levels == [] then []
    else
      var last := levels[|levels| - 1];
      levels[|levels| - 1 := last.(nbItem := last.nbItem + 1)]
  }

  function PrivAfterFooter(p: Priv, level: nat): Priv {
    match p
    case JsonPriv(indent, compact) => JsonPriv(indent - 1, compact)
    case XmlPriv(indent, _, qualified) => if level == 0 then p else XmlPriv(indent - 1, false, qualified)
    case CsvPriv(_, _) => p
  }

  function CloseTokens(p: Priv, level: nat, s: Section): seq<Token> {
    match p
    case JsonPriv(indent, compact) => JsonClose(level, s, indent, compact)
    case XmlPriv(indent, within, qualified) => XmlClose(level, s, indent, within, qualified)
    case CsvPriv(_, _) => CsvClose(s)
  }

  /** writer_print_section_footer */
  function Footer(c: Context): (Context, seq<Token>)
    requires c.levels != []
  {
    var level := |c.levels| - 1;
    var s := c.levels[level].section;
    (Context(CountItem(c.levels[..level]), PrivAfterFooter(c.priv, level),
             CountsAtFooter(c.counts, Parent(c.levels[..level]), s)),
     CloseTokens(c.priv, level, s))
  }

  function ScalarTokens(p: Priv, l: Level, item: Item): seq<Token>
    requires !item.Sub? && Printed(item)
  {
    match p
    case JsonPriv(indent, compact) =>
      JsonItem(l.nbItem, KeyOf(item), if item.Str? then Quoted(item.value.s) else Number(item.n), indent, compact)
    case XmlPriv(indent, _, _) => XmlItem(l.section, l.nbItem, item, indent)
    case CsvPriv(sep, nokey) => CsvItem(l.nbItem, item, sep, nokey)
  }

  /** writer_print_string and writer_print_integer */
  function Scalar(c: Context, item: Item): (Context, seq<Token>)
    requires c.levels != [] && !item.Sub?
  {
    var l := c.levels[|c.levels| - 1];
    if !Visible(c.priv, l.section, item) then (c, [])
    else (c.(levels := CountItem(c.levels)), if Printed(item) then ScalarTokens(c.priv, l, item) else [])
  }

  // ---- a whole section tree -------------------------------------------------------------------

  /** Header, items in order, footer. */
  function Write(c: Context, t: Tree): (r: (Context, seq<Token>))
    ensures |r.0.levels| == |c.levels|
    decreases t, 0
  {
    var (c1, head) := Header(c, t.section);
    var (c2, body) := WriteItems(c1, t.items);
    var (c3, foot) := Footer(c2);
    (c3, head + body + foot)
  }

  function WriteItems(c: Context, items: seq<Item>): (r: (Context, seq<Token>))
    requires c.levels != []
    ensures |r.0.levels| == |c.levels|
    decreases items, 0
  {
    if items == [] then (c, [])
    else
      var (c1, first) := WriteItem(c, items[0]);
      var (c2, rest) := WriteItems(c1, items[1..]);
      (c2, first + rest)
  }

  function WriteItem(c: Context, item: Item): (r: (Context, seq<Token>))
    requires c.levels != []
    ensures |r.0.levels| == |c.levels|
    decreases item, 1
  {
    match item
    case Sub(t) => Write(c, t)
    case _ => Scalar(c, item)
  }

  // ---- what the context is after a subtree ----------------------------------------------------

  predicate SameXml(p: Priv, q: Priv)
    requires p.XmlPriv?
  {
    q.XmlPriv? && q.indent == p.indent && q.qualified == p.qualified
  }

  /** Writing a subtree only counts one item in the section it is in. */
  lemma {:induction false} WriteRestores(c: Context, t: Tree)
    ensures var c' := Write(c, t).0;
      && c'.levels == CountItem(c.levels)
      && (c.priv.JsonPriv? || c.priv.CsvPriv? ==> c'.priv == c.priv)
      && (c.priv.XmlPriv? ==> c'.priv.XmlPriv? && c'.priv.qualified == c.priv.qualified)
      && (c.priv.XmlPriv? && c.levels != [] ==> c'.priv == XmlPriv(c.priv.indent, false, c.priv.qualified))
    decreases t, 0
  {
    var c1 := Header(c, t.section).0;
    ItemsRestore(c1, t.items);
    assert c1.levels[..|c.levels|] == c.levels;
  }

  /** Writing items only counts them in the section they are in. */
  lemma {:induction false} ItemsRestore(c: Context, items: seq<Item>)
    requires c.levels != []
    ensures var c' := WriteItems(c, items).0;
      && c'.levels[..|c.levels| - 1] == c.levels[..|c.levels| - 1]
      && c'.levels[|c.levels| - 1].section == c.levels[|c.levels| - 1].section
      && (c.priv.JsonPriv? || c.priv.CsvPriv? ==> c'.priv == c.priv)
      && (c.priv.XmlPriv? ==> SameXml(c.priv, c'.priv))
    decreases items, 0
  {
    if items != [] {
      ItemRestores(c, items[0]);
      ItemsRestore(WriteItem(c, items[0]).0, items[1..]);
    }
  }

  lemma {:induction false} ItemRestores(c: Context, item: Item)
    requires c.levels != []
    ensures var c' := WriteItem(c, item).0;
      && c'.levels == (if item.Sub? || Visible(c.priv, c.levels[|c.levels| - 1].section, item)
                       then CountItem(c.levels) else c.levels)
      && (c.priv.JsonPriv? || c.priv.CsvPriv? ==> c'.priv == c.priv)
      && (c.priv.XmlPriv? ==> SameXml(c.priv, c'.priv) && (item.Sub? ==> !c'.priv.within))
    decreases item, 1
  {
    if item.Sub? {
      WriteRestores(c, item.tree);
    }
  }

  /** The open section's level after one item. */
  lemma LevelMoves(c: Context, item: Item)
    requires c.levels != []
    ensures var c' := WriteItem(c, item).0; var l := c.levels[|c.levels| - 1];
      && |c'.levels| == |c.levels|
      && c'.levels[|c.levels| - 1] == l.(nbItem := if Visible(c.priv, l.section, item) then l.nbItem + 1 else l.nbItem)
      && (c.priv.JsonPriv? || c.priv.CsvPriv? ==> c'.priv == c.priv)
      && (c.priv.XmlPriv? ==> SameXml(c.priv, c'.priv) && (item.Sub? ==> !c'.priv.within))
      && (!item.Sub? ==> c'.priv == c.priv)
  {
    ItemRestores(c, item);
  }

  // ---- compact output ---------------------------------------------------------------------------

  predicate OneLine(ts: seq<Token>) { forall t :: t in ts && t.Space? ==> '\n' !in t.s }

  predicate Scalars(items: seq<Item>) { forall item :: item in items ==> !item.Sub? }

  lemma {:induction false} ScalarsOnOneLine(c: Context, items: seq<Item>)
    requires c.levels != [] && c.priv.JsonPriv? && c.priv.compact && Scalars(items)
    ensures OneLine(WriteItems(c, items).1)
    decreases |items|
  {
    if items != [] {
      assert items[0] in items && forall item :: item in items[1..] ==> item in items;
      LevelMoves(c, items[0]);
      ScalarsOnOneLine(WriteItem(c, items[0]).0, items[1..]);
    }
  }

  /** In compact JSON an object without subsections stands on one line, but for the line break after the comma that
      separates it from what comes before. */
  lemma CompactIsOneLine(c: Context, t: Tree)
    requires c.levels != [] && c.priv.JsonPriv? && c.priv.compact && Scalars(t.items)
    requires !t.section.isArray && !t.section.isWrapper
    ensures var ts := Write(c, t).1;
      JsonComma(Parent(c.levels)) <= ts && OneLine(ts[|JsonComma(Parent(c.levels))|..])
  {
    var (c1, head) := Header(c, t.section);
    var (c2, body) := WriteItems(c1, t.items);
    var foot := Footer(c2).1;
    var comma := JsonComma(Parent(c.levels));
    var open := JsonOpen(Parent(c.levels), t.section, c.priv.indent, true);
    ScalarsOnOneLine(c1, t.items);
    ItemsRestore(c1, t.items);
    OpenIsOneLine(Parent(c.levels), t.section, c.priv.indent);
    AfterComma(comma, open, body, foot);
  }

  lemma AfterComma(comma: seq<Token>, open: seq<Token>, body: seq<Token>, foot: seq<Token>)
    requires OneLine(open) && OneLine(body) && OneLine(foot)
    ensures var ts := comma + open + body + foot; comma <= ts && OneLine(ts[|comma|..])
  {
    assert (comma + open + body + foot)[|comma|..] == open + body + foot;
  }

  lemma OpenIsOneLine(parent: Option<Level>, s: Section, indent: int)
    requires !s.isArray && !s.isWrapper
    ensures OneLine(JsonOpen(parent, s, indent, true))
  {
    assert '\n' !in Indent(indent).s;
  }

  // ---- the numbers of packets and frames --------------------------------------------------------

  /** No mixed list of packets and frames, and none inside. */
  predicate Unlisted(t: Tree)
    decreases t, 0
  {
    !t.section.packetsAndFrames && UnlistedItems(t.items)
  }

  predicate UnlistedItems(items: seq<Item>)
    decreases items, 0
  {
    items != [] ==> UnlistedItem(items[0]) && UnlistedItems(items[1..])
  }

  predicate UnlistedItem(item: Item)
    decreases item, 1
  {
    item.Sub? ==> Unlisted(item.tree)
  }

  predicate InList(c: Context) { c.levels != [] && c.levels[|c.levels| - 1].section.packetsAndFrames }

  lemma {:induction false} CountsKept(c: Context, items: seq<Item>)
    requires c.levels != [] && !InList(c) && UnlistedItems(items)
    ensures WriteItems(c, items).0.counts == c.counts
    decreases items, 0
  {
    if items != [] {
      LevelMoves(c, items[0]);
      ItemCounts(c, items[0]);
      assert items[0].Sub? ==> Unlisted(items[0].tree);
      CountsKept(WriteItem(c, items[0]).0, items[1..]);
    }
  }

  lemma {:induction false} ItemCounts(c: Context, item: Item)
    requires c.levels != [] && UnlistedItem(item)
    ensures WriteItem(c, item).0.counts ==
      if item.Sub? then
        CountsAtFooter(CountsAtHeader(c.counts, Parent(c.levels), item.tree.section),
                       Parent(c.levels), item.tree.section)
      else c.counts
    decreases item, 1
  {
    if item.Sub? { SectionCounts(c, item.tree); }
  }

  /** A section without such a list counts as a packet or a frame of the list it is in. */
  lemma {:induction false} SectionCounts(c: Context, t: Tree)
    requires Unlisted(t)
    ensures Write(c, t).0.counts ==
      CountsAtFooter(CountsAtHeader(c.counts, Parent(c.levels), t.section), Parent(c.levels), t.section)
    decreases t, 0
  {
    var c1 := Header(c, t.section).0;
    CountsKept(c1, t.items);
    ItemsRestore(c1, t.items);
    assert c1.levels[..|c.levels|] == c.levels;
  }

  function NumberOf(items: seq<Item>, packets: bool): nat {
    if items == [] then 0
    else (if items[0].Sub? && items[0].tree.section.isPacket == packets then 1 else 0) + NumberOf(items[1..], packets)
  }

  lemma {:induction false} ListCounts(c: Context, items: seq<Item>)
    requires InList(c) && UnlistedItems(items)
    ensures var k := WriteItems(c, items).0.counts;
      k.packets == c.counts.packets + NumberOf(items, true) && k.frames == c.counts.frames + NumberOf(items, false)
    decreases items
  {
    if items != [] {
      LevelMoves(c, items[0]);
      ItemCounts(c, items[0]);
      assert items[0].Sub? ==> Unlisted(items[0].tree);
      ListCounts(WriteItem(c, items[0]).0, items[1..]);
    }
  }

  lemma {:induction false} PrefixUnlisted(items: seq<Item>, k: nat)
    requires UnlistedItems(items) && k <= |items|
    ensures UnlistedItems(items[..k]) && (k < |items| ==> UnlistedItem(items[k]))
  {
    if items != [] && k > 0 {
      PrefixUnlisted(items[1..], k - 1);
      assert items[..k][1..] == items[1..][..k - 1];
    }
  }

  /** Each packet and each frame of a mixed list is numbered by how many of its kind came before it. */
  lemma NumberedInOrder(c: Context, t: Tree, k: nat)
    requires t.section.packetsAndFrames && UnlistedItems(t.items) && k < |t.items| && t.items[k].Sub?
    ensures var (before, s) := (WriteItems(Header(c, t.section).0, t.items[..k]).0, t.items[k].tree.section);
      Header(before, s).0.counts.number == NumberOf(t.items[..k], s.isPacket)
  {
    var c1 := Header(c, t.section).0;
    PrefixUnlisted(t.items, k);
    ListCounts(c1, t.items[..k]);
    ItemsRestore(c1, t.items[..k]);
  }
}
