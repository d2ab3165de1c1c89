/** The writer context of ffprobe.c: the calls print text, and what they print is the rendering of the tokens
    that `Writers.Header`, `Writers.Footer` and `Writers.Scalar` say. */
module WriterContexts {
  import opened Common
  import opened Escapes
  import opened Tokens
  import opened Writers
  import opened Validation

  lemma Rendered1(style: Style, a: Token)
    ensures RenderAll(style, [a]) == Render(style, a)
  {
    var ts: seq<Token> := [a];
    assert ts[1..] == [] && RenderAll(style, ts) == Render(style, ts[0]) + RenderAll(style, ts[1..]);
    assert Render(style, a) + [] == Render(style, a);
  }

  lemma RenderedMore(style: Style, a: Token, ts: seq<Token>)
    ensures RenderAll(style, [a] + ts) == Render(style, a) + RenderAll(style, ts)
  {
    assert ([a] + ts)[1..] == ts;
  }

  lemma Rendered2(style: Style, a: Token, b: Token)
    ensures RenderAll(style, [a, b]) == Render(style, a) + Render(style, b)
  {
    assert [a, b] == [a] + [b];
    RenderedMore(style, a, [b]);
    Rendered1(style, b);
  }

  lemma Rendered3(style: Style, a: Token, b: Token, c: Token)
    ensures RenderAll(style, [a, b, c]) == Render(style, a) + Render(style, b) + Render(style, c)
  {
    assert [a, b, c] == [a] + [b, c];
    RenderedMore(style, a, [b, c]);
    Rendered2(style, b, c);
    Assoc(Render(style, a), Render(style, b), Render(style, c));
  }

  lemma Rendered4(style: Style, a: Token, b: Token, c: Token, d: Token)
    ensures RenderAll(style, [a, b, c, d]) == Render(style, a) + Render(style, b) + Render(style, c) + Render(style, d)
  {
    assert [a, b, c, d] == [a, b] + [c, d];
    RenderAppend(style, [a, b], [c, d]);
    Rendered2(style, a, b);
    Rendered2(style, c, d);
    Assoc(Render(style, a) + Render(style, b), Render(style, c), Render(style, d));
  }

  lemma Rendered5(style: Style, a: Token, b: Token, c: Token, d: Token, e: Token)
    ensures RenderAll(style, [a, b, c, d, e]) ==
            Render(style, a) + Render(style, b) + Render(style, c) + Render(style, d) + Render(style, e)
  {
    assert [a, b, c, d, e] == [a, b, c] + [d, e];
    RenderAppend(style, [a, b, c], [d, e]);
    Rendered3(style, a, b, c);
    Rendered2(style, d, e);
    Assoc(Render(style, a) + Render(style, b) + Render(style, c), Render(style, d), Render(style, e));
  }

  lemma NameCharIsEscaped(c: char)
    requires InName(c)
    ensures EscapeChar(Json, c) == [c]
  {
  }

  /** Names need no escaping. */
  lemma {:induction false} NamesAreEscaped(s: string)
    requires forall c :: c in s ==> InName(c)
    ensures Escape(Json, s) == s
  {
    if s != [] {
      assert s[0] in s && forall c :: c in s[1..] ==> c in s;
      NamesAreEscaped(s[1..]);
      NameCharIsEscaped(s[0]);
      assert [s[0]] + s[1..] == s;
    }
  }

  lemma {:induction false} QuotesAppend(s: string, c: char)
    ensures DoubleQuotes(s + [c]) == DoubleQuotes(s) + if c == '"' then "\"\"" else [c]
  {
    if s == [] {
      assert s + [c] == [c] && [c][1..] == [];
    } else {
      assert (s + [c])[1..] == s[1..] + [c];
      QuotesAppend(s[1..], c);
    }
  }

  lemma QuotesTurn(open: string, src: string, k: nat)
    requires k < |src|
    ensures open + DoubleQuotes(src[..k + 1]) ==
      open + DoubleQuotes(src[..k]) + (if src[k] == '"' then "\"" else []) + [src[k]]
  {
    assert src[..k + 1] == src[..k] + [src[k]];
    QuotesAppend(src[..k], src[k]);
  }

  predicate Meta(c: char, sep: char) { c == sep || c == '"' || c == '\n' || c == '\r' }

  lemma NeedsQuotingAppend(s: string, c: char, sep: char)
    ensures NeedsQuoting(s + [c], sep) <==> NeedsQuoting(s, sep) || Meta(c, sep)
  {
    assert c in s + [c] && forall x :: x in s ==> x in s + [c];
    assert forall x :: x in s + [c] ==> x in s || x == c;
  }

  /** csv_escape_str: quotes when a character of the syntax occurs, and doubles quotes. */
  method CsvEscaped(src: string, sep: char) returns (dst: string)
    ensures dst == CsvEscape(src, sep)
  {
    var needsQuoting := false;
    for k := 0 to |src|
      invariant needsQuoting == NeedsQuoting(src[..k], sep)
    {
      assert src[..k + 1] == src[..k] + [src[k]];
      NeedsQuotingAppend(src[..k], src[k], sep);
      needsQuoting := needsQuoting || src[k] == sep || src[k] == '"' || src[k] == '\n' || src[k] == '\r';
    }
    assert src[..|src|] == src;
    dst := if needsQuoting then "\"" else [];
    ghost var open := dst;
    for k := 0 to |src|
      invariant dst == open + DoubleQuotes(src[..k])
    {
      QuotesTurn(open, src, k);
      if src[k] == '"' {
        dst := dst + "\"";
      }
      dst := dst + [src[k]];
    }
    if needsQuoting {
      dst := dst + "\"";
    }
  }

  lemma Assoc2(z: seq<Token>, a: seq<Token>, b: seq<Token>)
    ensures z + a + b == z + (a + b)
  {
  }

  lemma Assoc3(z: seq<Token>, a: seq<Token>, b: seq<Token>, c: seq<Token>)
    ensures z + a + b + c == z + (a + b + c)
  {
  }

  lemma Assoc4(z: seq<Token>, a: seq<Token>, b: seq<Token>, c: seq<Token>, d: seq<Token>)
    ensures z + a + b + c + d == z + (a + b + c + d)
  {
  }

  /** The tree can be written: there is room for its levels, its names are names, and in CSV no section is
      printed inside another's line. */
  predicate Writable(p: Priv, parent: Option<Section>, t: Tree, room: int)
    decreases t, 0
  {
    && WellNamed(t.section) && room > 0
    && (p.CsvPriv? && parent.Some? ==> t.section.isArray || parent.value.isWrapper || parent.value.isArray)
    && WritableItems(p, t.section, t.items, room - 1)
  }

  predicate WritableItems(p: Priv, s: Section, items: seq<Item>, room: int)
    decreases items, 0
  {
    items != [] ==> WritableItem(p, s, items[0], room) && WritableItems(p, s, items[1..], room)
  }

  predicate WritableItem(p: Priv, s: Section, item: Item, room: int)
    decreases item, 1
  {
    item.Sub? ==> Writable(p, Some(s), item.tree, room)
  }

  /** Which writer it is does not change. */
  predicate SameWriter(p: Priv, q: Priv) {
    match p
    case JsonPriv(_, compact) => q.JsonPriv? && q.compact == compact
    case XmlPriv(_, _, qualified) => q.XmlPriv? && q.qualified == qualified
    case CsvPriv(_, _) => q == p
  }

  lemma {:induction false} SameWritable(p: Priv, q: Priv, s: Section, items: seq<Item>, room: int)
    requires SameWriter(p, q)
    ensures WritableItems(p, s, items, room) == WritableItems(q, s, items, room)
    decreases items, 0
  {
    if items != [] {
      SameWritableItem(p, q, s, items[0], room);
      SameWritable(p, q, s, items[1..], room);
    }
  }

  lemma {:induction false} SameWritableItem(p: Priv, q: Priv, s: Section, item: Item, room: int)
    requires SameWriter(p, q)
    ensures WritableItem(p, s, item, room) == WritableItem(q, s, item, room)
    decreases item, 1
  {
    if item.Sub? {
      SameWritable(p, q, item.tree.section, item.tree.items, room - 1);
    }
  }

  /** While the items are written the open section stays the tree's. */
  lemma TopSection(c: Context, t: Tree)
    ensures var c2 := WriteItems(Header(c, t.section).0, t.items).0;
      |c2.levels| == |c.levels| + 1 && c2.levels[|c.levels|].section == t.section
  {
    var c1 := Header(c, t.section).0;
    assert c1.levels[|c.levels|] == Level(t.section, 0);
    ItemsRestore(c1, t.items);
  }

  ghost function Zip(sections: seq<Section>, counts: seq<nat>): seq<Level>
    requires |sections| == |counts|
  {
    seq(|sections|, i requires 0 <= i < |sections| => Level(sections[i], counts[i]))
  }

  const NO_SECTION := Section("", false, false, false, false, false, "", true, {})

  /** What writer_print_string passes on to the format. */
  function ValueOf(key: string, val: string, validate: bool, v: Validator): Value
    requires Decodes(v)
  {
    if !validate then AsGiven(val)
    else match (Outcome(v, key), Outcome(v, val))
         case (Some(key1), Some(val1)) => Validated(key1, val1)
         case _ => Invalid
  }

  /** Without validation key and value are printed as they are; with it, as validation returns them, and not at all if
      it rejects one of them. */
  lemma WhatIsPrinted(key: string, val: string, optional: bool, validate: bool, v: Validator)
    requires Decodes(v)
    ensures var item := Str(key, optional, ValueOf(key, val, validate, v));
      && (Printed(item) <==> !validate || (Outcome(v, key).Some? && Outcome(v, val).Some?))
      && (Printed(item) ==>
            if validate then Some(KeyOf(item)) == Outcome(v, key) && Some(item.value.s) == Outcome(v, val)
            else KeyOf(item) == key && item.value.s == val)
  {
  }

  /** What writer_print_string does to key and value before it prints them. */
  method Validate(key: string, val: string, validate: bool, v: Validator) returns (value: Value)
    requires Decodes(v)
    ensures value == ValueOf(key, val, validate, v)
  {
    if !validate {
      return AsGiven(val);
    }
    value := Invalid;
    var key1 := ValidateString(v, key);
    if key1.Some? {
      var val1 := ValidateString(v, val);
      if val1.Some? {
        value := Validated(key1.value, val1.value);
      }
    }
  }

  class WriterContext {
    var level: int
    const nbItem: array<nat>
    const section: array<Section>
    var priv: Priv
    var nbSectionPacket: nat
    var nbSectionFrame: nat
    var nbSectionPacketFrame: nat
    var out: string
    ghost var printed: seq<Token>

    ghost predicate Shape()
      reads this`level
    {
      nbItem.Length == section.Length == SECTION_MAX_NB_LEVELS && -1 <= level < SECTION_MAX_NB_LEVELS
    }

    ghost predicate Valid()
      reads this`level, this`priv, this`out, this`printed
    {
      Shape() && out == RenderAll(StyleOf(priv), printed)
    }

    /** The open sections with their counters, outermost first. */
    ghost function Levels(): (r: seq<Level>)
      requires Shape()
      reads this`level, nbItem, section
      ensures |r| == level + 1
    {
      Zip(section[..level + 1], nbItem[..level + 1])
    }

    /** The section around the current one. */
    ghost function ParentLevel(): Option<Level>
      requires Shape() && level >= 0
      reads this`level, nbItem, section
    {
      if level == 0 then None else Some(Level(section[level - 1], nbItem[level - 1]))
    }

    ghost function Numbers(): Counts
      reads this`nbSectionPacket, this`nbSectionFrame, this`nbSectionPacketFrame
    {
      Counts(nbSectionPacket, nbSectionFrame, nbSectionPacketFrame)
    }

    ghost function Current(): Context
      requires Shape()
      reads this`level, this`priv, this`nbSectionPacket, this`nbSectionFrame, this`nbSectionPacketFrame, nbItem, section
    {
      Context(Levels(), priv, Numbers())
    }

    constructor (priv: Priv)
      ensures Valid() && Current() == Start(priv) && printed == [] && fresh(nbItem) && fresh(section)
    {
      level := -1;
      nbItem := new nat[SECTION_MAX_NB_LEVELS](_ => 0);
      section := new Section[SECTION_MAX_NB_LEVELS](_ => NO_SECTION);
      nbSectionPacket, nbSectionFrame, nbSectionPacketFrame := 0, 0, 0;
      this.priv, out, printed := priv, [], [];
    }

    /** printf: `ts` are the tokens the text consists of. */
    method Print(text: string, ghost ts: seq<Token>)
      requires Valid() && text == RenderAll(StyleOf(priv), ts)
      modifies this`out, this`printed
      ensures Valid() && printed == old(printed) + ts
    {
      out := out + text;
      RenderAppend(StyleOf(priv), printed, ts);
      printed := printed + ts;
    }

    /** `%*c` with a width of four columns a level. */
    method PrintIndent(n: int)
      requires Valid()
      modifies this`out, this`printed
      ensures Valid() && printed == old(printed) + [Indent(n)]
    {
      var text := " ";
      if n >= 1 {
        text := seq(4 * n, _ => ' ');
      }
      Rendered1(StyleOf(priv), Indent(n));
      Print(text, [Indent(n)]);
    }

    /** av_assert0 demands a free level. */
    method PrintSectionHeader(s: Section)
      requires Valid() && WellNamed(s)
      requires level + 1 < SECTION_MAX_NB_LEVELS
      requires priv.CsvPriv? ==> !Nested(Parent(Levels()), s)
      modifies this, nbItem, section
      ensures Valid()
      ensures Current() == Header(old(Current()), s).0
      ensures printed == old(printed) + Header(old(Current()), s).1
    {
      level := level + 1;
      nbItem[level] := 0;
      section[level] := s;
      assert Levels() == old(Levels()) + [Level(s, 0)];
      assert ParentLevel() == Parent(old(Levels()));
      NumberSection(s);
      PrintHeader(old(Current()), s);
    }

    /** Packets and frames are numbered within the mixed list they are in. */
    method NumberSection(s: Section)
      requires Shape() && level >= 0
      modifies this`nbSectionPacket, this`nbSectionFrame, this`nbSectionPacketFrame
      ensures Numbers() == CountsAtHeader(old(Numbers()), ParentLevel(), s)
    {
      if s.packetsAndFrames {
        nbSectionPacketFrame := 0;
        nbSectionFrame := 0;
        nbSectionPacket := 0;
      } else if level > 0 && section[level - 1].packetsAndFrames {
        nbSectionPacketFrame := if s.isPacket then nbSectionPacket else nbSectionFrame;
      }
    }

    /** The callback of the format; `c` is the context before the header. */
    method PrintHeader(ghost c: Context, s: Section)
      requires Valid() && level >= 0 && WellNamed(s) && section[level] == s && nbItem[level] == 0
      requires ParentLevel() == Parent(c.levels) && |c.levels| == level && c.priv == priv
      requires priv.CsvPriv? ==> !Nested(Parent(c.levels), s)
      modifies this`out, this`printed, this`priv
      ensures Valid() && priv == PrivAfterHeader(c.priv, Parent(c.levels), s)
      ensures printed == old(printed) + OpenTokens(c.priv, Parent(c.levels), s)
    {
      match priv
      case JsonPriv(_, _) => JsonHeader();
      case XmlPriv(_, _, _) => XmlHeader();
      case CsvPriv(_, _) => CsvHeader();
    }

    method PrintSectionFooter()
      requires Valid() && level >= 0 && WellNamed(section[level])
      modifies this, nbItem
      ensures Valid()
      ensures Current() == Footer(old(Current())).0
      ensures printed == old(printed) + Footer(old(Current())).1
    {
      CountSection();
      ghost var before := Levels();
      assert before[level].section == section[level];
      PrintFooter();
      level := level - 1;
      assert Levels() == before[..level + 1];
    }

    /** The callback of the format. */
    method PrintFooter()
      requires Valid() && level >= 0 && WellNamed(section[level])
      modifies this`out, this`printed, this`priv
      ensures Valid() && priv == PrivAfterFooter(old(priv), level)
      ensures printed == old(printed) + CloseTokens(old(priv), level, section[level])
    {
      match priv {
        case JsonPriv(_, _) => JsonFooter();
        case XmlPriv(_, _, _) => XmlFooter();
        case CsvPriv(_, _) => CsvFooter();
      }
    }

    /** The section that is closing counts as an item of the one around it, and as a packet or frame of a
        mixed list. */
    method CountSection()
      requires Valid() && level >= 0
      modifies nbItem, this`nbSectionPacket, this`nbSectionFrame
      ensures Valid() && Levels()[..level] == CountItem(old(Levels())[..level])
      ensures Levels()[level] == old(Levels())[level]
      ensures Numbers() == CountsAtFooter(old(Numbers()), Parent(old(Levels())[..level]), section[level])
    {
      assert level > 0 ==> Parent(Levels()[..level]).value.section == section[level - 1];
      if level > 0 {
        nbItem[level - 1] := nbItem[level - 1] + 1;
        if section[level - 1].packetsAndFrames {
          if section[level].isPacket {
            nbSectionPacket := nbSectionPacket + 1;
          } else {
            nbSectionFrame := nbSectionFrame + 1;
          }
        }
      }
    }

    /** writer_print_integer and writer_print_string, for an item that is not a section. */
    method PrintScalar(item: Item)
      requires Valid() && level >= 0 && !item.Sub?
      modifies this`out, this`printed, nbItem
      ensures Valid()
      ensures Current() == Scalar(old(Current()), item).0
      ensures printed == old(printed) + Scalar(old(Current()), item).1
    {
      ghost var before := Levels();
      if Visible(priv, section[level], item) {
        if Printed(item) {
          PrintItem(item);
        }
        nbItem[level] := nbItem[level] + 1;
        assert Levels() == CountItem(before);
      }
    }

    /** writer_print_string: key and value are validated first when that is asked for. */
    method PrintString(key: string, val: string, optional: bool, validate: bool, v: Validator)
      requires Valid() && level >= 0 && Decodes(v)
      modifies this`out, this`printed, nbItem
      ensures Valid()
      ensures Current() == Scalar(old(Current()), Str(key, optional, ValueOf(key, val, validate, v))).0
      ensures printed == old(printed) + Scalar(old(Current()), Str(key, optional, ValueOf(key, val, validate, v))).1
    {
      var value := Validate(key, val, validate, v);
      PrintScalar(Str(key, optional, value));
    }

    /** The callback of the format. */
    method PrintItem(item: Item)
      requires Valid() && level >= 0 && !item.Sub? && Printed(item)
      modifies this`out, this`printed
      ensures Valid()
      ensures printed == old(printed) + ScalarTokens(priv, Level(section[level], nbItem[level]), item)
    {
      match priv
      case JsonPriv(_, _) => JsonScalar(item);
      case XmlPriv(_, _, _) => XmlScalar(item);
      case CsvPriv(_, _) => CsvScalar(item);
    }

    /** A whole tree through the calls above: what the lemmas about `Write` say holds of the printed text. */
    method WriteTree(t: Tree)
      requires Valid()
      requires Writable(priv, if level < 0 then None else Some(section[level]), t, SECTION_MAX_NB_LEVELS - 1 - level)
      modifies this, nbItem, section
      ensures Valid() && level == old(level)
      ensures Current() == Write(old(Current()), t).0
      ensures printed == old(printed) + Write(old(Current()), t).1
      decreases t, 0
    {
      ghost var c := Current();
      OpenTree(t);
      WriteAll(t.items);
      ghost var c1 := Header(c, t.section).0;
      TopSection(c, t);
      assert section[level] == Levels()[level].section;
      PrintSectionFooter();
      Assoc3(old(printed), Header(c, t.section).1, WriteItems(c1, t.items).1, Footer(WriteItems(c1, t.items).0).1);
    }

    /** The header of a writable tree leaves its items writable. */
    method OpenTree(t: Tree)
      requires Valid()
      requires Writable(priv, if level < 0 then None else Some(section[level]), t, SECTION_MAX_NB_LEVELS - 1 - level)
      modifies this, nbItem, section
      ensures Valid() && level == old(level) + 1
      ensures Current() == Header(old(Current()), t.section).0
      ensures printed == old(printed) + Header(old(Current()), t.section).1
      ensures section[level] == t.section
      ensures WritableItems(priv, t.section, t.items, SECTION_MAX_NB_LEVELS - 1 - level)
    {
      ghost var c := Current();
      assert level >= 0 ==> Parent(Levels()).value.section == section[level];
      PrintSectionHeader(t.section);
      SameWritable(c.priv, priv, t.section, t.items, SECTION_MAX_NB_LEVELS - 1 - level);
      assert Levels()[level] == Level(t.section, 0);
    }

    method WriteAll(items: seq<Item>)
      requires Valid() && level >= 0
      requires WritableItems(priv, section[level], items, SECTION_MAX_NB_LEVELS - 1 - level)
      modifies this, nbItem, section
      ensures Valid() && level == old(level)
      ensures Current() == WriteItems(old(Current()), items).0
      ensures printed == old(printed) + WriteItems(old(Current()), items).1
      decreases items, 0
    {
      if items != [] {
        ghost var c, before := Current(), printed;
        WriteOne(items[0]);
        ghost var (c1, first) := WriteItem(c, items[0]);
        LevelMoves(c, items[0]);
        assert c1.levels[|c1.levels| - 1].section == section[level];
        SameWritable(c.priv, c1.priv, section[level], items[1..], SECTION_MAX_NB_LEVELS - 1 - level);
        WriteAll(items[1..]);
        Assoc2(before, first, WriteItems(c1, items[1..]).1);
      }
    }

    method WriteOne(item: Item)
      requires Valid() && level >= 0
      requires WritableItem(priv, section[level], item, SECTION_MAX_NB_LEVELS - 1 - level)
      modifies this, nbItem, section
      ensures Valid() && level == old(level)
      ensures Current() == WriteItem(old(Current()), item).0
      ensures printed == old(printed) + WriteItem(old(Current()), item).1
      decreases item, 1
    {
      match item
      case Sub(t) => WriteTree(t);
      case _ => PrintScalar(item);
    }

    // ---- JSON ---------------------------------------------------------------------------------

    method PrintKey(key: string)
      requires Valid() && priv.JsonPriv?
      modifies this`out, this`printed
      ensures Valid() && printed == old(printed) + Key(key)
    {
      var escaped := JsonEscape(key);
      Rendered3(Json, Quoted(key), Punct(':'), Space(" "));
      assert "\"" + escaped + "\": " == "\"" + escaped + "\"" + ":" + " ";
      Print("\"" + escaped + "\": ", Key(key));
    }

    method PrintItemSep()
      requires Valid() && priv.JsonPriv?
      modifies this`out, this`printed
      ensures Valid() && printed == old(printed) + ItemSep(priv.compact)
    {
      var gap := if priv.compact then " " else "\n";
      Rendered2(Json, Punct(','), Space(gap));
      Print("," + gap, ItemSep(priv.compact));
    }

    /** A bracket and the line break or blank after it. */
    method PrintBracket(c: char, gap: string)
      requires Valid() && priv.JsonPriv?
      modifies this`out, this`printed
      ensures Valid() && printed == old(printed) + [Punct(c), Space(gap)]
    {
      Rendered2(Json, Punct(c), Space(gap));
      Print([c] + gap, [Punct(c), Space(gap)]);
    }

    method PrintOne(c: char)
      requires Valid()
      modifies this`out, this`printed
      ensures Valid() && printed == old(printed) + [Punct(c)]
    {
      Rendered1(StyleOf(priv), Punct(c));
      Print([c], [Punct(c)]);
    }

    method PrintGap(gap: string)
      requires Valid()
      modifies this`out, this`printed
      ensures Valid() && printed == old(printed) + [Space(gap)]
    {
      Rendered1(StyleOf(priv), Space(gap));
      Print(gap, [Space(gap)]);
    }

    /** An indented key and the bracket it opens. */
    method PrintKeyed(name: string, c: char, gap: string, indent: int)
      requires Valid() && priv.JsonPriv?
      modifies this`out, this`printed
      ensures Valid() && printed == old(printed) + ([Indent(indent)] + Key(name) + [Punct(c), Space(gap)])
    {
      PrintIndent(indent);
      PrintKey(name);
      PrintBracket(c, gap);
      Assoc3(old(printed), [Indent(indent)], Key(name), [Punct(c), Space(gap)]);
    }

    method JsonHeader()
      requires Valid() && level >= 0 && priv.JsonPriv? && IsName(section[level].name)
      modifies this`out, this`printed, this`priv
      ensures Valid() && priv == JsonPriv(old(priv).indent + 1, old(priv).compact)
      ensures var parent := ParentLevel();
        printed == old(printed) + (JsonComma(parent) + JsonOpen(parent, section[level], old(priv).indent, priv.compact))
    {
      ghost var parent := ParentLevel();
      if level > 0 && nbItem[level - 1] != 0 {
        PrintBracket(',', "\n");
      }
      assert printed == old(printed) + JsonComma(parent);
      ghost var comma := printed;
      JsonOpening();
      Assoc2(old(printed), JsonComma(parent), JsonOpen(parent, section[level], old(priv).indent, priv.compact));
    }

    method JsonOpening()
      requires Valid() && level >= 0 && priv.JsonPriv? && IsName(section[level].name)
      modifies this`out, this`printed, this`priv
      ensures Valid() && priv == JsonPriv(old(priv).indent + 1, old(priv).compact)
      ensures printed == old(printed) + JsonOpen(ParentLevel(), section[level], old(priv).indent, priv.compact)
    {
      var s := section[level];
      var indent := priv.indent;
      var gap := if priv.compact then " " else "\n";
      priv := JsonPriv(indent + 1, priv.compact);
      if s.isWrapper {
        PrintBracket('{', "\n");
      } else if s.isArray {
        PrintKeyed(s.name, '[', "\n", indent);
      } else if level > 0 && !section[level - 1].isArray {
        PrintKeyed(s.name, '{', gap, indent);
      } else {
        PrintUnkeyed(gap, indent);
        ghost var opening := [Indent(indent)] + [Punct('{'), Space(gap)];
        if level > 0 && section[level - 1].packetsAndFrames {
          PrintType(s.name);
          Assoc2(old(printed), opening,
                 IndentUnless(priv.compact, indent + 1) + Key("type") + [Quoted(s.name)] + ItemSep(priv.compact));
        } else {
          Assoc2(old(printed), opening, []);
        }
      }
    }

    method PrintUnkeyed(gap: string, indent: int)
      requires Valid() && priv.JsonPriv?
      modifies this`out, this`printed
      ensures Valid() && printed == old(printed) + ([Indent(indent)] + [Punct('{'), Space(gap)])
    {
      PrintIndent(indent);
      PrintBracket('{', gap);
      Assoc2(old(printed), [Indent(indent)], [Punct('{'), Space(gap)]);
    }

    /** The type member, with its separator. */
    method PrintType(name: string)
      requires Valid() && priv.JsonPriv? && IsName(name)
      modifies this`out, this`printed
      ensures Valid()
      ensures printed == old(printed) +
        (IndentUnless(priv.compact, priv.indent) + Key("type") + [Quoted(name)] + ItemSep(priv.compact))
    {
      Assoc4(printed, IndentUnless(priv.compact, priv.indent), Key("type"), [Quoted(name)], ItemSep(priv.compact));
      if !priv.compact {
        PrintIndent(priv.indent);
      }
      assert printed == old(printed) + IndentUnless(priv.compact, priv.indent);
      PrintKey("type");
      NamesAreEscaped(name);
      Rendered1(Json, Quoted(name));
      Print("\"" + name + "\"", [Quoted(name)]);
      PrintItemSep();
    }

    method JsonFooter()
      requires Valid() && level >= 0 && priv.JsonPriv?
      modifies this`out, this`printed, this`priv
      ensures Valid() && priv == JsonPriv(old(priv).indent - 1, old(priv).compact)
      ensures printed == old(printed) + JsonClose(level, section[level], old(priv).indent, priv.compact)
    {
      if level == 0 {
        priv := JsonPriv(priv.indent - 1, priv.compact);
        Rendered3(Json, Space("\n"), Punct('}'), Space("\n"));
        Print("\n}\n", [Space("\n"), Punct('}'), Space("\n")]);
      } else if section[level].isArray {
        PrintGap("\n");
        priv := JsonPriv(priv.indent - 1, priv.compact);
        PrintIndent(priv.indent);
        PrintOne(']');
        Assoc3(old(printed), [Space("\n")], [Indent(priv.indent)], [Punct(']')]);
      } else {
        JsonBrace();
      }
    }

    /** The end of an object. */
    method JsonBrace()
      requires Valid() && priv.JsonPriv?
      modifies this`out, this`printed, this`priv
      ensures Valid() && priv == JsonPriv(old(priv).indent - 1, old(priv).compact)
      ensures printed == old(printed) +
        ([StartEnd(priv.compact)] + IndentUnless(priv.compact, priv.indent) + [Punct('}')])
    {
      PrintGap(if priv.compact then " " else "\n");
      priv := JsonPriv(priv.indent - 1, priv.compact);
      if !priv.compact {
        PrintIndent(priv.indent);
      }
      assert printed == old(printed) + [StartEnd(priv.compact)] + IndentUnless(priv.compact, priv.indent);
      PrintOne('}');
      Assoc3(old(printed), [StartEnd(priv.compact)], IndentUnless(priv.compact, priv.indent), [Punct('}')]);
    }

    method JsonScalar(item: Item)
      requires Valid() && level >= 0 && priv.JsonPriv? && !item.Sub? && Printed(item)
      modifies this`out, this`printed
      ensures Valid() && printed == old(printed) + ScalarTokens(priv, Level(section[level], nbItem[level]), item)
    {
      ghost var sep := if nbItem[level] != 0 then ItemSep(priv.compact) else [];
      ghost var value := if item.Str? then Quoted(item.value.s) else Number(item.n);
      Assoc4(printed, sep, IndentUnless(priv.compact, priv.indent), Key(KeyOf(item)), [value]);
      if nbItem[level] != 0 {
        PrintItemSep();
      }
      assert printed == old(printed) + sep;
      if !priv.compact {
        PrintIndent(priv.indent);
      }
      assert printed == old(printed) + sep + IndentUnless(priv.compact, priv.indent);
      PrintKey(KeyOf(item));
      if item.Str? {
        var escaped := JsonEscape(item.value.s);
        Rendered1(Json, Quoted(item.value.s));
        Print("\"" + escaped + "\"", [Quoted(item.value.s)]);
      } else {
        Rendered1(Json, Number(item.n));
        Print(Decimal(item.n), [Number(item.n)]);
      }
    }

    // ---- XML ----------------------------------------------------------------------------------

    method PrintAttribute(key: string, value: string)
      requires Valid() && priv.XmlPriv?
      modifies this`out, this`printed
      ensures Valid() && printed == old(printed) + XmlAttribute(key, value)
    {
      var escaped := XmlEscape(value);
      Rendered3(Xml, Word(key), Punct('='), Quoted(value));
      assert key + "=\"" + escaped + "\"" == key + "=" + ("\"" + escaped + "\"");
      Print(key + "=\"" + escaped + "\"", XmlAttribute(key, value));
    }

    /** `<name` and a blank. */
    method PrintTagStart(name: string)
      requires Valid() && priv.XmlPriv?
      modifies this`out, this`printed
      ensures Valid() && printed == old(printed) + [Punct('<'), Word(name), Space(" ")]
    {
      Rendered3(Xml, Punct('<'), Word(name), Space(" "));
      Print("<" + name + " ", [Punct('<'), Word(name), Space(" ")]);
    }

    method PrintTag(name: string)
      requires Valid() && priv.XmlPriv?
      modifies this`out, this`printed
      ensures Valid() && printed == old(printed) + [Punct('<'), Word(name), Punct('>'), Space("\n")]
    {
      Rendered4(Xml, Punct('<'), Word(name), Punct('>'), Space("\n"));
      assert "<" + name + ">\n" == "<" + name + ">" + "\n";
      Print("<" + name + ">\n", [Punct('<'), Word(name), Punct('>'), Space("\n")]);
    }

    method PrintEndTag(name: string)
      requires Valid() && priv.XmlPriv?
      modifies this`out, this`printed
      ensures Valid() && printed == old(printed) + [Punct('<'), Punct('/'), Word(name), Punct('>'), Space("\n")]
    {
      Rendered5(Xml, Punct('<'), Punct('/'), Word(name), Punct('>'), Space("\n"));
      assert "</" + name + ">\n" == "<" + "/" + name + ">" + "\n";
      Print("</" + name + ">\n", [Punct('<'), Punct('/'), Word(name), Punct('>'), Space("\n")]);
    }

    method PrintTagEnd(empty: bool)
      requires Valid() && priv.XmlPriv?
      modifies this`out, this`printed
      ensures Valid()
      ensures printed == old(printed) +
        if empty then [Punct('/'), Punct('>'), Space("\n")] else [Punct('>'), Space("\n")]
    {
      Rendered3(Xml, Punct('/'), Punct('>'), Space("\n"));
      Rendered2(Xml, Punct('>'), Space("\n"));
      if empty {
        Print("/>\n", [Punct('/'), Punct('>'), Space("\n")]);
      } else {
        Print(">\n", [Punct('>'), Space("\n")]);
      }
    }

    method PrintDeclaration()
      requires Valid() && priv.XmlPriv?
      modifies this`out, this`printed
      ensures Valid() && printed == old(printed) + XmlDeclaration()
    {
      Rendered4(Xml, Punct('<'), Punct('?'), Word("xml"), Space(" "));
      Print("<?xml ", [Punct('<'), Punct('?'), Word("xml"), Space(" ")]);
      PrintAttribute("version", "1.0");
      PrintGap(" ");
      PrintAttribute("encoding", "UTF-8");
      Rendered3(Xml, Punct('?'), Punct('>'), Space("\n"));
      Print("?>\n", [Punct('?'), Punct('>'), Space("\n")]);
    }

    /** A namespace attribute, after a blank and in single quotes. */
    method PrintSpace(key: string, value: string)
      requires Valid() && priv.XmlPriv?
      modifies this`out, this`printed
      ensures Valid() && printed == old(printed) + XmlSpace(key, value)
    {
      Rendered4(Xml, Space(" "), Word(key), Punct('='), Apos(value));
      assert " " + key + "='" + value + "'" == " " + key + "=" + ("'" + value + "'");
      Print(" " + key + "='" + value + "'", XmlSpace(key, value));
    }

    method PrintSpaces()
      requires Valid() && priv.XmlPriv?
      modifies this`out, this`printed
      ensures Valid() && printed == old(printed) + XmlSpaces()
    {
      PrintSpace("xmlns:xsi", XSI);
      PrintSpace("xmlns:ffprobe", SCHEMA);
      PrintSpace("xsi:schemaLocation", LOCATION);
      Assoc2(old(printed) + XmlSpace("xmlns:xsi", XSI), XmlSpace("xmlns:ffprobe", SCHEMA),
             XmlSpace("xsi:schemaLocation", LOCATION));
      Assoc2(old(printed), XmlSpace("xmlns:xsi", XSI),
             XmlSpace("xmlns:ffprobe", SCHEMA) + XmlSpace("xsi:schemaLocation", LOCATION));
    }

    /** The start tag of the document element. */
    method PrintRootTag()
      requires Valid() && priv.XmlPriv?
      modifies this`out, this`printed
      ensures Valid() && printed == old(printed) + XmlRootOpen(priv.qualified)
    {
      ghost var start := [Punct('<'), Word(XmlRoot(priv.qualified))];
      ghost var spaces := if priv.qualified then XmlSpaces() else [];
      Rendered2(Xml, Punct('<'), Word(XmlRoot(priv.qualified)));
      Print("<" + XmlRoot(priv.qualified), start);
      if priv.qualified {
        PrintSpaces();
      }
      assert printed == old(printed) + start + spaces;
      PrintTagEnd(false);
      Assoc3(old(printed), start, spaces, [Punct('>'), Space("\n")]);
    }

    method XmlHeader()
      requires Valid() && level >= 0 && priv.XmlPriv? && WellNamed(section[level])
      modifies this`out, this`printed, this`priv
      ensures Valid()
      ensures priv == if level == 0 then old(priv)
                      else XmlPriv(old(priv).indent + 1, !section[level].hasVariableFields && !section[level].isArray,
                                   old(priv).qualified)
      ensures printed == old(printed)
        + XmlOpen(ParentLevel(), section[level], old(priv).indent, old(priv).within, priv.qualified)
    {
      if level == 0 {
        PrintDeclaration();
        PrintRootTag();
        Assoc2(old(printed), XmlDeclaration(), XmlRootOpen(priv.qualified));
      } else {
        XmlInnerHeader();
      }
    }

    /** The header of a section inside another. */
    method XmlInnerHeader()
      requires Valid() && level > 0 && priv.XmlPriv? && WellNamed(section[level])
      modifies this`out, this`printed, this`priv
      ensures Valid() && priv == PrivAfterHeader(old(priv), ParentLevel(), section[level])
      ensures printed == old(printed)
        + XmlOpen(ParentLevel(), section[level], old(priv).indent, old(priv).within, priv.qualified)
    {
      var s := section[level];
      ghost var gt := FinishParentTag();
      priv := XmlPriv(priv.indent + 1, priv.within, priv.qualified);
      if !s.hasVariableFields {
        XmlStarting();
        priv := priv.(within := !s.isArray);
        Assoc2(old(printed), gt, XmlStart(ParentLevel().value, s, old(priv).indent + 1));
      } else {
        Assoc2(old(printed), gt, []);
      }
    }

    /** The first child ends the start tag it finds open. */
    method FinishParentTag() returns (ghost gt: seq<Token>)
      requires Valid() && priv.XmlPriv?
      modifies this`out, this`printed, this`priv
      ensures Valid() && priv == XmlPriv(old(priv).indent, false, old(priv).qualified)
      ensures gt == (if old(priv).within then [Punct('>'), Space("\n")] else []) && printed == old(printed) + gt
    {
      gt := if priv.within then [Punct('>'), Space("\n")] else [];
      if priv.within {
        priv := priv.(within := false);
        PrintTagEnd(false);
      }
    }

    /** A start tag, finished for an array and unfinished for the rest. */
    method XmlStarting()
      requires Valid() && level > 0 && priv.XmlPriv?
      modifies this`out, this`printed
      ensures Valid()
      ensures printed == old(printed) +
        XmlStart(Level(section[level - 1], nbItem[level - 1]), section[level], priv.indent)
    {
      ghost var gap := if section[level - 1].isWrapper && nbItem[level - 1] != 0 then [Space("\n")] else [];
      if section[level - 1].isWrapper && nbItem[level - 1] != 0 {
        PrintGap("\n");
      }
      assert printed == old(printed) + gap;
      PrintIndent(priv.indent);
      ghost var tag := XmlTag(section[level]);
      if section[level].isArray {
        PrintTag(section[level].name);
      } else {
        PrintTagStart(section[level].name);
      }
      assert printed == old(printed) + gap + [Indent(priv.indent)] + tag;
      Assoc3(old(printed), gap, [Indent(priv.indent)], tag);
    }

    method XmlFooter()
      requires Valid() && level >= 0 && priv.XmlPriv? && WellNamed(section[level])
      modifies this`out, this`printed, this`priv
      ensures Valid()
      ensures priv == if level == 0 then old(priv) else XmlPriv(old(priv).indent - 1, false, old(priv).qualified)
      ensures printed == old(printed) +
        XmlClose(level, section[level], old(priv).indent, old(priv).within, priv.qualified)
    {
      var s := section[level];
      if level == 0 {
        PrintEndTag(XmlRoot(priv.qualified));
      } else if priv.within {
        priv := priv.(within := false);
        PrintTagEnd(true);
        priv := XmlPriv(priv.indent - 1, priv.within, priv.qualified);
      } else if s.hasVariableFields {
        priv := XmlPriv(priv.indent - 1, priv.within, priv.qualified);
      } else {
        PrintIndent(priv.indent);
        PrintEndTag(s.name);
        priv := XmlPriv(priv.indent - 1, priv.within, priv.qualified);
      }
    }

    method XmlScalar(item: Item)
      requires Valid() && level >= 0 && priv.XmlPriv? && !item.Sub? && Printed(item)
      modifies this`out, this`printed
      ensures Valid() && printed == old(printed) + ScalarTokens(priv, Level(section[level], nbItem[level]), item)
    {
      if item.Str? && section[level].hasVariableFields {
        PrintField(section[level].elementName, KeyOf(item), item.value.s);
      } else {
        ghost var value := if item.Str? then item.value.s else Decimal(item.n);
        ghost var gap := if nbItem[level] != 0 then [Space(" ")] else [];
        if nbItem[level] != 0 {
          PrintGap(" ");
        }
        assert printed == old(printed) + gap;
        PrintAttribute(KeyOf(item), if item.Str? then item.value.s else Decimal(item.n));
        Assoc2(old(printed), gap, XmlAttribute(KeyOf(item), value));
      }
    }

    /** An element of its own for a key and its value. */
    method PrintField(name: string, key: string, value: string)
      requires Valid() && priv.XmlPriv?
      modifies this`out, this`printed
      ensures Valid()
      ensures printed == old(printed) + ([Indent(priv.indent)] + [Punct('<'), Word(name), Space(" ")]
                                         + (XmlAttribute("key", key) + [Space(" ")])
                                         + (XmlAttribute("value", value) + [Punct('/'), Punct('>'), Space("\n")]))
    {
      PrintIndent(priv.indent);
      PrintTagStart(name);
      ghost var p1 := printed;
      PrintAttribute("key", key);
      PrintGap(" ");
      Assoc2(p1, XmlAttribute("key", key), [Space(" ")]);
      ghost var p2 := printed;
      PrintAttribute("value", value);
      PrintTagEnd(true);
      Assoc2(p2, XmlAttribute("value", value), [Punct('/'), Punct('>'), Space("\n")]);
      Assoc4(old(printed), [Indent(priv.indent)], [Punct('<'), Word(name), Space(" ")],
             XmlAttribute("key", key) + [Space(" ")],
             XmlAttribute("value", value) + [Punct('/'), Punct('>'), Space("\n")]);
    }

    // ---- CSV ----------------------------------------------------------------------------------

    method PrintRaw(text: string)
      requires Valid()
      modifies this`out, this`printed
      ensures Valid() && printed == old(printed) + [Raw(text)]
    {
      Rendered1(StyleOf(priv), Raw(text));
      Print(text, [Raw(text)]);
    }

    method CsvHeader()
      requires Valid() && level >= 0 && priv.CsvPriv?
      modifies this`out, this`printed
      ensures Valid() && printed == old(printed) + CsvOpen(section[level], priv.sep)
    {
      var s := section[level];
      if !s.isWrapper && !s.isArray {
        PrintRaw(s.name);
        PrintRaw([priv.sep]);
      }
    }

    method CsvFooter()
      requires Valid() && level >= 0 && priv.CsvPriv?
      modifies this`out, this`printed
      ensures Valid() && printed == old(printed) + CsvClose(section[level])
    {
      if !section[level].isWrapper && !section[level].isArray {
        PrintRaw("\n");
      }
    }

    method CsvScalar(item: Item)
      requires Valid() && level >= 0 && priv.CsvPriv? && !item.Sub? && Printed(item)
      modifies this`out, this`printed
      ensures Valid() && printed == old(printed) + ScalarTokens(priv, Level(section[level], nbItem[level]), item)
    {
      ghost var sep := if nbItem[level] != 0 then [Raw([priv.sep])] else [];
      ghost var key := if priv.nokey then [] else [Raw(KeyOf(item)), Raw("=")];
      if nbItem[level] != 0 {
        PrintRaw([priv.sep]);
      }
      assert printed == old(printed) + sep;
      if !priv.nokey {
        PrintRaw(KeyOf(item));
        PrintRaw("=");
      }
      assert printed == old(printed) + sep + key;
      Assoc3(old(printed), sep, key,
             [Raw(if item.Str? then CsvEscape(item.value.s, priv.sep) else Decimal(item.n))]);
      if item.Str? {
        var escaped := CsvEscaped(item.value.s, priv.sep);
        PrintRaw(escaped);
      } else {
        PrintRaw(Decimal(item.n));
      }
    }
  }
}
