/** A CSV parser (section 2 of RFC 4180, with a bare line feed as the line break and any separator) and the
    proof that it reads back what ffprobe's CSV writer prints for sections that hold only fields. */
module CsvReader {
  import opened Common
  import opened Escapes
  import opened Tokens
  import opened Writers
  import opened Selection

  /** A quoted field after its opening quote. */
  function ReadQuotedField(t: string): Option<(string, string)>
    ensures ReadQuotedField(t).Some? ==> |ReadQuotedField(t).value.1| < |t|
  {
    if t == [] then None
    else if t[0] == '"' && |t| > 1 && t[1] == '"' then Cons('"', ReadQuotedField(t[2..]))
    else if t[0] == '"' then Some(([], t[1..]))
    else Cons(t[0], ReadQuotedField(t[1..]))
  }

  function Cons(c: char, r: Option<(string, string)>): Option<(string, string)> {
    match r
    case None => None
    case Some((s, rest)) => Some(([c] + s, rest))
  }

  /** An unquoted field: no quotes, no carriage returns. */
  function ReadPlainField(t: string, sep: char): Option<(string, string)>
    ensures ReadPlainField(t, sep).Some? ==> |ReadPlainField(t, sep).value.1| <= |t|
  {
    if t == [] || t[0] == sep || t[0] == '\n' then Some(([], t))
    else if t[0] == '"' || t[0] == '\r' then None
    else Cons(t[0], ReadPlainField(t[1..], sep))
  }

  function ReadField(t: string, sep: char): Option<(string, string)>
    ensures ReadField(t, sep).Some? ==> |ReadField(t, sep).value.1| <= |t|
  {
    if t != [] && t[0] == '"' then ReadQuotedField(t[1..]) else ReadPlainField(t, sep)
  }

  datatype Parsed = Fail | Record(fields: seq<string>, rest: string)

  function ReadRecord(t: string, sep: char): (r: Parsed)
    ensures r.Record? ==> |r.rest| < |t|
    decreases |t|, 1
  {
    match ReadField(t, sep)
    case None => Fail
    case Some((field, rest)) => Push(field, AfterField(rest, sep))
  }

  function Push(field: string, p: Parsed): (r: Parsed)
    ensures p.Record? ==> r.Record? && r.rest == p.rest
  {
    match p
    case Fail => Fail
    case Record(more, rest) => Record([field] + more, rest)
  }

  /** A field is followed by the separator and more, or by the end of the record. */
  function AfterField(t: string, sep: char): (r: Parsed)
    ensures r.Record? ==> |r.rest| < |t|
    decreases |t|, 0
  {
    if t == [] then Fail
    else if t[0] == '\n' then Record([], t[1..])
    else if t[0] == sep then ReadRecord(t[1..], sep)
    else Fail
  }

  function ParseCsv(t: string, sep: char): Option<seq<seq<string>>>
    decreases |t|
  {
    if t == [] then Some([])
    else match ReadRecord(t, sep)
         case Fail => None
         case Record(fields, rest) =>
           match ParseCsv(rest, sep)
           case None => None
           case Some(records) => Some([fields] + records)
  }

  // ---- what a section tree means --------------------------------------------------------------

  predicate Container(s: Section) { s.isWrapper || s.isArray }

  /** Containers hold sections only, other sections hold fields only, and names are names. */
  predicate Flat(t: Tree)
    decreases t, 0
  {
    WellNamed(t.section) && FlatItems(t.section, t.items)
  }

  predicate FlatItems(s: Section, items: seq<Item>)
    decreases items, 0
  {
    items != [] ==> FlatItem(s, items[0]) && FlatItems(s, items[1..])
  }

  predicate FlatItem(s: Section, item: Item)
    decreases item, 1
  {
    match item
    case Sub(t) => Container(s) && Flat(t)
    case _ => !Container(s)
  }

  function FieldOf(item: Item): string
    requires !item.Sub? && Printed(item)
  {
    if item.Str? then item.value.s else Decimal(item.n)
  }

  function Values(items: seq<Item>): seq<string> {
    if items == [] then []
    else (if !items[0].Sub? && Printed(items[0]) then [FieldOf(items[0])] else []) + Values(items[1..])
  }

  /** The first item is printed. */
  predicate StartsPrinted(items: seq<Item>) { items != [] && Printed(items[0]) }

  /** The section's name and its field values; a section that does not start with a printed field gets an
      empty field in front. */
  function Row(s: Section, items: seq<Item>): seq<string> {
    [s.name] + (if StartsPrinted(items) then [] else [""]) + Values(items)
  }

  function Rows(t: Tree): seq<seq<string>>
    decreases t, 0
  {
    if Container(t.section) then RowsOf(t.items) else [Row(t.section, t.items)]
  }

  function RowsOf(items: seq<Item>): seq<seq<string>>
    decreases items, 0
  {
    if items == [] then [] else RowsOfItem(items[0]) + RowsOf(items[1..])
  }

  function RowsOfItem(item: Item): seq<seq<string>>
    decreases item, 1
  {
    match item
    case Sub(t) => Rows(t)
    case _ => []
  }

  // ---- fields ---------------------------------------------------------------------------------

  /** The separator does not occur in names and numbers, and is no character of the syntax. */
  predicate SepOk(sep: char) { !InName(sep) && sep != '"' && sep != '\n' && sep != '\r' }

  predicate EndsField(t: string, sep: char) { t != [] && (t[0] == sep || t[0] == '\n') }

  lemma QuoteReads(tail: string)
    ensures ReadQuotedField("\"\"" + tail) == Cons('"', ReadQuotedField(tail))
  {
    assert ("\"\"" + tail)[2..] == tail;
  }

  lemma CharReads(c: char, tail: string)
    requires c != '"'
    ensures ReadQuotedField([c] + tail) == Cons(c, ReadQuotedField(tail))
  {
    assert ([c] + tail)[1..] == tail;
  }

  lemma {:induction false} QuotedReads(s: string, rest: string)
    requires rest == [] || rest[0] != '"'
    ensures ReadQuotedField(DoubleQuotes(s) + ("\"" + rest)) == Some((s, rest))
  {
    var end := "\"" + rest;
    if s == [] {
      assert [] + end == end && end[1..] == rest;
    } else {
      var tail := DoubleQuotes(s[1..]) + end;
      QuotedReads(s[1..], rest);
      if s[0] == '"' {
        QuoteReads(tail);
        Assoc("\"\"", DoubleQuotes(s[1..]), end);
      } else {
        CharReads(s[0], tail);
        Assoc([s[0]], DoubleQuotes(s[1..]), end);
      }
      assert [s[0]] + s[1..] == s;
    }
  }

  lemma {:induction false} PlainReads(s: string, sep: char, rest: string)
    requires EndsField(rest, sep) && forall c :: c in s ==> c != sep && c != '"' && c != '\n' && c != '\r'
    ensures ReadPlainField(s + rest, sep) == Some((s, rest)) && DoubleQuotes(s) == s
  {
    if s == [] {
      assert s + rest == rest;
    } else {
      assert (s + rest)[1..] == s[1..] + rest && [s[0]] + s[1..] == s;
      assert s[0] in s && forall c :: c in s[1..] ==> c in s;
      PlainReads(s[1..], sep, rest);
    }
  }

  lemma QuoteOpens(body: string, sep: char)
    ensures ReadField(['"'] + body, sep) == ReadQuotedField(body)
  {
    assert (['"'] + body)[1..] == body;
  }

  lemma PlainField(s: string, sep: char, rest: string)
    requires EndsField(rest, sep) && SepOk(sep) && !NeedsQuoting(s, sep)
    ensures ReadField(s + rest, sep) == Some((s, rest)) && DoubleQuotes(s) == s
  {
    PlainReads(s, sep, rest);
    assert s != [] ==> s[0] in s;
    assert (s + rest)[0] == if s == [] then rest[0] else s[0];
  }

  /** Every escaped field is read back, whatever it contains. */
  lemma FieldReads(s: string, sep: char, rest: string)
    requires SepOk(sep) && EndsField(rest, sep)
    ensures ReadField(CsvEscape(s, sep) + rest, sep) == Some((s, rest))
  {
    if NeedsQuoting(s, sep) {
      QuotedReads(s, rest);
      QuoteOpens(DoubleQuotes(s) + ("\"" + rest), sep);
      assert CsvEscape(s, sep) + rest == ['"'] + (DoubleQuotes(s) + ("\"" + rest));
    } else {
      PlainField(s, sep, rest);
    }
  }

  /** Names and numbers are printed as they are. */
  lemma NameReads(s: string, sep: char, rest: string)
    requires SepOk(sep) && EndsField(rest, sep) && forall c :: c in s ==> InName(c)
    ensures ReadField(s + rest, sep) == Some((s, rest))
  {
    PlainReads(s, sep, rest);
    assert s + rest != [] && ((s + rest)[0] == rest[0] || (s + rest)[0] in s);
  }

  lemma {:induction false} NaturalInName(n: nat)
    ensures forall c :: c in Natural(n) ==> InName(c)
  {
    if n >= 10 {
      NaturalInName(n / 10);
    }
  }

  lemma ScalarReads(item: Item, sep: char, rest: string)
    requires SepOk(sep) && EndsField(rest, sep) && !item.Sub? && Printed(item)
    ensures var text := if item.Str? then CsvEscape(item.value.s, sep) else Decimal(item.n);
      ReadField(text + rest, sep) == Some((FieldOf(item), rest))
  {
    if item.Str? {
      FieldReads(item.value.s, sep, rest);
    } else {
      NaturalInName(if item.n < 0 then -item.n else item.n);
      NameReads(Decimal(item.n), sep, rest);
    }
  }

  // ---- records --------------------------------------------------------------------------------

  function FieldText(item: Item, sep: char): string
    requires !item.Sub? && Printed(item)
  {
    if item.Str? then CsvEscape(item.value.s, sep) else Decimal(item.n)
  }

  /** The text of a section's fields when `nb` items are counted before them. */
  function Body(items: seq<Item>, nb: nat, sep: char): string {
    if items == [] then []
    else BodyItem(items[0], nb, sep) + Body(items[1..], nb + 1, sep)
  }

  function BodyItem(item: Item, nb: nat, sep: char): string {
    if item.Sub? || !Printed(item) then [] else (if nb != 0 then [sep] else []) + FieldText(item, sep)
  }

  lemma {:induction false} BodyEnds(s: Section, items: seq<Item>, nb: nat, sep: char, rest: string)
    requires FlatItems(s, items) && !Container(s) && (nb > 0 || !StartsPrinted(items))
    ensures EndsField(Body(items, nb, sep) + ("\n" + rest), sep)
  {
    var end := "\n" + rest;
    if items == [] {
      assert [] + end == end;
    } else if !Printed(items[0]) {
      BodyEnds(s, items[1..], nb + 1, sep, rest);
      assert Body(items, nb, sep) == Body(items[1..], nb + 1, sep);
    }
  }

  /** One more field, and the rest of the record after it. */
  lemma FieldThen(s: Section, items: seq<Item>, nb: nat, sep: char, rest: string)
    requires SepOk(sep) && FlatItems(s, items) && !Container(s) && nb > 0
    requires items != [] && !items[0].Sub? && Printed(items[0])
    ensures var tail := Body(items[1..], nb, sep) + ("\n" + rest);
      ReadRecord(FieldText(items[0], sep) + tail, sep) == Push(FieldOf(items[0]), AfterField(tail, sep))
  {
    BodyEnds(s, items[1..], nb, sep, rest);
    ScalarReads(items[0], sep, Body(items[1..], nb, sep) + ("\n" + rest));
  }

  lemma AfterSep(t: string, sep: char)
    requires SepOk(sep)
    ensures AfterField([sep] + t, sep) == ReadRecord(t, sep)
  {
    assert ([sep] + t)[1..] == t;
  }

  lemma Assoc4(a: string, b: string, c: string, d: string)
    ensures (a + b + c) + d == a + (b + (c + d))
  {
  }

  lemma {:induction false} MoreFields(s: Section, items: seq<Item>, nb: nat, sep: char, rest: string)
    requires SepOk(sep) && FlatItems(s, items) && !Container(s) && nb > 0
    ensures AfterField(Body(items, nb, sep) + ("\n" + rest), sep) == Record(Values(items), rest)
  {
    var end := "\n" + rest;
    if items == [] {
      assert [] + end == end && end[1..] == rest;
    } else {
      MoreFields(s, items[1..], nb + 1, sep, rest);
      if Printed(items[0]) {
        FieldThen(s, items, nb + 1, sep, rest);
        Assoc4([sep], FieldText(items[0], sep), Body(items[1..], nb + 1, sep), end);
        AfterSep(FieldText(items[0], sep) + (Body(items[1..], nb + 1, sep) + end), sep);
      } else {
        HiddenItem(items, nb, sep);
      }
    }
  }

  lemma HiddenItem(items: seq<Item>, nb: nat, sep: char)
    requires items != [] && !items[0].Sub? && !Printed(items[0])
    ensures Body(items, nb, sep) == Body(items[1..], nb + 1, sep) && Values(items) == Values(items[1..])
  {
  }

  /** The fields of a record, from the first. */
  lemma FieldsRead(s: Section, items: seq<Item>, sep: char, rest: string)
    requires SepOk(sep) && FlatItems(s, items) && !Container(s)
    ensures ReadRecord(Body(items, 0, sep) + ("\n" + rest), sep) ==
            Record((if StartsPrinted(items) then [] else [""]) + Values(items), rest)
  {
    if StartsPrinted(items) { FirstField(s, items, sep, rest); } else { LateFields(s, items, sep, rest); }
  }

  lemma FirstField(s: Section, items: seq<Item>, sep: char, rest: string)
    requires SepOk(sep) && FlatItems(s, items) && !Container(s)
    requires items != [] && !items[0].Sub? && Printed(items[0])
    ensures ReadRecord(Body(items, 0, sep) + ("\n" + rest), sep) == Record([] + Values(items), rest)
  {
    MoreFields(s, items[1..], 1, sep, rest);
    FieldThen(s, items, 1, sep, rest);
    var tail := Body(items[1..], 1, sep) + ("\n" + rest);
    Assoc4([], FieldText(items[0], sep), Body(items[1..], 1, sep), "\n" + rest);
    assert [] + (FieldText(items[0], sep) + tail) == FieldText(items[0], sep) + tail;
    assert Values(items) == [FieldOf(items[0])] + Values(items[1..]);
  }

  /** Nothing printed first: the record goes on as after an empty field. */
  lemma LateFields(s: Section, items: seq<Item>, sep: char, rest: string)
    requires SepOk(sep) && FlatItems(s, items) && !Container(s) && !StartsPrinted(items)
    ensures ReadRecord(Body(items, 0, sep) + ("\n" + rest), sep) == Record([""] + Values(items), rest)
  {
    var t := Body(items, 0, sep) + ("\n" + rest);
    BodyEnds(s, items, 0, sep, rest);
    NameReads([], sep, t);
    assert [] + t == t;
    LateValues(s, items, sep, rest);
  }

  lemma LateValues(s: Section, items: seq<Item>, sep: char, rest: string)
    requires SepOk(sep) && FlatItems(s, items) && !Container(s) && !StartsPrinted(items)
    ensures AfterField(Body(items, 0, sep) + ("\n" + rest), sep) == Record(Values(items), rest)
  {
    var end := "\n" + rest;
    if items == [] {
      assert [] + end == end && end[1..] == rest;
    } else {
      HiddenItem(items, 0, sep);
      MoreFields(s, items[1..], 1, sep, rest);
    }
  }

  function RowText(s: Section, items: seq<Item>, sep: char): string {
    s.name + ([sep] + (Body(items, 0, sep) + "\n"))
  }

  lemma RowLayout(name: string, sep: string, body: string, rest: string)
    ensures name + (sep + (body + "\n")) + rest == name + (sep + (body + ("\n" + rest)))
  {
  }

  lemma RowFields(s: Section, items: seq<Item>)
    ensures [s.name] + ((if StartsPrinted(items) then [] else [""]) + Values(items)) == Row(s, items)
  {
  }

  lemma RowReads(s: Section, items: seq<Item>, sep: char, rest: string)
    requires SepOk(sep) && WellNamed(s) && FlatItems(s, items) && !Container(s)
    ensures ReadRecord(RowText(s, items, sep) + rest, sep) == Record(Row(s, items), rest)
  {
    var body := Body(items, 0, sep) + ("\n" + rest);
    FieldsRead(s, items, sep, rest);
    NameReads(s.name, sep, [sep] + body);
    RowLayout(s.name, [sep], Body(items, 0, sep), rest);
    AfterSep(body, sep);
    RowFields(s, items);
  }

  // ---- from the writer to the parser ----------------------------------------------------------

  function Text(ts: seq<Token>): string { RenderAll(Json, ts) }

  lemma TextAppend(a: seq<Token>, b: seq<Token>)
    ensures Text(a + b) == Text(a) + Text(b)
  {
    RenderAppend(Json, a, b);
  }

  lemma TextOne(s: string)
    ensures Text([Raw(s)]) == s
  {
    var ts: seq<Token> := [Raw(s)];
    assert ts[1..] == [] && RenderAll(Json, ts) == Render(Json, ts[0]) + RenderAll(Json, ts[1..]);
    assert Render(Json, ts[0]) == s && s + [] == s;
  }

  lemma {:induction false} FieldsText(c: Context, items: seq<Item>)
    requires c.levels != [] && c.priv.CsvPriv? && c.priv.nokey && !Container(c.levels[|c.levels| - 1].section)
    requires FlatItems(c.levels[|c.levels| - 1].section, items)
    requires FullItems(true, c.levels[|c.levels| - 1].section, items)
    ensures var l := c.levels[|c.levels| - 1];
      Text(WriteItems(c, items).1) == Body(items, l.nbItem, c.priv.sep)
    decreases items
  {
    if items != [] {
      var (c1, first) := WriteItem(c, items[0]);
      FullIsVisible(c.priv, c.levels[|c.levels| - 1].section, items[0]);
      LevelMoves(c, items[0]);
      FieldText1(c, items[0]);
      FieldsText(c1, items[1..]);
      TextAppend(first, WriteItems(c1, items[1..]).1);
    }
  }

  lemma FieldText1(c: Context, item: Item)
    requires c.levels != [] && c.priv.CsvPriv? && c.priv.nokey && !item.Sub?
    requires FullItem(true, c.levels[|c.levels| - 1].section, item)
    ensures var l := c.levels[|c.levels| - 1];
      Text(WriteItem(c, item).1) == BodyItem(item, l.nbItem, c.priv.sep)
  {
    var l := c.levels[|c.levels| - 1];
    FullIsVisible(c.priv, l.section, item);
    if Printed(item) {
      var sep := if l.nbItem != 0 then [Raw([c.priv.sep])] else [];
      TextAppend(sep, [Raw(FieldText(item, c.priv.sep))]);
      TextOne(FieldText(item, c.priv.sep));
      TextOne([c.priv.sep]);
    }
  }

  /** The text of a whole subtree. */
  function TreeText(t: Tree, sep: char): string
    decreases t, 0
  {
    if Container(t.section) then ItemsText(t.items, sep) else RowText(t.section, t.items, sep)
  }

  function ItemsText(items: seq<Item>, sep: char): string
    decreases items, 0
  {
    if items == [] then [] else ItemText(items[0], sep) + ItemsText(items[1..], sep)
  }

  function ItemText(item: Item, sep: char): string
    decreases item, 1
  {
    match item
    case Sub(t) => TreeText(t, sep)
    case _ => []
  }

  lemma HeadAndFoot(s: Section, sep: char)
    requires !Container(s)
    ensures Text(CsvOpen(s, sep)) == s.name + [sep] && Text(CsvClose(s)) == "\n"
  {
    assert [Raw(s.name), Raw([sep])] == [Raw(s.name)] + [Raw([sep])];
    TextAppend([Raw(s.name)], [Raw([sep])]);
    TextOne(s.name);
    TextOne([sep]);
    TextOne("\n");
  }

  lemma {:induction false} WriteText(c: Context, t: Tree)
    requires c.priv.CsvPriv? && c.priv.nokey && Flat(t) && Full(true, t)
    ensures Text(Write(c, t).1) == TreeText(t, c.priv.sep)
    decreases t, 0
  {
    var (c1, head) := Header(c, t.section);
    var (c2, body) := WriteItems(c1, t.items);
    var foot := Footer(c2).1;
    assert c1.levels[|c1.levels| - 1] == Level(t.section, 0);
    ItemsRestore(c1, t.items);
    TextAppend(head, body);
    TextAppend(head + body, foot);
    if Container(t.section) {
      ContainerText(c1, t.items);
      assert Text(head) + Text(body) + Text(foot) == Text(body);
    } else {
      FieldsText(c1, t.items);
      HeadAndFoot(t.section, c.priv.sep);
      Line(t.section.name, [c.priv.sep], Text(body));
    }
  }

  lemma Line(name: string, sep: string, body: string)
    ensures (name + sep) + body + "\n" == name + (sep + (body + "\n"))
  {
  }

  lemma {:induction false} ContainerText(c: Context, items: seq<Item>)
    requires c.levels != [] && c.priv.CsvPriv? && c.priv.nokey && Container(c.levels[|c.levels| - 1].section)
    requires FlatItems(c.levels[|c.levels| - 1].section, items)
    requires FullItems(true, c.levels[|c.levels| - 1].section, items)
    ensures Text(WriteItems(c, items).1) == ItemsText(items, c.priv.sep)
    decreases items, 0
  {
    if items != [] {
      var (c1, first) := WriteItem(c, items[0]);
      LevelMoves(c, items[0]);
      MemberText(c, items[0]);
      ContainerText(c1, items[1..]);
      TextAppend(first, WriteItems(c1, items[1..]).1);
    }
  }

  lemma {:induction false} MemberText(c: Context, item: Item)
    requires c.levels != [] && c.priv.CsvPriv? && c.priv.nokey && item.Sub? && Flat(item.tree) && Full(true, item.tree)
    ensures Text(WriteItem(c, item).1) == ItemText(item, c.priv.sep)
    decreases item, 1
  {
    WriteText(c, item.tree);
  }

  /** Records followed by more text. */
  function Then(rows: seq<seq<string>>, more: Option<seq<seq<string>>>): Option<seq<seq<string>>> {
    match more
    case None => None
    case Some(rest) => Some(rows + rest)
  }

  lemma {:induction false} TreeReads(t: Tree, sep: char, rest: string)
    requires SepOk(sep) && Flat(t)
    ensures ParseCsv(TreeText(t, sep) + rest, sep) == Then(Rows(t), ParseCsv(rest, sep))
    decreases t, 0
  {
    if Container(t.section) {
      ItemsRead(t.section, t.items, sep, rest);
    } else {
      RowReads(t.section, t.items, sep, rest);
      assert TreeText(t, sep) + rest != [];
    }
  }

  lemma {:induction false} ItemsRead(s: Section, items: seq<Item>, sep: char, rest: string)
    requires SepOk(sep) && FlatItems(s, items) && Container(s)
    ensures ParseCsv(ItemsText(items, sep) + rest, sep) == Then(RowsOf(items), ParseCsv(rest, sep))
    decreases items, 0
  {
    if items == [] {
      assert [] + rest == rest;
      if ParseCsv(rest, sep).Some? { assert [] + ParseCsv(rest, sep).value == ParseCsv(rest, sep).value; }
    } else {
      var tail := ItemsText(items[1..], sep) + rest;
      ItemReads(items[0], sep, tail);
      ItemsRead(s, items[1..], sep, rest);
      assert ItemsText(items, sep) + rest == ItemText(items[0], sep) + tail;
      ThenTwice(RowsOfItem(items[0]), RowsOf(items[1..]), ParseCsv(rest, sep));
    }
  }

  lemma ThenTwice(a: seq<seq<string>>, b: seq<seq<string>>, more: Option<seq<seq<string>>>)
    ensures Then(a, Then(b, more)) == Then(a + b, more)
  {
    if more.Some? { assert a + (b + more.value) == a + b + more.value; }
  }

  lemma {:induction false} ItemReads(item: Item, sep: char, rest: string)
    requires SepOk(sep) && item.Sub? && Flat(item.tree)
    ensures ParseCsv(ItemText(item, sep) + rest, sep) == Then(RowsOfItem(item), ParseCsv(rest, sep))
    decreases item, 1
  {
    TreeReads(item.tree, sep, rest);
  }

  /** Whole CSV output: one record for each section of what was selected, in order, holding its name and its field
      values exactly, plus an empty field where the section does not start with a printed one. */
  lemma CsvRoundTrip(t: Tree, sep: char)
    requires SepOk(sep) && Flat(Selected(true, t))
    ensures ParseCsv(RenderAll(Json, Write(Start(CsvPriv(sep, true)), t).1), sep) == Some(Rows(Selected(true, t)))
  {
    var kept := Selected(true, t);
    PrintsSelected(CsvPriv(sep, true), t);
    SelectedIsFull(true, t);
    WriteText(Start(CsvPriv(sep, true)), kept);
    TreeReads(kept, sep, []);
    assert TreeText(kept, sep) + [] == TreeText(kept, sep);
    assert Rows(kept) + [] == Rows(kept);
  }
}
