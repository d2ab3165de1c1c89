/** A JSON parser (sections 4, 5 and 7 of RFC 8259; numbers without fraction or exponent) and the proof
    that it reads back what ffprobe's JSON writer prints, exactly when that can be read at all. */
module JsonReader {
  import opened Common
  import opened Escapes
  import opened Tokens
  import opened Writers
  import opened Selection

  datatype Json = JString(s: string) | JNumber(n: int)
    | JArray(elements: seq<Json>) | JObject(members: seq<(string, Json)>)

  datatype Parsed<+T> = Fail | Done(value: T, rest: seq<Token>)

  function ParseValue(ts: seq<Token>): (r: Parsed<Json>)
    ensures r.Done? ==> |r.rest| < |ts|
    decreases |ts|, 1
  {
    if ts == [] then Fail
    else match ts[0]
         case Quoted(s) => Done(JString(s), ts[1..])
         case Number(n) => Done(JNumber(n), ts[1..])
         case Punct(c) =>
           if c == '{' then
             if |ts| > 1 && ts[1] == Punct('}') then Done(JObject([]), ts[2..])
             else match ParseMembers(ts[1..])
                  case Fail => Fail
                  case Done(ms, rest) => Done(JObject(ms), rest)
           else if c == '[' then
             if |ts| > 1 && ts[1] == Punct(']') then Done(JArray([]), ts[2..])
             else match ParseElements(ts[1..])
                  case Fail => Fail
                  case Done(es, rest) => Done(JArray(es), rest)
           else Fail
         case _ => Fail
  }

  function ParseMembers(ts: seq<Token>): (r: Parsed<seq<(string, Json)>>)
    ensures r.Done? ==> |r.rest| < |ts|
    decreases |ts|, 2
  {
    if |ts| < 2 || !ts[0].Quoted? || ts[1] != Punct(':') then Fail
    else match ParseValue(ts[2..])
         case Fail => Fail
         case Done(v, rest) =>
           match ParseMoreMembers(rest)
           case Fail => Fail
           case Done(ms, rest) => Done([(ts[0].s, v)] + ms, rest)
  }

  /** After a member: the end of the object, or a comma and more. */
  function ParseMoreMembers(ts: seq<Token>): (r: Parsed<seq<(string, Json)>>)
    ensures r.Done? ==> |r.rest| < |ts|
    decreases |ts|, 0
  {
    if ts == [] then Fail
    else if ts[0] == Punct('}') then Done([], ts[1..])
    else if ts[0] == Punct(',') then ParseMembers(ts[1..])
    else Fail
  }

  function ParseElements(ts: seq<Token>): (r: Parsed<seq<Json>>)
    ensures r.Done? ==> |r.rest| < |ts|
    decreases |ts|, 2
  {
    match ParseValue(ts)
    case Fail => Fail
    case Done(v, rest) =>
      match ParseMoreElements(rest)
      case Fail => Fail
      case Done(es, rest) => Done([v] + es, rest)
  }

  function ParseMoreElements(ts: seq<Token>): (r: Parsed<seq<Json>>)
    ensures r.Done? ==> |r.rest| < |ts|
    decreases |ts|, 0
  {
    if ts == [] then Fail
    else if ts[0] == Punct(']') then Done([], ts[1..])
    else if ts[0] == Punct(',') then ParseElements(ts[1..])
    else Fail
  }

  /** A whole JSON text. */
  function ParseJson(text: string): Option<Json> {
    match Lex(Json, text)
    case None => None
    case Some(ts) =>
      match ParseValue(ts)
      case Fail => None
      case Done(v, rest) => if rest == [] then Some(v) else None
  }

  // ---- what a section tree means --------------------------------------------------------------

  /** Arrays hold only object sections and nothing of their own; only the root is a wrapper. */
  predicate Regular(t: Tree)
    decreases t, 0
  {
    !t.section.isWrapper && RegularItems(t.section, t.items)
  }

  predicate RegularItems(s: Section, items: seq<Item>)
    decreases items, 0
  {
    items != [] ==> RegularItem(s, items[0]) && RegularItems(s, items[1..])
  }

  predicate RegularItem(s: Section, item: Item)
    decreases item, 1
  {
    match item
    case Sub(t) => Regular(t) && !(s.isArray && t.section.isArray)
    case _ => !s.isArray
  }

  /** The member that tells packets from frames. */
  predicate TypePrefix(parent: Section, t: Tree) {
    parent.isArray && parent.packetsAndFrames && !t.section.isArray
  }

  function ValueOf(parent: Section, t: Tree): Json
    decreases t, 0
  {
    if t.section.isArray then JArray(Elements(t.section, t.items))
    else JObject((if TypePrefix(parent, t) then [("type", JString(t.section.name))] else [])
                 + Members(t.section, t.items))
  }

  function Members(s: Section, items: seq<Item>): seq<(string, Json)>
    decreases items, 0
  {
    if items == [] then [] else Member(s, items[0]) + Members(s, items[1..])
  }

  function Member(s: Section, item: Item): seq<(string, Json)>
    decreases item, 1
  {
    match item
    case Sub(t) => [(t.section.name, ValueOf(s, t))]
    case Str(_, _, value) =>
      if Printed(item) then [(KeyOf(item), JString(value.s))] else []
    case Int(key, n) => [(key, JNumber(n))]
  }

  function Elements(s: Section, items: seq<Item>): seq<Json>
    decreases items, 0
  {
    if items == [] then [] else Element(s, items[0]) + Elements(s, items[1..])
  }

  function Element(s: Section, item: Item): seq<Json>
    decreases item, 1
  {
    match item
    case Sub(t) => [ValueOf(s, t)]
    case _ => []
  }

  // ---- when the output can be read ------------------------------------------------------------

  /** The first item is printed. */
  predicate StartsPrinted(items: seq<Item>) { items != [] && Printed(items[0]) }

  predicate NothingPrinted(items: seq<Item>) { items != [] ==> !Printed(items[0]) && NothingPrinted(items[1..]) }

  /** No string that fails validation comes before the first printed item, and a packet or frame next to
      others of its kind has an item. */
  predicate Good(parent: Section, t: Tree)
    decreases t, 0
  {
    && GoodItems(t.section, t.items)
    && (t.section.isArray
        || StartsPrinted(t.items)
        || (NothingPrinted(t.items) && !TypePrefix(parent, t)))
  }

  predicate GoodItems(s: Section, items: seq<Item>)
    decreases items, 0
  {
    items != [] ==> GoodItem(s, items[0]) && GoodItems(s, items[1..])
  }

  predicate GoodItem(s: Section, item: Item)
    decreases item, 1
  {
    match item
    case Sub(t) => Good(s, t)
    case _ => true
  }

  // ---- the printed tokens without layout ------------------------------------------------------

  function Comma(nb: nat): seq<Token> { if nb != 0 then [Punct(',')] else [] }

  function BareKey(s: string): seq<Token> { [Quoted(s), Punct(':')] }

  /** A subsection's value, after its key if it has one. */
  function BareValue(parent: Section, t: Tree): seq<Token>
    decreases t, 0
  {
    if t.section.isArray then [Punct('[')] + BareItems(t.section, t.items, 0) + [Punct(']')]
    else
      [Punct('{')]
      + (if TypePrefix(parent, t) then BareKey("type") + [Quoted(t.section.name), Punct(',')] else [])
      + BareItems(t.section, t.items, 0) + [Punct('}')]
  }

  function BareItems(s: Section, items: seq<Item>, nb: nat): seq<Token>
    decreases items, 0
  {
    if items == [] then []
    else BareItem(s, items[0], nb) + BareItems(s, items[1..], nb + 1)
  }

  function BareItem(s: Section, item: Item, nb: nat): seq<Token>
    decreases item, 1
  {
    match item
    case Sub(t) => Comma(nb)
      + (if s.isArray && !t.section.isArray then [] else BareKey(t.section.name)) + BareValue(s, t)
    case Str(_, _, value) =>
      if Printed(item) then Comma(nb) + BareKey(KeyOf(item)) + [Quoted(value.s)] else []
    case Int(key, n) => Comma(nb) + BareKey(key) + [Number(n)]
  }

  // ---- parsing them ---------------------------------------------------------------------------

  /** Parsing one member and going on. */
  function ThenMembers(good: bool, first: seq<(string, Json)>, more: Parsed<seq<(string, Json)>>)
    : Parsed<seq<(string, Json)>>
  {
    if !good || more.Fail? then Fail else Done(first + more.value, more.rest)
  }

  function ThenElements(good: bool, first: seq<Json>, more: Parsed<seq<Json>>): Parsed<seq<Json>> {
    if !good || more.Fail? then Fail else Done(first + more.value, more.rest)
  }

  lemma MembersAt(key: string, value: seq<Token>, rest: seq<Token>)
    ensures ParseMembers(BareKey(key) + value + rest) ==
      match ParseValue(value + rest)
      case Fail => Fail
      case Done(v, rest) => ThenMembers(true, [(key, v)], ParseMoreMembers(rest))
  {
    var ts := BareKey(key) + value + rest;
    assert ts[0] == Quoted(key) && ts[1] == Punct(':') && ts[2..] == value + rest;
  }

  lemma {:induction false} MemberParses(s: Section, item: Item, rest: seq<Token>)
    requires RegularItem(s, item) && !s.isArray && Printed(item)
    ensures ParseMembers(BareItem(s, item, 0) + rest) ==
            ThenMembers(GoodItem(s, item), Member(s, item), ParseMoreMembers(rest))
    decreases item, 1
  {
    match item
    case Sub(t) =>
      ValueParses(s, t, rest);
      MembersAt(t.section.name, BareValue(s, t), rest);
      assert BareItem(s, item, 0) == BareKey(t.section.name) + BareValue(s, t);
    case Str(_, _, value) =>
      MembersAt(KeyOf(item), [Quoted(value.s)], rest);
      assert BareItem(s, item, 0) == BareKey(KeyOf(item)) + [Quoted(value.s)];
      assert ([Quoted(value.s)] + rest)[1..] == rest;
    case Int(key, n) =>
      MembersAt(key, [Number(n)], rest);
      assert BareItem(s, item, 0) == BareKey(key) + [Number(n)];
      assert ([Number(n)] + rest)[1..] == rest;
  }

  /** Items that are not printed leave nothing. */
  lemma HiddenItem(s: Section, item: Item, nb: nat)
    requires !Printed(item)
    ensures BareItem(s, item, nb) == [] && GoodItem(s, item) && Member(s, item) == [] && !item.Sub?
  {
  }

  lemma ShownItem(s: Section, item: Item, nb: nat)
    requires Printed(item)
    ensures BareItem(s, item, nb) == Comma(nb) + BareItem(s, item, 0)
  {
    match item
    case Sub(t) =>
      CommaFirst(nb, if s.isArray && !t.section.isArray then [] else BareKey(t.section.name), BareValue(s, t));
    case Str(_, _, value) => CommaFirst(nb, BareKey(KeyOf(item)), [Quoted(value.s)]);
    case Int(key, n) => CommaFirst(nb, BareKey(key), [Number(n)]);
  }

  lemma CommaFirst(nb: nat, key: seq<Token>, value: seq<Token>)
    ensures Comma(nb) + key + value == Comma(nb) + (Comma(0) + key + value)
  {
  }

  lemma NextMember(s: Section, items: seq<Item>, nb: nat, end: seq<Token>)
    requires items != [] && Printed(items[0]) && nb > 0
    ensures ParseMoreMembers(BareItems(s, items, nb) + end) ==
            ParseMembers(BareItem(s, items[0], 0) + (BareItems(s, items[1..], nb + 1) + end))
  {
    var after := BareItem(s, items[0], 0) + (BareItems(s, items[1..], nb + 1) + end);
    ShownItem(s, items[0], nb);
    assert BareItems(s, items, nb) + end == [Punct(',')] + after;
    assert ([Punct(',')] + after)[1..] == after;
  }

  /** The items after the first one, up to the closing brace. */
  lemma {:induction false} MoreMembersParse(s: Section, items: seq<Item>, nb: nat, rest: seq<Token>)
    requires RegularItems(s, items) && !s.isArray && nb > 0
    ensures ParseMoreMembers(BareItems(s, items, nb) + ([Punct('}')] + rest)) ==
            if GoodItems(s, items) then Done(Members(s, items), rest) else Fail
    decreases items, 0
  {
    var end := [Punct('}')] + rest;
    if items == [] {
      assert [] + end == end && end[1..] == rest;
    } else {
      var tail := BareItems(s, items[1..], nb + 1) + end;
      MoreMembersParse(s, items[1..], nb + 1, rest);
      if Printed(items[0]) {
        NextMember(s, items, nb, end);
        MemberParses(s, items[0], tail);
      } else {
        HiddenItem(s, items[0], nb);
        assert BareItems(s, items, nb) + end == tail;
        assert Members(s, items) == Members(s, items[1..]);
      }
    }
  }

  /** When the first item is printed, the items parse from the first one on. */
  lemma {:induction false} MembersParse(s: Section, items: seq<Item>, rest: seq<Token>)
    requires RegularItems(s, items) && !s.isArray && StartsPrinted(items)
    ensures BareItems(s, items, 0) != [] && BareItems(s, items, 0)[0].Quoted?
    ensures ParseMembers(BareItems(s, items, 0) + ([Punct('}')] + rest)) ==
            if GoodItems(s, items) then Done(Members(s, items), rest) else Fail
    decreases items, 0
  {
    var end := [Punct('}')] + rest;
    var tail := BareItems(s, items[1..], 1) + end;
    MoreMembersParse(s, items[1..], 1, rest);
    MemberParses(s, items[0], tail);
    assert BareItems(s, items, 0) + end == BareItem(s, items[0], 0) + tail;
    assert BareItem(s, items[0], 0)[0].Quoted?;
  }

  lemma {:induction false} NothingIsBare(s: Section, items: seq<Item>, nb: nat)
    requires NothingPrinted(items)
    ensures BareItems(s, items, nb) == [] && GoodItems(s, items) && Members(s, items) == []
  {
    if items != [] {
      HiddenItem(s, items[0], nb);
      NothingIsBare(s, items[1..], nb + 1);
    }
  }

  /** With a counted but unprinted item in front, the first printed item comes after a comma. */
  lemma {:induction false} LateStart(s: Section, items: seq<Item>, nb: nat)
    requires !NothingPrinted(items) && (nb > 0 || !StartsPrinted(items))
    ensures BareItems(s, items, nb) != [] && BareItems(s, items, nb)[0] == Punct(',')
  {
    if Printed(items[0]) {
      ShownItem(s, items[0], nb);
    } else {
      HiddenItem(s, items[0], nb);
      LateStart(s, items[1..], nb + 1);
    }
  }

  lemma {:induction false} ElementParses(s: Section, item: Item, rest: seq<Token>)
    requires RegularItem(s, item) && s.isArray
    ensures ParseElements(BareItem(s, item, 0) + rest) ==
            ThenElements(GoodItem(s, item), Element(s, item), ParseMoreElements(rest))
    ensures BareItem(s, item, 0) != [] && BareItem(s, item, 0)[0] == Punct('{')
    decreases item, 1
  {
    ValueParses(s, item.tree, rest);
    assert BareItem(s, item, 0) == BareValue(s, item.tree);
  }

  lemma {:induction false} MoreElementsParse(s: Section, items: seq<Item>, nb: nat, rest: seq<Token>)
    requires RegularItems(s, items) && s.isArray && nb > 0
    ensures ParseMoreElements(BareItems(s, items, nb) + ([Punct(']')] + rest)) ==
            if GoodItems(s, items) then Done(Elements(s, items), rest) else Fail
    decreases items, 0
  {
    var end := [Punct(']')] + rest;
    if items == [] {
      assert [] + end == end && end[1..] == rest;
    } else {
      var tail := BareItems(s, items[1..], nb + 1) + end;
      MoreElementsParse(s, items[1..], nb + 1, rest);
      ShownItem(s, items[0], nb);
      var ts := BareItems(s, items, nb) + end;
      assert ts == [Punct(',')] + (BareItem(s, items[0], 0) + tail);
      assert ts[1..] == BareItem(s, items[0], 0) + tail;
      ElementParses(s, items[0], tail);
    }
  }

  lemma {:induction false} ObjectParses(s: Section, items: seq<Item>, rest: seq<Token>)
    requires RegularItems(s, items) && !s.isArray
    ensures ParseValue([Punct('{')] + BareItems(s, items, 0) + [Punct('}')] + rest) ==
            if GoodItems(s, items) && (StartsPrinted(items) || NothingPrinted(items))
            then Done(JObject(Members(s, items)), rest) else Fail
    decreases items, 1
  {
    var body := BareItems(s, items, 0) + ([Punct('}')] + rest);
    var ts := [Punct('{')] + BareItems(s, items, 0) + [Punct('}')] + rest;
    assert ts[0] == Punct('{') && ts[1..] == body;
    if StartsPrinted(items) {
      MembersParse(s, items, rest);
      assert ts[1] == BareItems(s, items, 0)[0];
    } else if NothingPrinted(items) {
      NothingIsBare(s, items, 0);
      assert ts[1] == Punct('}') && ts[2..] == rest;
    } else {
      LateStart(s, items, 0);
      assert body[0] == Punct(',') && ts[1] == Punct(',');
    }
  }

  lemma TypedLayout(head: seq<Token>, items: seq<Token>, end: seq<Token>, rest: seq<Token>)
    ensures var ts := [Punct('{')] + (head + [Punct(',')]) + items + end + rest;
      ts[0] == Punct('{') && ts[1..] == head + ([Punct(',')] + (items + (end + rest)))
  {
  }

  /** The type member, up to its comma. */
  lemma TypeAt(name: string, items: seq<Token>, end: seq<Token>, rest: seq<Token>)
    ensures ParseValue([Punct('{')] + (BareKey("type") + [Quoted(name), Punct(',')]) + items + end + rest) ==
      match ParseMembers(items + (end + rest))
      case Fail => Fail
      case Done(ms, rest) => Done(JObject([("type", JString(name))] + ms), rest)
  {
    var tail := [Punct(',')] + (items + (end + rest));
    TypedLayout(BareKey("type") + [Quoted(name)], items, end, rest);
    assert BareKey("type") + [Quoted(name), Punct(',')] == BareKey("type") + [Quoted(name)] + [Punct(',')];
    MembersAt("type", [Quoted(name)], tail);
    assert ([Quoted(name)] + tail)[1..] == tail && tail[1..] == items + (end + rest);
    assert (BareKey("type") + [Quoted(name)] + tail)[0] == Quoted("type");
  }

  /** An object that starts with the type member, whose comma is already printed. */
  lemma {:induction false} TypedParses(name: string, s: Section, items: seq<Item>, rest: seq<Token>)
    requires RegularItems(s, items) && !s.isArray
    ensures ParseValue([Punct('{')] + (BareKey("type") + [Quoted(name), Punct(',')])
                       + BareItems(s, items, 0) + [Punct('}')] + rest) ==
            if GoodItems(s, items) && StartsPrinted(items)
            then Done(JObject([("type", JString(name))] + Members(s, items)), rest) else Fail
    decreases items, 1
  {
    var body := BareItems(s, items, 0) + ([Punct('}')] + rest);
    TypeAt(name, BareItems(s, items, 0), [Punct('}')], rest);
    if StartsPrinted(items) {
      MembersParse(s, items, rest);
    } else if NothingPrinted(items) {
      NothingIsBare(s, items, 0);
      assert body == [Punct('}')] + rest;
    } else {
      LateStart(s, items, 0);
      assert body[0] == Punct(',');
    }
  }

  lemma ArrayLayout(first: seq<Token>, more: seq<Token>, end: seq<Token>, rest: seq<Token>)
    ensures [Punct('[')] + (first + more) + end + rest == [Punct('[')] + (first + (more + (end + rest)))
  {
  }

  lemma ArrayStarts(ts: seq<Token>)
    requires ts != [] && ts[0] != Punct(']')
    ensures ParseValue([Punct('[')] + ts) == match ParseElements(ts)
                                             case Fail => Fail
                                             case Done(es, rest) => Done(JArray(es), rest)
  {
    assert ([Punct('[')] + ts)[1..] == ts;
  }

  lemma {:induction false} ArrayParses(s: Section, items: seq<Item>, rest: seq<Token>)
    requires RegularItems(s, items) && s.isArray
    ensures ParseValue([Punct('[')] + BareItems(s, items, 0) + [Punct(']')] + rest) ==
            if GoodItems(s, items) then Done(JArray(Elements(s, items)), rest) else Fail
    decreases items, 1
  {
    var ts := [Punct('[')] + BareItems(s, items, 0) + [Punct(']')] + rest;
    if items == [] {
      assert ts[1] == Punct(']') && ts[2..] == rest;
    } else {
      var tail := BareItems(s, items[1..], 1) + ([Punct(']')] + rest);
      ElementParses(s, items[0], tail);
      MoreElementsParse(s, items[1..], 1, rest);
      ArrayLayout(BareItem(s, items[0], 0), BareItems(s, items[1..], 1), [Punct(']')], rest);
      ArrayStarts(BareItem(s, items[0], 0) + tail);
    }
  }

  /** A subsection is read as its value exactly when its output is good, and makes the parse fail when not. */
  lemma {:induction false} ValueParses(parent: Section, t: Tree, rest: seq<Token>)
    requires Regular(t)
    ensures ParseValue(BareValue(parent, t) + rest) ==
            if Good(parent, t) then Done(ValueOf(parent, t), rest) else Fail
    decreases t, 0
  {
    if t.section.isArray {
      ArrayParses(t.section, t.items, rest);
    } else if TypePrefix(parent, t) {
      TypedParses(t.section.name, t.section, t.items, rest);
    } else {
      ObjectParses(t.section, t.items, rest);
      assert BareValue(parent, t) + rest == [Punct('{')] + BareItems(t.section, t.items, 0) + [Punct('}')] + rest;
      assert [] + Members(t.section, t.items) == Members(t.section, t.items);
    }
  }

  // ---- from the writer to the parser ----------------------------------------------------------

  /** Lexable on its own and after anything else the JSON writer prints. */
  predicate Clean(ts: seq<Token>) { Linked(Json, ts) && (ts != [] ==> !Open(ts[0])) }

  lemma CleanAppend(a: seq<Token>, b: seq<Token>)
    requires Clean(a) && Clean(b)
    ensures Clean(a + b) && Bare(a + b) == Bare(a) + Bare(b)
  {
    LinkedAppend(Json, a, b);
    BareAppend(a, b);
  }

  lemma CleanIndent(n: int, compact: bool)
    ensures Clean([Indent(n)]) && Bare([Indent(n)]) == []
    ensures Clean(IndentUnless(compact, n)) && Bare(IndentUnless(compact, n)) == []
  {
    if n >= 1 {
      assert |Indent(n).s| == 4 * n;
    }
  }

  lemma CleanKey(s: string)
    ensures Clean(Key(s)) && Bare(Key(s)) == BareKey(s)
  {
    assert Key(s)[1..] == [Punct(':'), Space(" ")] && [Punct(':'), Space(" ")][1..] == [Space(" ")];
  }

  lemma CleanPair(c: char, space: string)
    requires IsPunct(Json, c) && space in {" ", "\n"}
    ensures Clean([Punct(c), Space(space)]) && Bare([Punct(c), Space(space)]) == [Punct(c)]
    ensures Clean([Punct(c)]) && Bare([Punct(c)]) == [Punct(c)]
    ensures Clean([Space(space)]) && Bare([Space(space)]) == []
  {
    assert [Punct(c), Space(space)][1..] == [Space(space)];
    assert Bare([Space(space)]) == [];
  }

  function BareOpen(parent: Option<Level>, s: Section): seq<Token> {
    if s.isWrapper then [Punct('{')]
    else if s.isArray then BareKey(s.name) + [Punct('[')]
    else if parent.Some? && !parent.value.section.isArray then BareKey(s.name) + [Punct('{')]
    else [Punct('{')]
         + if parent.Some? && parent.value.section.packetsAndFrames
           then BareKey("type") + [Quoted(s.name), Punct(',')] else []
  }

  lemma KeyedIsBare(name: string, bracket: char, space: string, indent: int)
    requires IsPunct(Json, bracket) && space in {" ", "\n"}
    ensures var ts := [Indent(indent)] + Key(name) + [Punct(bracket), Space(space)];
      Clean(ts) && Bare(ts) == BareKey(name) + [Punct(bracket)]
  {
    CleanIndent(indent, true);
    CleanKey(name);
    CleanPair(bracket, space);
    CleanAppend([Indent(indent)], Key(name));
    CleanAppend([Indent(indent)] + Key(name), [Punct(bracket), Space(space)]);
  }

  lemma OpenIsBare(parent: Option<Level>, s: Section, indent: int, compact: bool)
    ensures Clean(JsonOpen(parent, s, indent, compact))
      && Bare(JsonOpen(parent, s, indent, compact)) == BareOpen(parent, s)
  {
    var gap := if compact then " " else "\n";
    if s.isWrapper {
      CleanPair('{', "\n");
    } else if s.isArray {
      KeyedIsBare(s.name, '[', "\n", indent);
    } else if parent.Some? && !parent.value.section.isArray {
      KeyedIsBare(s.name, '{', gap, indent);
    } else {
      ElementIsBare(s.name, indent, compact, parent.Some? && parent.value.section.packetsAndFrames);
    }
  }

  function Start(indent: int, compact: bool): seq<Token> { [Indent(indent)] + [Punct('{'), StartEnd(compact)] }

  function TypeMember(name: string, indent: int, compact: bool): seq<Token> {
    IndentUnless(compact, indent) + Key("type") + [Quoted(name)] + ItemSep(compact)
  }

  lemma StartIsBare(indent: int, compact: bool)
    ensures Clean(Start(indent, compact)) && Bare(Start(indent, compact)) == [Punct('{')]
  {
    CleanIndent(indent, compact);
    CleanPair('{', if compact then " " else "\n");
    CleanAppend([Indent(indent)], [Punct('{'), StartEnd(compact)]);
  }

  /** The start of an object that is not a member of another object. */
  lemma ElementIsBare(name: string, indent: int, compact: bool, typed: bool)
    ensures var ts := Start(indent, compact) + if typed then TypeMember(name, indent + 1, compact) else [];
      Clean(ts) && Bare(ts) == [Punct('{')] + if typed then BareKey("type") + [Quoted(name), Punct(',')] else []
  {
    StartIsBare(indent, compact);
    if typed {
      TypeIsBare(name, indent + 1, compact);
      CleanAppend(Start(indent, compact), TypeMember(name, indent + 1, compact));
    } else {
      assert Start(indent, compact) + [] == Start(indent, compact) && [Punct('{')] + [] == [Punct('{')];
    }
  }

  lemma CommaIsBare(parent: Option<Level>)
    ensures Clean(JsonComma(parent)) && Bare(JsonComma(parent)) ==
            Comma(if parent.Some? then parent.value.nbItem else 0)
  {
    CleanPair(',', "\n");
  }

  lemma TypeIsBare(name: string, indent: int, compact: bool)
    ensures var ts := IndentUnless(compact, indent) + Key("type") + [Quoted(name)] + ItemSep(compact);
      Clean(ts) && Bare(ts) == BareKey("type") + [Quoted(name), Punct(',')]
  {
    CleanIndent(indent, compact);
    CleanKey("type");
    CleanPair(',', if compact then " " else "\n");
    CleanAppend(IndentUnless(compact, indent), Key("type"));
    CleanAppend(IndentUnless(compact, indent) + Key("type"), [Quoted(name)]);
    CleanAppend(IndentUnless(compact, indent) + Key("type") + [Quoted(name)], ItemSep(compact));
  }

  lemma CloseIsBare(level: int, s: Section, indent: int, compact: bool)
    ensures var ts := JsonClose(level, s, indent, compact);
      Clean(ts) && Bare(ts) == [Punct(if level != 0 && s.isArray then ']' else '}')]
  {
    var gap := if compact then " " else "\n";
    CleanIndent(indent - 1, compact);
    CleanPair('}', "\n");
    CleanPair(']', "\n");
    CleanPair('}', gap);
    CleanAppend([Space("\n")], [Punct('}'), Space("\n")]);
    assert [Space("\n")] + [Punct('}'), Space("\n")] == [Space("\n"), Punct('}'), Space("\n")];
    CleanAppend([Space("\n")], [Indent(indent - 1)]);
    CleanAppend([Space("\n")] + [Indent(indent - 1)], [Punct(']')]);
    CleanAppend([StartEnd(compact)], IndentUnless(compact, indent - 1));
    CleanAppend([StartEnd(compact)] + IndentUnless(compact, indent - 1), [Punct('}')]);
  }

  lemma CleanValue(ts: seq<Token>, value: Token)
    requires Clean(ts) && ts != [] && !Open(ts[|ts| - 1]) && (value.Quoted? || value.Number?)
    ensures Clean(ts + [value]) && Bare(ts + [value]) == Bare(ts) + [value]
  {
    LinkedAppend(Json, ts, [value]);
    BareAppend(ts, [value]);
    assert Bare([value]) == [value] + [] == [value];
  }

  lemma ItemIsBare(nb: nat, key: string, value: Token, indent: int, compact: bool)
    requires value.Quoted? || value.Number?
    ensures var ts := JsonItem(nb, key, value, indent, compact);
      Clean(ts) && Bare(ts) == Comma(nb) + BareKey(key) + [value]
  {
    var sep := if nb != 0 then ItemSep(compact) else [];
    CleanPair(',', if compact then " " else "\n");
    CleanIndent(indent, compact);
    CleanKey(key);
    CleanAppend(sep, IndentUnless(compact, indent));
    assert Bare(sep) == Comma(nb);
    CleanAppend(sep + IndentUnless(compact, indent), Key(key));
    CleanValue(sep + IndentUnless(compact, indent) + Key(key), value);
  }

  lemma ShownScalar(c: Context, item: Item)
    requires c.levels != [] && c.priv.JsonPriv? && !item.Sub? && Printed(item)
    requires FullItem(false, c.levels[|c.levels| - 1].section, item)
    ensures var l := c.levels[|c.levels| - 1];
      var value := if item.Str? then Quoted(item.value.s) else Number(item.n);
      && Scalar(c, item).1 == JsonItem(l.nbItem, KeyOf(item), value, c.priv.indent, c.priv.compact)
      && BareItem(l.section, item, l.nbItem) == Comma(l.nbItem) + BareKey(KeyOf(item)) + [value]
  {
    FullIsVisible(c.priv, c.levels[|c.levels| - 1].section, item);
  }

  lemma ScalarIsBare(c: Context, item: Item)
    requires c.levels != [] && c.priv.JsonPriv? && !item.Sub?
    requires FullItem(false, c.levels[|c.levels| - 1].section, item)
    ensures var l := c.levels[|c.levels| - 1];
      Clean(Scalar(c, item).1) && Bare(Scalar(c, item).1) == BareItem(l.section, item, l.nbItem)
  {
    var l := c.levels[|c.levels| - 1];
    if Printed(item) {
      ShownScalar(c, item);
      ItemIsBare(l.nbItem, KeyOf(item), if item.Str? then Quoted(item.value.s) else Number(item.n),
                 c.priv.indent, c.priv.compact);
    } else {
      assert Scalar(c, item).1 == [] && BareItem(l.section, item, l.nbItem) == [];
    }
  }

  /** A subtree prints the bare tokens of its item, laid out. */
  lemma {:induction false} WriteIsBare(c: Context, t: Tree)
    requires c.levels != [] && c.priv.JsonPriv? && Regular(t) && Full(false, t)
    requires !(c.levels[|c.levels| - 1].section.isArray && t.section.isArray)
    ensures var l := c.levels[|c.levels| - 1];
      Clean(Write(c, t).1) && Bare(Write(c, t).1) == BareItem(l.section, Sub(t), l.nbItem)
    decreases t, 0
  {
    var parent := Parent(c.levels);
    var (c1, head) := Header(c, t.section);
    var (c2, body) := WriteItems(c1, t.items);
    var (c3, foot) := Footer(c2);
    CommaIsBare(parent);
    OpenIsBare(parent, t.section, c.priv.indent, c.priv.compact);
    CleanAppend(JsonComma(parent), JsonOpen(parent, t.section, c.priv.indent, c.priv.compact));
    ItemsAreBare(c1, t.items);
    ItemsRestore(c1, t.items);
    CloseIsBare(|c2.levels| - 1, t.section, c2.priv.indent, c2.priv.compact);
    CleanAppend(head, body);
    CleanAppend(head + body, foot);
    WholeIsBare(parent.value, t, head, body, foot);
  }

  lemma WholeIsBare(l: Level, t: Tree, head: seq<Token>, body: seq<Token>, foot: seq<Token>)
    requires !t.section.isWrapper && !(l.section.isArray && t.section.isArray)
    requires Bare(head) == Comma(l.nbItem) + BareOpen(Some(l), t.section)
    requires Bare(body) == BareItems(t.section, t.items, 0)
    requires Bare(foot) == [Punct(if t.section.isArray then ']' else '}')]
    ensures Bare(head) + Bare(body) + Bare(foot) == BareItem(l.section, Sub(t), l.nbItem)
  {
    var key := if l.section.isArray && !t.section.isArray then [] else BareKey(t.section.name);
    var before := if t.section.isArray then [Punct('[')]
                  else [Punct('{')] + if TypePrefix(l.section, t)
                        then BareKey("type") + [Quoted(t.section.name), Punct(',')]
                        else [];
    assert BareOpen(Some(l), t.section) == key + before;
    assert BareValue(l.section, t) == before + Bare(body) + Bare(foot);
    Regroup(Comma(l.nbItem), key, before, Bare(body), Bare(foot));
  }

  lemma Regroup(comma: seq<Token>, key: seq<Token>, before: seq<Token>, body: seq<Token>, foot: seq<Token>)
    ensures (comma + (key + before)) + body + foot == (comma + key) + (before + body + foot)
  {
  }

  lemma {:induction false} ItemsAreBare(c: Context, items: seq<Item>)
    requires c.levels != [] && c.priv.JsonPriv? && RegularItems(c.levels[|c.levels| - 1].section, items)
    requires FullItems(false, c.levels[|c.levels| - 1].section, items)
    ensures var l := c.levels[|c.levels| - 1];
      Clean(WriteItems(c, items).1) && Bare(WriteItems(c, items).1) == BareItems(l.section, items, l.nbItem)
    decreases items, 0
  {
    if items != [] {
      OneIsBare(c, items[0]);
      FullIsVisible(c.priv, c.levels[|c.levels| - 1].section, items[0]);
      LevelMoves(c, items[0]);
      var (c1, first) := WriteItem(c, items[0]);
      ItemsAreBare(c1, items[1..]);
      CleanAppend(first, WriteItems(c1, items[1..]).1);
    }
  }

  lemma {:induction false} OneIsBare(c: Context, item: Item)
    requires c.levels != [] && c.priv.JsonPriv? && RegularItem(c.levels[|c.levels| - 1].section, item)
    requires FullItem(false, c.levels[|c.levels| - 1].section, item)
    ensures var l := c.levels[|c.levels| - 1];
      Clean(WriteItem(c, item).1) && Bare(WriteItem(c, item).1) == BareItem(l.section, item, l.nbItem)
    decreases item, 1
  {
    if item.Sub? { WriteIsBare(c, item.tree); } else { ScalarIsBare(c, item); }
  }

  // ---- the whole output -----------------------------------------------------------------------

  /** The text printed for a whole tree. */
  function Output(t: Tree, compact: bool): string {
    RenderAll(Json, Write(Writers.Start(JsonPriv(0, compact)), t).1)
  }

  /** The output can be read. */
  predicate Readable(t: Tree) {
    GoodItems(t.section, t.items) && (StartsPrinted(t.items) || NothingPrinted(t.items))
  }

  lemma HeadAndFoot(t: Tree, compact: bool, head: seq<Token>, c2: Context, foot: seq<Token>)
    requires !t.section.isArray && head == Header(Writers.Start(JsonPriv(0, compact)), t.section).1
    requires |c2.levels| == 1 && c2.levels[0].section == t.section && c2.priv.JsonPriv? && foot == Footer(c2).1
    ensures Clean(head) && Bare(head) == [Punct('{')] && Clean(foot) && Bare(foot) == [Punct('}')]
  {
    OpenIsBare(None, t.section, 0, compact);
    assert head == JsonOpen(None, t.section, 0, compact);
    CloseIsBare(0, t.section, c2.priv.indent, c2.priv.compact);
  }

  lemma RootIsBare(t: Tree, compact: bool)
    requires !t.section.isArray && RegularItems(t.section, t.items) && Full(false, t)
    ensures var ts := Write(Writers.Start(JsonPriv(0, compact)), t).1;
      Linked(Json, ts) && Bare(ts) == [Punct('{')] + BareItems(t.section, t.items, 0) + [Punct('}')]
  {
    var c := Writers.Start(JsonPriv(0, compact));
    var (c1, head) := Header(c, t.section);
    assert c1.levels == [Level(t.section, 0)];
    var (c2, body) := WriteItems(c1, t.items);
    ItemsAreBare(c1, t.items);
    ItemsRestore(c1, t.items);
    var foot := Footer(c2).1;
    HeadAndFoot(t, compact, head, c2, foot);
    CleanAppend(head, body);
    CleanAppend(head + body, foot);
  }

  lemma FullTreeParses(t: Tree, compact: bool)
    requires !t.section.isArray && RegularItems(t.section, t.items) && Full(false, t)
    ensures ParseJson(Output(t, compact)) ==
            if Readable(t) then Some(JObject(Members(t.section, t.items))) else None
  {
    var ts := Write(Writers.Start(JsonPriv(0, compact)), t).1;
    RootIsBare(t, compact);
    LexRender(Json, ts);
    ObjectParses(t.section, t.items, []);
    assert Bare(ts) + [] == Bare(ts);
  }

  /** For every section tree whose root is not an array: the printed text parses back to what was selected of the
      tree, members in order, exactly when that is readable, and does not parse at all when it is not. */
  lemma JsonRoundTrip(t: Tree, compact: bool)
    requires !t.section.isArray && RegularItems(t.section, Selected(false, t).items)
    ensures var kept := Selected(false, t);
      ParseJson(Output(t, compact)) ==
        if Readable(kept) then Some(JObject(Members(kept.section, kept.items))) else None
  {
    var kept := Selected(false, t);
    PrintsSelected(JsonPriv(0, compact), t);
    SelectedIsFull(false, t);
    SameKind(t.section, kept.section, kept.items);
    FullTreeParses(kept, compact);
  }

  lemma {:induction false} SameKind(s: Section, s': Section, items: seq<Item>)
    requires s'.isArray == s.isArray
    ensures RegularItems(s', items) == RegularItems(s, items)
    decreases |items|
  {
    if items != [] { SameKind(s, s', items[1..]); }
  }
}
