/** -show_entries: which items of a section tree are printed. A tree prints what is left of it when the items that
    were not asked for are taken out. */
module Selection {
  import opened Common
  import opened Tokens
  import opened Writers

  /** The item is not among the entries asked for, or is optional where optional fields are not displayed. */
  predicate Dropped(optionals: bool, s: Section, item: Item)
    requires !item.Sub?
  {
    (!s.showAll && item.key !in s.entries) || (item.Str? && item.optional && !optionals)
  }

  /** What is left of a tree: the items asked for, in sections that show all they hold. */
  function Selected(optionals: bool, t: Tree): Tree
    decreases t, 0
  {
    Tree(t.section.(showAll := true), SelectedItems(optionals, t.section, t.items))
  }

  function SelectedItems(optionals: bool, s: Section, items: seq<Item>): seq<Item>
    decreases items, 0
  {
    if items == [] then [] else SelectedItem(optionals, s, items[0]) + SelectedItems(optionals, s, items[1..])
  }

  function SelectedItem(optionals: bool, s: Section, item: Item): seq<Item>
    decreases item, 1
  {
    match item
    case Sub(t) => [Sub(Selected(optionals, t))]
    case _ => if Dropped(optionals, s, item) then [] else [item]
  }

  /** Of the fields of a section exactly those asked for are left: all of them, or those with a key among the entries,
      and optional ones only where they are displayed. */
  lemma {:induction false} LeftAreThoseAskedFor(optionals: bool, s: Section, items: seq<Item>, item: Item)
    requires !item.Sub?
    ensures item in SelectedItems(optionals, s, items) <==>
      item in items && (s.showAll || item.key in s.entries) && (item.Str? && item.optional ==> optionals)
    decreases |items|
  {
    if items != [] {
      LeftAreThoseAskedFor(optionals, s, items[1..], item);
      var (first, rest) := (SelectedItem(optionals, s, items[0]), SelectedItems(optionals, s, items[1..]));
      assert item in first + rest <==> item in first || item in rest;
      assert item in items <==> item == items[0] || item in items[1..];
    }
  }

  /** Nothing in the tree is to be left out. */
  predicate Full(optionals: bool, t: Tree)
    decreases t, 0
  {
    FullItems(optionals, t.section, t.items)
  }

  predicate FullItems(optionals: bool, s: Section, items: seq<Item>)
    decreases items, 0
  {
    items != [] ==> FullItem(optionals, s, items[0]) && FullItems(optionals, s, items[1..])
  }

  predicate FullItem(optionals: bool, s: Section, item: Item)
    decreases item, 1
  {
    match item
    case Sub(t) => Full(optionals, t)
    case _ => s.showAll && (item.Str? && item.optional ==> optionals)
  }

  /** A section that shows all its entries shows every item, optional ones where they are displayed. */
  lemma FullIsVisible(p: Priv, s: Section, item: Item)
    requires FullItem(p.CsvPriv?, s, item)
    ensures Visible(p, s, item)
  {
  }

  lemma {:induction false} FullAppend(optionals: bool, s: Section, a: seq<Item>, b: seq<Item>)
    requires FullItems(optionals, s, a) && FullItems(optionals, s, b)
    ensures FullItems(optionals, s, a + b)
  {
    if a == [] {
      assert a + b == b;
    } else {
      assert (a + b)[1..] == a[1..] + b;
      FullAppend(optionals, s, a[1..], b);
    }
  }

  lemma {:induction false} SelectedIsFull(optionals: bool, t: Tree)
    ensures Full(optionals, Selected(optionals, t))
    decreases t, 0
  {
    SelectedItemsAreFull(optionals, t.section, t.items);
  }

  lemma {:induction false} SelectedItemsAreFull(optionals: bool, s: Section, items: seq<Item>)
    ensures FullItems(optionals, s.(showAll := true), SelectedItems(optionals, s, items))
    decreases items, 0
  {
    if items != [] {
      SelectedItemIsFull(optionals, s, items[0]);
      SelectedItemsAreFull(optionals, s, items[1..]);
      FullAppend(optionals, s.(showAll := true), SelectedItem(optionals, s, items[0]),
                 SelectedItems(optionals, s, items[1..]));
    }
  }

  lemma {:induction false} SelectedItemIsFull(optionals: bool, s: Section, item: Item)
    ensures FullItems(optionals, s.(showAll := true), SelectedItem(optionals, s, item))
    decreases item, 1
  {
    if item.Sub? { SelectedIsFull(optionals, item.tree); }
  }

  // ---- what is printed of a tree is what is printed of its selection ------------------------------

  function Opened(l: Level): Level { Level(l.section.(showAll := true), l.nbItem) }

  /** The same context with all its sections showing all their entries. */
  function AllOpen(c: Context): Context {
    c.(levels := seq(|c.levels|, i requires 0 <= i < |c.levels| => Opened(c.levels[i])))
  }

  lemma OpenParent(c: Context)
    ensures Parent(AllOpen(c).levels) == match Parent(c.levels)
                                         case None => None
                                         case Some(l) => Some(Opened(l))
  {
  }

  /** What a header prints does not depend on the selection. */
  lemma OpenStart(p: Priv, parent: Option<Level>, s: Section)
    ensures var parent' := match parent case None => None case Some(l) => Some(Opened(l));
      OpenTokens(p, parent', s.(showAll := true)) == OpenTokens(p, parent, s)
  {
  }

  lemma OpenHeader(c: Context, s: Section)
    ensures var (c1, ts) := Header(c, s); Header(AllOpen(c), s.(showAll := true)) == (AllOpen(c1), ts)
  {
    OpenParent(c);
    OpenStart(c.priv, Parent(c.levels), s);
    var (c1, open) := (Header(c, s).0, Header(AllOpen(c), s.(showAll := true)).0);
    assert open.levels == AllOpen(c1).levels;
  }

  lemma OpenCounts(levels: seq<Level>, k: Counts, p: Priv)
    ensures AllOpen(Context(CountItem(levels), p, k)).levels == CountItem(AllOpen(Context(levels, p, k)).levels)
  {
  }

  lemma OpenFooter(c: Context)
    requires c.levels != []
    ensures var (c1, ts) := Footer(c); Footer(AllOpen(c)) == (AllOpen(c1), ts)
  {
    var init := c.levels[..|c.levels| - 1];
    assert AllOpen(c).levels[..|c.levels| - 1] == AllOpen(c.(levels := init)).levels;
    OpenParent(c.(levels := init));
    OpenCounts(init, c.counts, c.priv);
  }

  /** An item asked for is printed and counted; the others leave no trace. */
  lemma OpenScalar(c: Context, item: Item)
    requires c.levels != [] && !item.Sub?
    ensures var (c1, ts) := Scalar(c, item); var s := c.levels[|c.levels| - 1].section;
      if Dropped(c.priv.CsvPriv?, s, item) then c1 == c && ts == [] else Scalar(AllOpen(c), item) == (AllOpen(c1), ts)
  {
    OpenCounts(c.levels, c.counts, c.priv);
  }

  /** The items of the open section. */
  lemma {:induction false} ItemsSelected(c: Context, s: Section, items: seq<Item>, optionals: bool)
    requires c.levels != [] && c.levels[|c.levels| - 1].section == s && c.priv.CsvPriv? == optionals
    ensures var (c1, ts) := WriteItems(c, items);
      WriteItems(AllOpen(c), SelectedItems(optionals, s, items)) == (AllOpen(c1), ts)
    decreases items, 0
  {
    if items != [] {
      var (c1, first) := WriteItem(c, items[0]);
      LevelMoves(c, items[0]);
      ItemsSelected(c1, s, items[1..], optionals);
      ItemSelected(c, s, items[0], optionals);
      var rest := SelectedItems(optionals, s, items[1..]);
      if items[0].Sub? || !Dropped(optionals, s, items[0]) {
        var kept := SelectedItem(optionals, s, items[0]) + rest;
        assert kept[0] == SelectedItem(optionals, s, items[0])[0] && kept[1..] == rest;
      } else {
        assert [] + rest == rest && [] + WriteItems(c1, items[1..]).1 == WriteItems(c1, items[1..]).1;
      }
    }
  }

  lemma {:induction false} ItemSelected(c: Context, s: Section, item: Item, optionals: bool)
    requires c.levels != [] && c.levels[|c.levels| - 1].section == s && c.priv.CsvPriv? == optionals
    ensures var ((c1, ts), kept) := (WriteItem(c, item), SelectedItem(optionals, s, item));
      if kept == [] then c1 == c && ts == [] else |kept| == 1 && WriteItem(AllOpen(c), kept[0]) == (AllOpen(c1), ts)
    decreases item, 1
  {
    if item.Sub? { WriteSelected(c, item.tree, optionals); } else { OpenScalar(c, item); }
  }

  /** Writing a tree prints exactly what writing its selection prints. */
  lemma {:induction false} WriteSelected(c: Context, t: Tree, optionals: bool)
    requires c.priv.CsvPriv? == optionals
    ensures var (c1, ts) := Write(c, t); Write(AllOpen(c), Selected(optionals, t)) == (AllOpen(c1), ts)
    decreases t, 0
  {
    var c1 := Header(c, t.section).0;
    OpenHeader(c, t.section);
    ItemsSelected(c1, t.section, t.items, optionals);
    OpenFooter(WriteItems(c1, t.items).0);
  }

  /** The whole output of a writer. */
  lemma PrintsSelected(p: Priv, t: Tree)
    ensures Write(Start(p), t).1 == Write(Start(p), Selected(p.CsvPriv?, t)).1
  {
    WriteSelected(Start(p), t, p.CsvPriv?);
    assert AllOpen(Start(p)) == Start(p);
  }
}
