/** split_commandline of cmdutils.c: sorting the words of a command line into global options, groups of
    per-file options closed by a file name or a separator such as -i, and trailing options. */
module Cmdline {
  import opened Common

  /** An entry of the option table; `perFile` stands for OPT_PERFILE, OPT_SPEC or OPT_OFFSET. */
  datatype OptionDef = OptionDef(name: string, hasArg: bool, isBool: bool, exits: bool, perFile: bool)

  /** opt_default, which tries the option on the libraries' own option tables. */
  datatype Default = Claimed | NotFound | Failed

  /** The option table, the separators of the groups (the first group also takes plain file names), and
      what opt_default says. */
  datatype Tables = Tables(options: seq<OptionDef>, separators: seq<Option<string>>,
                           optDefault: (string, string) -> Default)

  datatype Opt = Opt(def: OptionDef, key: string, val: Option<string>)

  datatype Group = Group(arg: string, opts: seq<Opt>, claimed: seq<(string, string)>)

  datatype Context = Context(globals: seq<Opt>, groups: seq<seq<Group>>,
                             cur: seq<Opt>, curClaimed: seq<(string, string)>)

  datatype Error = MissingArgument | Unrecognized | DefaultFailed

  // ---- tables ---------------------------------------------------------------------------------

  /** The option name without a stream specifier. */
  function Base(name: string): string {
    if name == [] || name[0] == ':' then [] else [name[0]] + Base(name[1..])
  }

  function Find(options: seq<OptionDef>, name: string): Option<OptionDef> {
    if options == [] then None
    else if options[0].name == Base(name) then Some(options[0])
    else Find(options[1..], name)
  }

  /** An entry is meant by its whole name, alone or followed by a colon and anything. */
  predicate Matches(entry: string, name: string) { ':' !in entry && (name == entry || entry + ":" <= name) }

  /** Where the name ends: at the first colon. */
  predicate EndsAt(name: string, len: nat) {
    len <= |name| && (len < |name| ==> name[len] == ':') && forall i :: 0 <= i < len ==> name[i] != ':'
  }

  lemma {:induction false} BaseIsCut(name: string, len: nat)
    requires EndsAt(name, len)
    ensures Base(name) == name[..len]
  {
    if len > 0 {
      assert forall i :: 0 <= i < len - 1 ==> name[1..][i] == name[i + 1];
      BaseIsCut(name[1..], len - 1);
      assert name[..len] == [name[0]] + name[1..][..len - 1];
    }
  }

  lemma CutMatches(entry: string, name: string, len: nat)
    requires EndsAt(name, len)
    ensures entry == name[..len] <==> Matches(entry, name)
  {
    if entry == name[..len] {
      assert len < |name| ==> entry + ":" == name[..len + 1];
      assert len == |name| ==> name[..len] == name;
    }
    if Matches(entry, name) { MatchIsCut(entry, name, len); }
  }

  lemma MatchIsCut(entry: string, name: string, len: nat)
    requires EndsAt(name, len) && Matches(entry, name)
    ensures entry == name[..len]
  {
    assert name != entry ==> name[|entry|] == (entry + ":")[|entry|];
    assert forall i :: 0 <= i < |entry| ==> name[i] == (entry + ":")[i] == entry[i] && entry[i] in entry;
    assert |entry| == len;
  }

  /** The first group with this separator. */
  function MatchSeparator(separators: seq<Option<string>>, name: string): (r: Option<nat>)
    ensures r.Some? ==> r.value < |separators| && separators[r.value] == Some(name)
    ensures forall i :: 0 <= i < (if r.Some? then r.value else |separators|) ==> separators[i] != Some(name)
  {
    if separators == [] then None
    else if separators[0] == Some(name) then Some(0)
    else match MatchSeparator(separators[1..], name)
         case None => None
         case Some(i) => Some(i + 1)
  }

  method FindOption(options: seq<OptionDef>, name: string) returns (r: Option<OptionDef>)
    ensures r == Find(options, name)
    ensures r.None? ==> forall i :: 0 <= i < |options| ==> !Matches(options[i].name, name)
    ensures r.Some? ==> exists i | 0 <= i < |options| :: r.value == options[i] && FirstMatch(options, name, i)
  {
    var len := 0;
    while len < |name| && name[len] != ':'
      invariant len <= |name| && forall i :: 0 <= i < len ==> name[i] != ':'
    {
      len := len + 1;
    }
    BaseIsCut(name, len);
    var po := 0;
    while po < |options|
      invariant po <= |options| && Find(options[po..], name) == Find(options, name)
      invariant forall i :: 0 <= i < po ==> !Matches(options[i].name, name)
    {
      CutMatches(options[po].name, name, len);
      if options[po].name == name[..len] {
        assert FirstMatch(options, name, po);
        return Some(options[po]);
      }
      po := po + 1;
    }
    r := None;
  }

  predicate FirstMatch(options: seq<OptionDef>, name: string, i: int)
    requires 0 <= i < |options|
  {
    Matches(options[i].name, name) && forall j :: 0 <= j < i ==> !Matches(options[j].name, name)
  }

  method MatchGroupSeparator(separators: seq<Option<string>>, name: string) returns (r: Option<nat>)
    ensures r == MatchSeparator(separators, name)
  {
    var i := 0;
    while i < |separators|
      invariant i <= |separators|
      invariant MatchSeparator(separators, name) ==
        match MatchSeparator(separators[i..], name) { case None => None case Some(k) => Some(k + i) }
    {
      if separators[i] == Some(name) {
        return Some(i);
      }
      i := i + 1;
    }
    r := None;
  }

  // ---- what a command line says ---------------------------------------------------------------

  /** One recognised item: the end of a group, an option of the table, or a library option. */
  datatype Word = Close(group: nat, arg: string) | Plain(opt: Opt) | Claim(key: string, arg: string)

  datatype Scanned = Fail(error: Error) | Words(words: seq<Word>)

  function Cons(w: Word, s: Scanned): Scanned {
    match s
    case Fail(_) => s
    case Words(ws) => Words([w] + ws)
  }

  predicate IsFile(arg: string) { arg == [] || arg[0] != '-' || |arg| == 1 }

  /** `-nofoo` for a boolean foo. */
  function Negated(t: Tables, name: string): Option<OptionDef> {
    if |name| >= 2 && name[0] == 'n' && name[1] == 'o' then
      match Find(t.options, name[2..])
      case Some(def) => if def.isBool then Some(def) else None
      case None => None
    else None
  }

  /** The items of a command line; `afterDashes` right after the word `--`. */
  function Scan(t: Tables, args: seq<string>, afterDashes: bool): Scanned
    decreases |args|, 0
  {
    if args == [] then Words([])
    else if args[0] == "--" then Scan(t, args[1..], true)
    else if IsFile(args[0]) || afterDashes then Cons(Close(0, args[0]), Scan(t, args[1..], false))
    else ScanOption(t, args[0][1..], args[1..])
  }

  function ScanOption(t: Tables, name: string, rest: seq<string>): Scanned
    decreases |rest|, 1
  {
    match (MatchSeparator(t.separators, name), Find(t.options, name))
    case (Some(g), _) =>
      if rest == [] then Fail(MissingArgument) else Cons(Close(g, rest[0]), Scan(t, rest[1..], false))
    case (None, Some(def)) =>
      if def.exits then
        if rest == [] then Words([Plain(Opt(def, name, None))])
        else Cons(Plain(Opt(def, name, Some(rest[0]))), Scan(t, rest[1..], false))
      else if def.hasArg then
        if rest == [] then Fail(MissingArgument)
        else Cons(Plain(Opt(def, name, Some(rest[0]))), Scan(t, rest[1..], false))
      else Cons(Plain(Opt(def, name, Some("1"))), Scan(t, rest, false))
    case (None, None) =>
      if rest != [] && t.optDefault(name, rest[0]).Claimed? then Cons(Claim(name, rest[0]), Scan(t, rest[1..], false))
      else if rest != [] && t.optDefault(name, rest[0]).Failed? then Fail(DefaultFailed)
      else match Negated(t, name)
           case Some(def) => Cons(Plain(Opt(def, name, Some("0"))), Scan(t, rest, false))
           case None => Fail(Unrecognized)
  }

  // ---- where the items go ---------------------------------------------------------------------

  function Empty(groups: nat): Context { Context([], seq(groups, _ => []), [], []) }

  /** add_opt and finish_group */
  function Place(c: Context, w: Word): Context {
    match w
    case Plain(o) => if o.def.perFile then c.(cur := c.cur + [o]) else c.(globals := c.globals + [o])
    case Claim(key, arg) => c.(curClaimed := c.curClaimed + [(key, arg)])
    case Close(g, arg) =>
      if g < |c.groups| then
        c.(groups := c.groups[g := c.groups[g] + [Group(arg, c.cur, c.curClaimed)]], cur := [], curClaimed := [])
      else c
  }

  function PlaceAll(c: Context, ws: seq<Word>): Context
    decreases |ws|
  {
    if ws == [] then c else PlaceAll(Place(c, ws[0]), ws[1..])
  }

  datatype Split = Rejected(error: Error) | Accepted(context: Context)

  function Then(c: Context, s: Scanned): Split {
    match s
    case Fail(e) => Rejected(e)
    case Words(ws) => Accepted(PlaceAll(c, ws))
  }

  lemma Next(c: Context, w: Word, s: Scanned)
    ensures Then(c, Cons(w, s)) == Then(Place(c, w), s)
  {
    if s.Words? { assert ([w] + s.words)[1..] == s.words; }
  }

  // ---- the code -------------------------------------------------------------------------------

  class OptionParseContext {
    var globals: seq<Opt>
    var groups: seq<seq<Group>>
    var cur: seq<Opt>
    var curClaimed: seq<(string, string)>

    ghost function State(): Context
      reads this
    {
      Context(globals, groups, cur, curClaimed)
    }

    constructor (n: nat)
      ensures State() == Empty(n)
    {
      globals, groups, cur, curClaimed := [], seq(n, _ => []), [], [];
    }

    method AddOpt(o: Opt)
      modifies this
      ensures State() == Place(old(State()), Plain(o))
    {
      if o.def.perFile {
        cur := cur + [o];
      } else {
        globals := globals + [o];
      }
    }

    method FinishGroup(g: nat, arg: string)
      requires g < |groups|
      modifies this
      ensures State() == Place(old(State()), Close(g, arg))
    {
      groups := groups[g := groups[g] + [Group(arg, cur, curClaimed)]];
      cur := [];
      curClaimed := [];
    }

    /** None on success. `argv[0]` is the program's name. */
    method SplitCommandline(argv: seq<string>, t: Tables) returns (error: Option<Error>)
      requires argv != [] && |groups| == |t.separators| > 0 && State() == Empty(|groups|)
      modifies this
      ensures Then(old(State()), Scan(t, argv[1..], false)) ==
        if error.Some? then Rejected(error.value) else Accepted(State())
    {
      var optindex, dashdash := 1, -2;
      while optindex < |argv|
        invariant 1 <= optindex <= |argv| + 1 && dashdash <= optindex && |groups| == |t.separators|
        invariant Then(old(State()), Scan(t, argv[1..], false)) ==
          Then(State(), Scan(t, From(argv, optindex), dashdash == optindex))
        decreases |argv| - optindex
      {
        var opt := argv[optindex];
        optindex := optindex + 1;
        assert From(argv, optindex - 1)[1..] == From(argv, optindex);
        if opt == "--" {
          dashdash := optindex;
          continue;
        }
        if IsFile(opt) || dashdash + 1 == optindex {
          Next(State(), Close(0, opt), Scan(t, From(argv, optindex), false));
          FinishGroup(0, opt);
          continue;
        }
        optindex, error := SplitOption(opt[1..], argv, optindex, t);
        if error.Some? {
          return;
        }
      }
      error := None;
    }

    /** The part of the loop for a word that starts with a dash; `optindex` is past it. */
    method SplitOption(opt: string, argv: seq<string>, optindex: nat, t: Tables)
      returns (next: nat, error: Option<Error>)
      requires 0 < optindex <= |argv| && |groups| == |t.separators|
      modifies this
      ensures Then(old(State()), ScanOption(t, opt, argv[optindex..])) ==
        if error.Some? then Rejected(error.value) else Then(State(), Scan(t, From(argv, next), false))
      ensures optindex <= next <= |argv| + 1 && |groups| == |t.separators|
    {
      next, error := optindex, None;
      ghost var rest := argv[optindex..];
      if rest != [] { assert rest[1..] == argv[optindex + 1..]; }
      var g := MatchGroupSeparator(t.separators, opt);
      if g.Some? {
        if next >= |argv| { return next, Some(MissingArgument); }
        next := next + 1;
        Next(State(), Close(g.value, argv[optindex]), Scan(t, From(argv, next), false));
        FinishGroup(g.value, argv[optindex]);
        return;
      }
      var po := FindOption(t.options, opt);
      if po.Some? {
        var arg := Some("1");
        if po.value.exits {
          arg := if next < |argv| then Some(argv[next]) else None;
          next := next + 1;
        } else if po.value.hasArg {
          if next >= |argv| { return next, Some(MissingArgument); }
          arg := Some(argv[next]);
          next := next + 1;
        }
        assert Words([Plain(Opt(po.value, opt, arg))]) == Cons(Plain(Opt(po.value, opt, arg)), Words([]));
        Next(State(), Plain(Opt(po.value, opt, arg)), Scan(t, From(argv, next), false));
        AddOpt(Opt(po.value, opt, arg));
        return;
      }
      if next < |argv| {
        var ret := t.optDefault(opt, argv[next]);
        if ret.Claimed? {
          Next(State(), Claim(opt, argv[next]), Scan(t, From(argv, next + 1), false));
          curClaimed := curClaimed + [(opt, argv[next])];
          next := next + 1;
          return;
        } else if ret.Failed? {
          return next, Some(DefaultFailed);
        }
      }
      if |opt| >= 2 && opt[0] == 'n' && opt[1] == 'o' {
        po := FindOption(t.options, opt[2..]);
        if po.Some? && po.value.isBool {
          Next(State(), Plain(Opt(po.value, opt, Some("0"))), Scan(t, From(argv, next), false));
          AddOpt(Opt(po.value, opt, Some("0")));
          return;
        }
      }
      error := Some(Unrecognized);
    }
  }

  function From(argv: seq<string>, i: nat): seq<string> { if i <= |argv| then argv[i..] else [] }

  // ---- every item lands in exactly one place ---------------------------------------------------

  /** Where the group that is open before item `j` began. */
  function Open(ws: seq<Word>, j: nat): (k: nat)
    requires j <= |ws|
    ensures k <= j && (forall i :: k <= i < j ==> !ws[i].Close?) && (k > 0 ==> ws[k - 1].Close?)
  {
    if j == 0 || ws[j - 1].Close? then j else Open(ws, j - 1)
  }

  /** The options of one kind, in order. */
  function Options(ws: seq<Word>, perFile: bool): seq<Opt> {
    if ws == [] then [] else
    var before := Options(ws[..|ws| - 1], perFile);
    match ws[|ws| - 1]
    case Plain(o) => if o.def.perFile == perFile then before + [o] else before
    case _ => before
  }

  function Claims(ws: seq<Word>): seq<(string, string)> {
    if ws == [] then [] else
    var before := Claims(ws[..|ws| - 1]);
    match ws[|ws| - 1]
    case Claim(key, arg) => before + [(key, arg)]
    case _ => before
  }

  /** How many groups of list `g` are closed. */
  function Closed(ws: seq<Word>, g: nat): nat {
    if ws == [] then 0 else
    Closed(ws[..|ws| - 1], g) + if ws[|ws| - 1].Close? && ws[|ws| - 1].group == g then 1 else 0
  }

  ghost predicate InRange(n: nat, ws: seq<Word>) { forall i :: 0 <= i < |ws| && ws[i].Close? ==> ws[i].group < n }

  lemma {:induction false} PlaceLast(c: Context, ws: seq<Word>)
    requires ws != []
    ensures PlaceAll(c, ws) == Place(PlaceAll(c, ws[..|ws| - 1]), ws[|ws| - 1])
    decreases |ws|
  {
    var a := ws[..|ws| - 1];
    if |ws| == 1 {
      assert ws[1..] == [];
    } else {
      assert ws[1..][..|ws| - 2] == a[1..];
      PlaceLast(Place(c, ws[0]), ws[1..]);
    }
  }

  /** The whole result, item by item: the globals are the global options, the trailing options those after
      the last closer, and every closer's group holds those between it and the previous closer. */
  ghost predicate Partitioned(n: nat, ws: seq<Word>, c: Context) {
    && Lists(ws, c)
    && Counts(n, ws, c)
    && AllLanded(ws, c)
  }

  ghost predicate Counts(n: nat, ws: seq<Word>, c: Context) {
    |c.groups| == n && forall g :: 0 <= g < n ==> |c.groups[g]| == Closed(ws, g)
  }

  ghost predicate AllLanded(ws: seq<Word>, c: Context) {
    forall j :: 0 <= j < |ws| && ws[j].Close? ==> Landed(ws, j, c)
  }

  /** The items of the group that is open before item `j`. */
  function Own(ws: seq<Word>, j: nat): seq<Word>
    requires j <= |ws|
  {
    ws[Open(ws, j)..j]
  }

  ghost predicate Lists(ws: seq<Word>, c: Context) {
    && c.globals == Options(ws, false)
    && c.cur == Options(Own(ws, |ws|), true)
    && c.curClaimed == Claims(Own(ws, |ws|))
  }

  /** A closer's group holds exactly the per-file options and claims since the previous closer. */
  ghost predicate Landed(ws: seq<Word>, j: nat, c: Context)
    requires j < |ws| && ws[j].Close?
  {
    var (g, m) := (ws[j].group, Closed(ws[..j], ws[j].group));
    g < |c.groups| && m < |c.groups[g]|
    && c.groups[g][m] == Group(ws[j].arg, Options(Own(ws, j), true), Claims(Own(ws, j)))
  }

  lemma OpenPrefix(ws: seq<Word>, k: nat, j: nat)
    requires j <= k <= |ws|
    ensures Open(ws[..k], j) == Open(ws, j)
  {
    if j > 0 { OpenPrefix(ws, k, j - 1); }
  }

  lemma NothingLanded(n: nat)
    ensures Partitioned(n, [], Empty(n))
  {}

  lemma {:induction false} EveryItemLands(n: nat, ws: seq<Word>)
    requires InRange(n, ws)
    ensures Partitioned(n, ws, PlaceAll(Empty(n), ws))
    decreases |ws|
  {
    if ws == [] {
      NothingLanded(n);
    } else {
      var (a, w) := (ws[..|ws| - 1], ws[|ws| - 1]);
      assert ws == a + [w] && InRange(n, a);
      EveryItemLands(n, a);
      PlaceLast(Empty(n), ws);
      LandsNext(n, ws, a, w, PlaceAll(Empty(n), a));
    }
  }

  lemma OwnPrefix(ws: seq<Word>, k: nat, j: nat)
    requires j <= k <= |ws|
    ensures Own(ws[..k], j) == Own(ws, j) && ws[..k][..j] == ws[..j]
  {
    OpenPrefix(ws, k, j);
  }

  lemma OwnGrows(ws: seq<Word>, a: seq<Word>, w: Word)
    requires ws == a + [w]
    ensures Own(ws, |ws|) == if w.Close? then [] else Own(a, |a|) + [w]
  {
    assert ws[..|a|] == a;
    OpenPrefix(ws, |a|, |a|);
  }

  lemma ListsGrow(ws: seq<Word>, a: seq<Word>, w: Word, c: Context)
    requires ws == a + [w] && Lists(a, c) && (w.Close? ==> w.group < |c.groups|)
    ensures Lists(ws, Place(c, w))
  {
    OwnGrows(ws, a, w);
    OneMore(a, w);
    OneMore(Own(a, |a|), w);
  }

  lemma OneMore(a: seq<Word>, w: Word)
    ensures forall perFile ::
      Options(a + [w], perFile) ==
        Options(a, perFile) + if w.Plain? && w.opt.def.perFile == perFile then [w.opt] else []
    ensures Claims(a + [w]) == Claims(a) + if w.Claim? then [(w.key, w.arg)] else []
  {
    assert (a + [w])[..|a|] == a;
  }

  lemma NewlyLanded(ws: seq<Word>, a: seq<Word>, w: Word, c: Context)
    requires ws == a + [w] && Lists(a, c) && w.Close? && w.group < |c.groups|
    requires |c.groups[w.group]| == Closed(a, w.group)
    ensures Landed(ws, |a|, Place(c, w))
  {
    OwnPrefix(ws, |a|, |a|);
    assert ws[..|a|] == a;
  }

  lemma StillLanded(ws: seq<Word>, a: seq<Word>, w: Word, j: nat, c: Context)
    requires ws == a + [w] && j < |a| && a[j].Close? && Landed(a, j, c)
    ensures Landed(ws, j, Place(c, w))
  {
    assert ws[..|a|] == a;
    OwnPrefix(ws, |a|, j);
  }

  lemma AllLandedNext(ws: seq<Word>, a: seq<Word>, w: Word, c: Context)
    requires ws == a + [w] && Lists(a, c) && AllLanded(a, c)
    requires w.Close? ==> w.group < |c.groups| && |c.groups[w.group]| == Closed(a, w.group)
    ensures AllLanded(ws, Place(c, w))
  {
    forall j | 0 <= j < |ws| && ws[j].Close? ensures Landed(ws, j, Place(c, w)) {
      if j < |a| {
        StillLanded(ws, a, w, j, c);
      } else {
        NewlyLanded(ws, a, w, c);
      }
    }
  }

  lemma CountsNext(n: nat, ws: seq<Word>, a: seq<Word>, w: Word, c: Context)
    requires ws == a + [w] && Counts(n, a, c) && (w.Close? ==> w.group < n)
    ensures Counts(n, ws, Place(c, w))
  {
    assert ws[..|ws| - 1] == a;
  }

  lemma LandsNext(n: nat, ws: seq<Word>, a: seq<Word>, w: Word, c: Context)
    requires ws == a + [w] && Partitioned(n, a, c) && (w.Close? ==> w.group < n)
    ensures Partitioned(n, ws, Place(c, w))
  {
    ListsGrow(ws, a, w, c);
    AllLandedNext(ws, a, w, c);
    CountsNext(n, ws, a, w, c);
  }

  lemma InRangeCons(n: nat, w: Word, s: Scanned)
    requires (w.Close? ==> w.group < n) && (s.Words? ==> InRange(n, s.words))
    ensures Cons(w, s).Words? ==> InRange(n, Cons(w, s).words)
  {}

  lemma {:induction false} ScanInRange(t: Tables, args: seq<string>, afterDashes: bool)
    requires |t.separators| > 0
    ensures var s := Scan(t, args, afterDashes); s.Words? ==> InRange(|t.separators|, s.words)
    decreases |args|, 0
  {
    if args == [] {
    } else if args[0] == "--" {
      ScanInRange(t, args[1..], true);
    } else if IsFile(args[0]) || afterDashes {
      ScanInRange(t, args[1..], false);
      InRangeCons(|t.separators|, Close(0, args[0]), Scan(t, args[1..], false));
    } else {
      OptionInRange(t, args[0][1..], args[1..]);
    }
  }

  lemma {:induction false} OptionInRange(t: Tables, name: string, rest: seq<string>)
    requires |t.separators| > 0
    ensures var s := ScanOption(t, name, rest); s.Words? ==> InRange(|t.separators|, s.words)
    decreases |rest|, 1
  {
    var n := |t.separators|;
    var s := ScanOption(t, name, rest);
    if s.Words? && s.words != [] {
      var w := s.words[0];
      ScanInRange(t, rest, false);
      InRangeCons(n, w, Scan(t, rest, false));
      if rest != [] {
        ScanInRange(t, rest[1..], false);
        InRangeCons(n, w, Scan(t, rest[1..], false));
      }
    }
  }

  /** Every recognised item of a command line that splits ends in exactly one place, in order. */
  lemma SplitPartitions(t: Tables, args: seq<string>)
    requires |t.separators| > 0 && Scan(t, args, false).Words?
    ensures var split := Then(Empty(|t.separators|), Scan(t, args, false));
            split.Accepted? && Partitioned(|t.separators|, Scan(t, args, false).words, split.context)
  {
    ScanInRange(t, args, false);
    EveryItemLands(|t.separators|, Scan(t, args, false).words);
  }

  // ---- the result, written back as a command line, splits to itself -----------------------------

  /** opt_default claims nothing. */
  ghost predicate Quiet(t: Tables) { forall key, arg :: t.optDefault(key, arg).NotFound? }

  /** A name that can follow a dash. */
  predicate IsName(name: string) { name != "" && name != "-" }

  predicate Named(t: Tables, g: nat) {
    g < |t.separators| && t.separators[g].Some? && IsName(t.separators[g].value)
    && MatchSeparator(t.separators, t.separators[g].value) == Some(g)
  }

  predicate CloseOk(t: Tables, g: nat, arg: string) {
    g < |t.separators| && (g > 0 || arg == "--" ==> Named(t, g))
  }

  predicate OptOk(t: Tables, o: Opt) {
    && IsName(o.key) && MatchSeparator(t.separators, o.key) == None && !o.def.exits
    && if Find(t.options, o.key) == Some(o.def) then (if o.def.hasArg then o.val.Some? else o.val == Some("1"))
       else Find(t.options, o.key) == None && Negated(t, o.key) == Some(o.def) && o.val == Some("0")
  }

  /** The items that the scan can produce, OPT_EXIT options and claimed ones apart. */
  predicate WordOk(t: Tables, w: Word) {
    match w
    case Close(g, arg) => CloseOk(t, g, arg)
    case Plain(o) => OptOk(t, o)
    case Claim(_, _) => false
  }

  ghost predicate NoExits(s: Scanned) {
    s.Words? && forall i :: 0 <= i < |s.words| && s.words[i].Plain? ==> !s.words[i].opt.def.exits
  }

  ghost predicate WordsOk(t: Tables, ws: seq<Word>) { forall i :: 0 <= i < |ws| ==> WordOk(t, ws[i]) }

  lemma NoExitsTail(w: Word, s: Scanned)
    requires NoExits(Cons(w, s))
    ensures NoExits(s) && (w.Plain? ==> !w.opt.def.exits)
  {
    var ws := [w] + s.words;
    assert ws[0] == w;
    forall i | 0 <= i < |s.words| && s.words[i].Plain?
      ensures !s.words[i].opt.def.exits
    {
      assert ws[i + 1] == s.words[i];
    }
  }

  /** `-name:spec` is read as the option `name`, whatever the stream specifier, with the arguments of `-name`. */
  lemma SpecifierIsRead(t: Tables, def: OptionDef, name: string, spec: string, rest: seq<string>)
    requires IsName(name) && ':' !in name && Find(t.options, name) == Some(def)
    requires MatchSeparator(t.separators, name + ":" + spec) == None
    ensures var (key, word) := (name + ":" + spec, ["-" + (name + ":" + spec)] + rest);
      Scan(t, word, false) ==
        if !def.exits && !def.hasArg then Cons(Plain(Opt(def, key, Some("1"))), Scan(t, rest, false))
        else if rest != [] then Cons(Plain(Opt(def, key, Some(rest[0]))), Scan(t, rest[1..], false))
        else if def.exits then Words([Plain(Opt(def, key, None))]) else Fail(MissingArgument)
  {
    var key := name + ":" + spec;
    SameOption(t.options, name, spec);
    ReadOption(t, key, rest);
  }

  /** A name that is neither a separator nor an option is tried on the libraries' options, which take an argument, and
      then as the negation of a boolean. */
  lemma UnknownIsTried(t: Tables, name: string, rest: seq<string>)
    requires IsName(name) && MatchSeparator(t.separators, name) == None && Find(t.options, name) == None
    ensures var s := Scan(t, ["-" + name] + rest, false);
      var verdict := if rest == [] then NotFound else t.optDefault(name, rest[0]);
      match verdict
      case Claimed => s == Cons(Claim(name, rest[0]), Scan(t, rest[1..], false))
      case Failed => s == Fail(DefaultFailed)
      case NotFound =>
        && (forall base, def :: name == "no" + base && Find(t.options, base) == Some(def) && def.isBool ==>
              s == Cons(Plain(Opt(def, name, Some("0"))), Scan(t, rest, false)))
        && (s == Fail(Unrecognized) <==>
              (forall base, def :: name == "no" + base && Find(t.options, base) == Some(def) ==> !def.isBool)
              || Scan(t, rest, false) == Fail(Unrecognized))
  {
    ReadOption(t, name, rest);
    assert forall base: string :: name == "no" + base ==> base == name[2..];
    if |name| >= 2 && name[0] == 'n' && name[1] == 'o' { assert name == "no" + name[2..]; }
  }

  lemma {:induction false} SameOption(options: seq<OptionDef>, name: string, spec: string)
    requires ':' !in name
    ensures Find(options, name + ":" + spec) == Find(options, name)
  {
    var key := name + ":" + spec;
    assert forall i :: 0 <= i < |name| ==> name[i] in name && key[i] == name[i];
    BaseIsCut(key, |name|);
    BaseIsCut(name, |name|);
    assert key[..|name|] == name && name[..|name|] == name;
    if options != [] { SameOption(options[1..], name, spec); }
  }

  lemma FoundHasName(options: seq<OptionDef>, name: string)
    ensures Find(options, name).Some? ==> Find(options, name).value.name == Base(name)
  {}

  lemma {:induction false} ScanIsOk(t: Tables, args: seq<string>, afterDashes: bool)
    requires |t.separators| > 0 && Quiet(t) && NoExits(Scan(t, args, afterDashes))
    ensures WordsOk(t, Scan(t, args, afterDashes).words)
    decreases |args|, 0
  {
    if args == [] {
    } else if args[0] == "--" {
      ScanIsOk(t, args[1..], true);
    } else if IsFile(args[0]) || afterDashes {
      NoExitsTail(Close(0, args[0]), Scan(t, args[1..], false));
      ScanIsOk(t, args[1..], false);
    } else {
      assert args[0] == "-" + args[0][1..];
      OptionIsOk(t, args[0][1..], args[1..]);
    }
  }

  lemma ExitShows(t: Tables, name: string, rest: seq<string>, def: OptionDef)
    requires MatchSeparator(t.separators, name) == None && Find(t.options, name) == Some(def) && def.exits
    ensures !NoExits(ScanOption(t, name, rest))
  {
    var s := ScanOption(t, name, rest);
    if s.Words? { assert s.words[0].Plain? && s.words[0].opt.def.exits; }
  }

  lemma {:induction false} OptionIsOk(t: Tables, name: string, rest: seq<string>)
    requires |t.separators| > 0 && Quiet(t) && IsName(name) && NoExits(ScanOption(t, name, rest))
    ensures WordsOk(t, ScanOption(t, name, rest).words)
    decreases |rest|, 1
  {
    match (MatchSeparator(t.separators, name), Find(t.options, name))
    case (Some(g), _) =>
      NoExitsTail(Close(g, rest[0]), Scan(t, rest[1..], false));
      ScanIsOk(t, rest[1..], false);
    case (None, Some(def)) =>
      if def.exits {
        ExitShows(t, name, rest, def);
        assert false;
      } else if def.hasArg {
        NoExitsTail(Plain(Opt(def, name, Some(rest[0]))), Scan(t, rest[1..], false));
        ScanIsOk(t, rest[1..], false);
      } else {
        NoExitsTail(Plain(Opt(def, name, Some("1"))), Scan(t, rest, false));
        ScanIsOk(t, rest, false);
      }
    case (None, None) =>
      if rest != [] { assert t.optDefault(name, rest[0]).NotFound?; }
      var def := Negated(t, name).value;
      NoExitsTail(Plain(Opt(def, name, Some("0"))), Scan(t, rest, false));
      ScanIsOk(t, rest, false);
  }

  function RenderWord(t: Tables, w: Word): seq<string> {
    match w
    case Close(g, arg) =>
      if g == 0 && arg != "--" then (if IsFile(arg) then [arg] else ["--", arg])
      else if g < |t.separators| && t.separators[g].Some? then ["-" + t.separators[g].value, arg]
      else []
    case Plain(o) =>
      if o.def.name == Base(o.key) && o.def.hasArg && o.val.Some? then ["-" + o.key, o.val.value] else ["-" + o.key]
    case Claim(key, arg) => ["-" + key, arg]
  }

  function Render(t: Tables, ws: seq<Word>): seq<string> {
    if ws == [] then [] else RenderWord(t, ws[0]) + Render(t, ws[1..])
  }

  lemma NegatedIsOther(t: Tables, key: string)
    requires Negated(t, key).Some?
    ensures Negated(t, key).value.name != Base(key)
  {
    FoundHasName(t.options, key[2..]);
    assert key[1..][1..] == key[2..];
    assert Base(key) == ['n'] + Base(key[1..]) && Base(key[1..]) == ['o'] + Base(key[2..]);
    assert |Base(key)| == |Base(key[2..])| + 2;
  }

  lemma ReadOption(t: Tables, name: string, rest: seq<string>)
    requires IsName(name)
    ensures Scan(t, ["-" + name] + rest, false) == ScanOption(t, name, rest)
  {
    var (args, word) := (["-" + name] + rest, "-" + name);
    assert word[0] == '-' && word[1..] == name && args[0] == word && args[1..] == rest;
    assert |word| >= 2 && "--"[1..] == "-";
  }

  lemma ReadWord(t: Tables, w: Word, rest: seq<string>)
    requires |t.separators| > 0 && Quiet(t) && WordOk(t, w)
    ensures Scan(t, RenderWord(t, w) + rest, false) == Cons(w, Scan(t, rest, false))
  {
    match w
    case Close(g, arg) =>
      if g == 0 && arg != "--" {
        ReadFile(t, arg, rest);
      } else {
        assert Named(t, g);
        var name := t.separators[g].value;
        ReadOption(t, name, [arg] + rest);
        assert ["-" + name, arg] + rest == ["-" + name] + ([arg] + rest) && ([arg] + rest)[1..] == rest;
      }
    case Plain(o) =>
      ReadPlain(t, o, rest);
  }

  lemma ReadFile(t: Tables, arg: string, rest: seq<string>)
    requires arg != "--"
    ensures Scan(t, RenderWord(t, Close(0, arg)) + rest, false) == Cons(Close(0, arg), Scan(t, rest, false))
  {
    var args := [arg] + rest;
    assert args[0] == arg && args[1..] == rest;
    if !IsFile(arg) {
      var all := ["--", arg] + rest;
      assert all[0] == "--" && all[1..] == args;
      assert Scan(t, all, false) == Scan(t, args, true);
    }
  }

  lemma ReadPlain(t: Tables, o: Opt, rest: seq<string>)
    requires Quiet(t) && OptOk(t, o)
    ensures Scan(t, RenderWord(t, Plain(o)) + rest, false) == Cons(Plain(o), Scan(t, rest, false))
  {
    var key := o.key;
    if Find(t.options, key) == Some(o.def) {
      FoundHasName(t.options, key);
      if o.def.hasArg {
        var arg := o.val.value;
        ReadOption(t, key, [arg] + rest);
        assert ["-" + key, arg] + rest == ["-" + key] + ([arg] + rest) && ([arg] + rest)[1..] == rest;
      } else {
        ReadOption(t, key, rest);
      }
    } else {
      NegatedIsOther(t, key);
      ReadOption(t, key, rest);
      if rest != [] { assert t.optDefault(key, rest[0]).NotFound?; }
    }
  }

  lemma {:induction false} ReadRendered(t: Tables, ws: seq<Word>)
    requires |t.separators| > 0 && Quiet(t) && WordsOk(t, ws)
    ensures Scan(t, Render(t, ws), false) == Words(ws)
  {
    if ws != [] {
      ReadRendered(t, ws[1..]);
      ReadWord(t, ws[0], Render(t, ws[1..]));
      assert [ws[0]] + ws[1..] == ws;
    }
  }

  // The canonical form: the globals, the groups list by list, then the trailing options.

  function Plains(opts: seq<Opt>): seq<Word> {
    if opts == [] then [] else [Plain(opts[0])] + Plains(opts[1..])
  }

  function ListWords(g: nat, list: seq<Group>): seq<Word> {
    if list == [] then [] else Plains(list[0].opts) + ([Close(g, list[0].arg)] + ListWords(g, list[1..]))
  }

  /** The lists from number `g` on. */
  function GroupWords(g: nat, lists: seq<seq<Group>>): seq<Word>
    decreases |lists|
  {
    if lists == [] then [] else ListWords(g, lists[0]) + GroupWords(g + 1, lists[1..])
  }

  function Arrange(c: Context): seq<Word> { Plains(c.globals) + (GroupWords(0, c.groups) + Plains(c.cur)) }

  predicate OptsOk(t: Tables, opts: seq<Opt>, perFile: bool) {
    forall i :: 0 <= i < |opts| ==> OptOk(t, opts[i]) && opts[i].def.perFile == perFile
  }

  predicate GroupOk(t: Tables, g: nat, group: Group) {
    OptsOk(t, group.opts, true) && group.claimed == [] && CloseOk(t, g, group.arg)
  }

  predicate ListOk(t: Tables, g: nat, list: seq<Group>) { forall i :: 0 <= i < |list| ==> GroupOk(t, g, list[i]) }

  predicate ListsOk(t: Tables, g: nat, lists: seq<seq<Group>>) {
    forall i :: 0 <= i < |lists| ==> ListOk(t, g + i, lists[i])
  }

  predicate ContextOk(t: Tables, c: Context) {
    && OptsOk(t, c.globals, false) && OptsOk(t, c.cur, true) && c.curClaimed == []
    && |c.groups| == |t.separators| && ListsOk(t, 0, c.groups)
  }

  lemma PlaceIsOk(t: Tables, c: Context, w: Word)
    requires ContextOk(t, c) && WordOk(t, w)
    ensures ContextOk(t, Place(c, w))
  {
    var c' := Place(c, w);
    if w.Close? {
      forall i | 0 <= i < |c'.groups| ensures ListOk(t, i, c'.groups[i]) {
        assert ListOk(t, 0 + i, c.groups[i]);
      }
    }
  }

  lemma {:induction false} PlaceAllIsOk(t: Tables, c: Context, ws: seq<Word>)
    requires ContextOk(t, c) && WordsOk(t, ws)
    ensures ContextOk(t, PlaceAll(c, ws))
    decreases |ws|
  {
    if ws != [] {
      PlaceIsOk(t, c, ws[0]);
      PlaceAllIsOk(t, Place(c, ws[0]), ws[1..]);
    }
  }

  lemma {:induction false} PlaceAppend(c: Context, a: seq<Word>, b: seq<Word>)
    ensures PlaceAll(c, a + b) == PlaceAll(PlaceAll(c, a), b)
    decreases |a|
  {
    if a == [] {
      assert a + b == b;
    } else {
      assert (a + b)[1..] == a[1..] + b;
      PlaceAppend(Place(c, a[0]), a[1..], b);
    }
  }

  lemma WordsOkAppend(t: Tables, a: seq<Word>, b: seq<Word>)
    requires WordsOk(t, a) && WordsOk(t, b)
    ensures WordsOk(t, a + b)
  {}

  function AddOpts(c: Context, opts: seq<Opt>, perFile: bool): Context {
    if perFile then c.(cur := c.cur + opts) else c.(globals := c.globals + opts)
  }

  lemma {:induction false} PlacePlains(t: Tables, c: Context, opts: seq<Opt>, perFile: bool)
    requires OptsOk(t, opts, perFile)
    ensures PlaceAll(c, Plains(opts)) == AddOpts(c, opts, perFile) && WordsOk(t, Plains(opts))
    decreases |opts|
  {
    if opts == [] {
      assert AddOpts(c, opts, perFile) == c;
    } else {
      assert Plains(opts)[1..] == Plains(opts[1..]);
      assert OptOk(t, opts[0]) && opts[0].def.perFile == perFile;
      PlacePlains(t, Place(c, Plain(opts[0])), opts[1..], perFile);
      AddFirst(c, opts, perFile);
    }
  }

  lemma AddFirst(c: Context, opts: seq<Opt>, perFile: bool)
    requires opts != []
    ensures AddOpts(AddOpts(c, [opts[0]], perFile), opts[1..], perFile) == AddOpts(c, opts, perFile)
  {
    if perFile {
      assert c.cur + opts == c.cur + [opts[0]] + opts[1..];
    } else {
      assert c.globals + opts == c.globals + [opts[0]] + opts[1..];
    }
  }

  /** Between groups nothing is pending. */
  predicate Settled(c: Context) { c.cur == [] && c.curClaimed == [] }

  lemma PlaceGroup(t: Tables, c: Context, g: nat, group: Group, tail: seq<Word>)
    requires Settled(c) && g < |c.groups| && GroupOk(t, g, group)
    ensures PlaceAll(c, Plains(group.opts) + ([Close(g, group.arg)] + tail)) ==
      PlaceAll(c.(groups := c.groups[g := c.groups[g] + [group]]), tail)
    ensures WordsOk(t, Plains(group.opts))
  {
    PlacePlains(t, c, group.opts, true);
    PlaceAppend(c, Plains(group.opts), [Close(g, group.arg)] + tail);
    assert AddOpts(c, group.opts, true).cur == group.opts;
    assert ([Close(g, group.arg)] + tail)[1..] == tail;
  }

  lemma {:induction false} PlaceList(t: Tables, c: Context, g: nat, list: seq<Group>)
    requires Settled(c) && g < |c.groups| && ListOk(t, g, list)
    ensures PlaceAll(c, ListWords(g, list)) == c.(groups := c.groups[g := c.groups[g] + list])
    ensures WordsOk(t, ListWords(g, list))
    decreases |list|
  {
    if list == [] {
      assert c.groups[g] + list == c.groups[g];
    } else {
      var (first, close) := (list[0], Close(g, list[0].arg));
      var tail := ListWords(g, list[1..]);
      var c2 := c.(groups := c.groups[g := c.groups[g] + [first]]);
      assert GroupOk(t, g, first);
      PlaceGroup(t, c, g, first, tail);
      PlaceList(t, c2, g, list[1..]);
      assert c.groups[g] + [first] + list[1..] == c.groups[g] + list;
      WordsOkAppend(t, [close], tail);
      WordsOkAppend(t, Plains(first.opts), [close] + tail);
    }
  }

  lemma ListsSplit(t: Tables, g: nat, lists: seq<seq<Group>>)
    requires lists != [] && ListsOk(t, g, lists)
    ensures ListOk(t, g, lists[0]) && ListsOk(t, g + 1, lists[1..])
  {
    assert ListOk(t, g + 0, lists[0]);
    forall i | 0 <= i < |lists[1..]| ensures ListOk(t, g + 1 + i, lists[1..][i]) {
      assert ListOk(t, g + (i + 1), lists[i + 1]);
    }
  }

  lemma GroupsSplit(groups: seq<seq<Group>>, g: nat, lists: seq<seq<Group>>)
    requires g < |groups| && lists != []
    ensures groups[g := lists[0]][..g + 1] + lists[1..] == groups[..g] + lists
  {
  }

  lemma PlaceFirst(t: Tables, c: Context, g: nat, list: seq<Group>)
    requires Settled(c) && g < |c.groups| && c.groups[g] == [] && ListOk(t, g, list)
    ensures PlaceAll(c, ListWords(g, list)) == c.(groups := c.groups[g := list])
    ensures WordsOk(t, ListWords(g, list))
  {
    PlaceList(t, c, g, list);
    assert [] + list == list;
  }

  lemma {:induction false} PlaceLists(t: Tables, c: Context, g: nat, lists: seq<seq<Group>>)
    requires Settled(c) && |c.groups| == g + |lists| && ListsOk(t, g, lists)
    requires forall i :: g <= i < |c.groups| ==> c.groups[i] == []
    ensures PlaceAll(c, GroupWords(g, lists)) == c.(groups := c.groups[..g] + lists)
    decreases |lists|
  {
    if lists == [] {
      assert c.groups[..g] + lists == c.groups;
    } else {
      PlaceAppend(c, ListWords(g, lists[0]), GroupWords(g + 1, lists[1..]));
      ListsSplit(t, g, lists);
      PlaceFirst(t, c, g, lists[0]);
      var c1 := c.(groups := c.groups[g := lists[0]]);
      PlaceLists(t, c1, g + 1, lists[1..]);
      GroupsSplit(c.groups, g, lists);
    }
  }

  lemma {:induction false} GroupWordsOk(t: Tables, g: nat, lists: seq<seq<Group>>)
    requires ListsOk(t, g, lists)
    ensures WordsOk(t, GroupWords(g, lists))
    decreases |lists|
  {
    if lists != [] {
      ListsSplit(t, g, lists);
      PlaceFirst(t, Empty(g + 1), g, lists[0]);
      GroupWordsOk(t, g + 1, lists[1..]);
      WordsOkAppend(t, ListWords(g, lists[0]), GroupWords(g + 1, lists[1..]));
    }
  }

  lemma PlaceArranged(t: Tables, c: Context)
    requires ContextOk(t, c)
    ensures PlaceAll(Empty(|t.separators|), Arrange(c)) == c && WordsOk(t, Arrange(c))
  {
    var c0 := Empty(|t.separators|);
    var c1 := AddOpts(c0, c.globals, false);
    PlacePlains(t, c0, c.globals, false);
    PlaceAppend(c0, Plains(c.globals), GroupWords(0, c.groups) + Plains(c.cur));
    PlaceLists(t, c1, 0, c.groups);
    var c2 := c1.(groups := c1.groups[..0] + c.groups);
    PlaceAppend(c1, GroupWords(0, c.groups), Plains(c.cur));
    PlacePlains(t, c2, c.cur, true);
    assert c2.groups == c.groups && [] + c.globals == c.globals && [] + c.cur == c.cur;
    GroupWordsOk(t, 0, c.groups);
    WordsOkAppend(t, GroupWords(0, c.groups), Plains(c.cur));
    WordsOkAppend(t, Plains(c.globals), GroupWords(0, c.groups) + Plains(c.cur));
  }

  /** Writing the result of a split as a command line and splitting that gives the same result, when no library
      option is claimed and no OPT_EXIT option is used. */
  lemma SplitTwice(t: Tables, args: seq<string>)
    requires |t.separators| > 0 && Quiet(t) && NoExits(Scan(t, args, false))
    ensures var split := Then(Empty(|t.separators|), Scan(t, args, false));
            && split.Accepted?
            && Then(Empty(|t.separators|), Scan(t, Render(t, Arrange(split.context)), false)) == split
  {
    var ws := Scan(t, args, false).words;
    ScanIsOk(t, args, false);
    PlaceAllIsOk(t, Empty(|t.separators|), ws);
    var c := PlaceAll(Empty(|t.separators|), ws);
    PlaceArranged(t, c);
    ReadRendered(t, Arrange(c));
  }
}
