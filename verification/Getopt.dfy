/** The replacement getopt of compat/getopt.c: a cursor over the words of a command line that is kept from
    call to call. */
module Getopt {
  import opened Common

  datatype Kind = Illegal | Flag | WithArgument

  /** What the string of accepted letters says of a letter: its first occurrence decides. */
  function KindOf(opts: string, c: char): Kind {
    if opts == [] || c == ':' then Illegal
    else if opts[0] == c then (if |opts| > 1 && opts[1] == ':' then WithArgument else Flag)
    else KindOf(opts[1..], c)
  }

  /** One call, seen from the words not yet consumed; `sp` is the position inside the first of them. */
  datatype Move =
    | End(rest: seq<string>)
    | Got(event: Event, rest: seq<string>, sp: nat)

  /** The value returned, and optarg and optopt after the call. */
  datatype Event = Event(c: char, optarg: Option<string>, optopt: char)

  predicate At(words: seq<string>, sp: nat) { sp >= 1 && (sp > 1 ==> words != [] && sp < |words[0]|) }

  predicate IsOption(word: string) { |word| >= 2 && word[0] == '-' }

  /** Every call but the last strictly advances the cursor. */
  function Next(opts: string, words: seq<string>, sp: nat, optarg: Option<string>): (m: Move)
    requires At(words, sp)
    ensures m.Got? ==> At(m.rest, m.sp) && (|m.rest| < |words| || (m.rest == words && m.sp > sp))
    ensures m.End? ==> sp == 1 && m.rest == (if words != [] && words[0] == "--" then words[1..] else words)
  {
    if sp == 1 && (words == [] || !IsOption(words[0])) then End(words)
    else if sp == 1 && words[0] == "--" then End(words[1..])
    else
      var c := words[0][sp];
      var (rest, sp') := if sp + 1 == |words[0]| then (words[1..], 1) else (words, sp + 1);
      match KindOf(opts, c)
      case Illegal => Got(Event('?', optarg, c), rest, sp')
      case Flag => Got(Event(c, None, c), rest, sp')
      case WithArgument =>
        if sp + 1 < |words[0]| then Got(Event(c, Some(words[0][sp + 1..]), c), words[1..], 1)
        else if |words| == 1 then Got(Event('?', optarg, c), [], 1)
        else Got(Event(c, Some(words[1]), c), words[2..], 1)
  }

  /** The file's static variables. */
  class Cursor {
    var optind: nat
    var sp: nat
    var optopt: char
    var optarg: Option<string>

    constructor ()
      ensures optind == 1 && sp == 1 && optarg == None
    {
      optind, sp, optopt, optarg := 1, 1, '\0', None;
    }

    predicate Valid(argv: seq<string>)
      reads this
    {
      optind <= |argv| && At(argv[optind..], sp)
    }

    /** None stands for EOF. */
    method Getopt(argv: seq<string>, opts: string) returns (r: Option<char>)
      requires Valid(argv)
      modifies this
      ensures Valid(argv)
      ensures match Next(opts, old(argv[optind..]), old(sp), old(optarg))
              case End(rest) => r == None && argv[optind..] == rest
                && sp == 1 && optarg == old(optarg) && optopt == old(optopt)
              case Got(event, rest, sp') =>
                r == Some(event.c) && argv[optind..] == rest
                && sp == sp' && optarg == event.optarg && optopt == event.optopt
    {
      if sp == 1 {
        if optind >= |argv| || |argv[optind]| == 0 || argv[optind][0] != '-' || |argv[optind]| == 1 {
          return None;
        } else if argv[optind] == "--" {
          optind := optind + 1;
          return None;
        }
      }
      var word := argv[optind];
      var c := word[sp];
      optopt := c;
      var kind := KindOf(opts, c);
      if kind == Illegal {
        sp := sp + 1;
        if sp == |word| {
          optind := optind + 1;
          sp := 1;
        }
        return Some('?');
      }
      if kind == WithArgument {
        if sp + 1 < |word| {
          optarg := Some(word[sp + 1..]);
          optind := optind + 1;
        } else {
          optind := optind + 1;
          if optind >= |argv| {
            sp := 1;
            return Some('?');
          }
          optarg := Some(argv[optind]);
          optind := optind + 1;
        }
        sp := 1;
      } else {
        sp := sp + 1;
        if sp == |word| {
          sp := 1;
          optind := optind + 1;
        }
        optarg := None;
      }
      r := Some(c);
    }
  }

  // ---- whole runs -----------------------------------------------------------------------------

  /** All events up to EOF, and the operands left. */
  datatype Outcome = Outcome(events: seq<Event>, operands: seq<string>)

  /** Getopt called until it says EOF. */
  function Run(opts: string, words: seq<string>, sp: nat, optarg: Option<string>): Outcome
    requires At(words, sp)
    decreases |words|, if words == [] then 0 else |words[0]| - sp
  {
    match Next(opts, words, sp, optarg)
    case End(rest) => Outcome([], rest)
    case Got(e, rest, sp') => var o := Run(opts, rest, sp', e.optarg); Outcome([e] + o.events, o.operands)
  }

  /** The loop of a program around getopt. */
  method ReadAll(argv: seq<string>, opts: string) returns (o: Outcome)
    requires |argv| >= 1
    ensures o == Run(opts, argv[1..], 1, None)
  {
    var cursor := new Cursor();
    var events: seq<Event> := [];
    var more := true;
    while more
      invariant cursor.Valid(argv)
      invariant more ==>
        Run(opts, argv[1..], 1, None) == Prepend(events, Run(opts, argv[cursor.optind..], cursor.sp, cursor.optarg))
      invariant !more ==> Run(opts, argv[1..], 1, None) == Outcome(events, argv[cursor.optind..])
      decreases more, |argv| - cursor.optind, if cursor.optind == |argv| then 0 else |argv[cursor.optind]| - cursor.sp
    {
      ghost var (words, sp, optarg) := (argv[cursor.optind..], cursor.sp, cursor.optarg);
      var r := cursor.Getopt(argv, opts);
      if r.Some? {
        ghost var next := Run(opts, argv[cursor.optind..], cursor.sp, cursor.optarg);
        var e := Event(r.value, cursor.optarg, cursor.optopt);
        assert events + ([e] + next.events) == events + [e] + next.events;
        events := events + [e];
      } else {
        more := false;
      }
    }
    o := Outcome(events, argv[cursor.optind..]);
  }

  function Prepend(events: seq<Event>, o: Outcome): Outcome { Outcome(events + o.events, o.operands) }

  // ---- the string of accepted letters -----------------------------------------------------------

  /** A letter is illegal exactly when it is a colon or not in the string; of the others, its first occurrence tells,
      by the colon after it, whether it takes an argument. */
  lemma {:induction false} FirstDecides(opts: string, c: char, k: nat)
    requires k <= |opts| && (k < |opts| ==> opts[k] == c) && forall i :: 0 <= i < k ==> opts[i] != c
    ensures KindOf(opts, c) ==
      if c == ':' || k == |opts| then Illegal else if k + 1 < |opts| && opts[k + 1] == ':' then WithArgument else Flag
  {
    if k > 0 && c != ':' {
      assert forall i :: 0 <= i < k - 1 ==> opts[1..][i] == opts[i + 1];
      FirstDecides(opts[1..], c, k - 1);
    }
  }

  /** An accepted letter, and whether it takes an argument. */
  datatype Letter = Letter(c: char, takes: bool)

  /** The letters of a table are different and none of them is a colon. */
  predicate Table(letters: seq<Letter>) {
    && (forall i :: 0 <= i < |letters| ==> letters[i].c != ':')
    && (forall i, j :: 0 <= i < j < |letters| ==> letters[i].c != letters[j].c)
  }

  /** The string that stands for a table. */
  function Opts(letters: seq<Letter>): string {
    if letters == [] then [] else [letters[0].c] + (if letters[0].takes then ":" else "") + Opts(letters[1..])
  }

  /** The string says of each letter what the table says. */
  lemma {:induction false} KindByTable(letters: seq<Letter>, c: char)
    requires Table(letters)
    ensures Letter(c, true) in letters ==> KindOf(Opts(letters), c) == WithArgument
    ensures Letter(c, false) in letters ==> KindOf(Opts(letters), c) == Flag
    ensures Letter(c, true) !in letters && Letter(c, false) !in letters ==> KindOf(Opts(letters), c) == Illegal
  {
    if letters != [] {
      KindByTable(letters[1..], c);
      LetterFirst(letters[0], Opts(letters[1..]), c);
      if letters[1..] != [] { NoColonFirst(letters[1..]); }
      assert letters == [letters[0]] + letters[1..];
    }
  }

  lemma NoColonFirst(letters: seq<Letter>)
    requires Table(letters) && letters != []
    ensures Opts(letters) != [] && Opts(letters)[0] != ':'
  {
  }

  lemma LetterFirst(l: Letter, more: string, c: char)
    requires l.c != ':' && (more == [] || more[0] != ':')
    ensures KindOf([l.c] + (if l.takes then ":" else "") + more, c) ==
      if c == l.c then (if l.takes then WithArgument else Flag) else KindOf(more, c)
  {
    var opts := [l.c] + (if l.takes then ":" else "") + more;
    if l.takes { assert opts[1..] == [':'] + more && ([':'] + more)[1..] == more; } else { assert opts[1..] == more; }
  }

  // ---- reading back a written command line -----------------------------------------------------

  /** An option with its argument, if it takes one. */
  datatype Setting = Setting(c: char, value: Option<string>)

  predicate Legal(opts: string, s: Setting) { s.c != '-' && (KindOf(opts, s.c).WithArgument? <==> s.value.Some?) }

  function Words(s: Setting): seq<string> {
    if s.value.Some? then ["-" + [s.c], s.value.value] else ["-" + [s.c]]
  }

  function Written(settings: seq<Setting>): seq<string> {
    if settings == [] then [] else Words(settings[0]) + Written(settings[1..])
  }

  /** What a call delivers: the option, or a question mark for a letter that is not known, with optarg as it was. */
  function Delivery(known: set<char>, s: Setting, optarg: Option<string>): Event {
    if s.c in known then Event(s.c, s.value, s.c) else Event('?', optarg, s.c)
  }

  function Delivered(known: set<char>, settings: seq<Setting>, optarg: Option<string>): seq<Event> {
    if settings == [] then []
    else
      var e := Delivery(known, settings[0], optarg);
      [e] + Delivered(known, settings[1..], e.optarg)
  }

  lemma ReadSetting(opts: string, known: set<char>, s: Setting, after: seq<string>, optarg: Option<string>)
    requires Legal(opts, s) && (s.c in known <==> !KindOf(opts, s.c).Illegal?)
    ensures var e := Delivery(known, s, optarg);
      Run(opts, Words(s) + after, 1, optarg) == Prepend([e], Run(opts, after, 1, e.optarg))
  {
    var word := "-" + [s.c];
    assert word[1] == s.c != "--"[1];
    if s.value.Some? {
      var next := [s.value.value] + after;
      assert Words(s) + after == [word] + next && next[1..] == after;
      NextInside(opts, word, next, 1, optarg);
    } else {
      NextInside(opts, word, after, 1, optarg);
    }
  }

  lemma Regroup(a: seq<string>, b: seq<string>, c: seq<string>)
    ensures (a + b) + c == a + (b + c)
  {}

  lemma {:induction false} ReadsLegal(opts: string, known: set<char>, settings: seq<Setting>,
                                      operands: seq<string>, optarg: Option<string>)
    requires forall i :: 0 <= i < |settings| ==>
      Legal(opts, settings[i]) && (settings[i].c in known <==> !KindOf(opts, settings[i].c).Illegal?)
    ensures Run(opts, Written(settings) + (["--"] + operands), 1, optarg) ==
      Outcome(Delivered(known, settings, optarg), operands)
    decreases |settings|
  {
    var tail := ["--"] + operands;
    if settings == [] {
      assert Written(settings) + tail == tail && tail[1..] == operands;
    } else {
      var s := settings[0];
      assert Legal(opts, s);
      var e := Delivery(known, s, optarg);
      ReadsLegal(opts, known, settings[1..], operands, e.optarg);
      ReadSetting(opts, known, s, Written(settings[1..]) + tail, optarg);
      Regroup(Words(s), Written(settings[1..]), tail);
    }
  }

  function Letters(letters: seq<Letter>): set<char> { set l | l in letters :: l.c }

  /** The setting has an argument exactly when the table wants one; a letter that is not in the table has none. */
  predicate LegalByTable(letters: seq<Letter>, s: Setting) {
    s.c != '-' && if s.c in Letters(letters) then Letter(s.c, s.value.Some?) in letters else s.value.None?
  }

  /** Options with and without arguments as a table demands, and letters that are not in it, written one by one and
      ended by `--`, are delivered as written, whatever the arguments and operands look like. */
  lemma ReadsWritten(letters: seq<Letter>, settings: seq<Setting>, operands: seq<string>, optarg: Option<string>)
    requires Table(letters) && forall i :: 0 <= i < |settings| ==> LegalByTable(letters, settings[i])
    ensures Run(Opts(letters), Written(settings) + (["--"] + operands), 1, optarg) ==
      Outcome(Delivered(Letters(letters), settings, optarg), operands)
  {
    forall i | 0 <= i < |settings|
      ensures Legal(Opts(letters), settings[i])
      ensures settings[i].c in Letters(letters) <==> !KindOf(Opts(letters), settings[i].c).Illegal?
    {
      assert LegalByTable(letters, settings[i]);
      SettingByTable(letters, settings[i]);
    }
    ReadsLegal(Opts(letters), Letters(letters), settings, operands, optarg);
  }

  /** A letter whose argument is missing at the end of the line is reported by a question mark. */
  lemma LacksArgument(letters: seq<Letter>, c: char, optarg: Option<string>)
    requires Table(letters) && Letter(c, true) in letters && c != '-'
    ensures Run(Opts(letters), ["-" + [c]], 1, optarg) == Outcome([Event('?', optarg, c)], [])
  {
    KindByTable(letters, c);
    var word := "-" + [c];
    assert word[1] == c != "--"[1];
    NextInside(Opts(letters), word, [], 1, optarg);
    assert [word] + [] == [word];
  }

  /** The first word that is no option ends the options. */
  lemma StopsAtOperand(opts: string, operands: seq<string>, optarg: Option<string>)
    requires operands != [] && (operands[0] == "" || operands[0] == "-" || operands[0][0] != '-')
    ensures Run(opts, operands, 1, optarg) == Outcome([], operands)
  {
  }

  lemma SettingByTable(letters: seq<Letter>, s: Setting)
    requires Table(letters) && LegalByTable(letters, s)
    ensures Legal(Opts(letters), s) && (s.c in Letters(letters) <==> !KindOf(Opts(letters), s.c).Illegal?)
  {
    KindByTable(letters, s.c);
    assert Letter(s.c, true) in letters ==> s.c in Letters(letters);
    assert Letter(s.c, false) in letters ==> s.c in Letters(letters);
  }

  // ---- clusters -------------------------------------------------------------------------------

  /** A cluster taken apart: -xyz into -x -y -z, and -xoARG into -x -o ARG. */
  function Apart(opts: string, letters: string): (ws: seq<string>)
    requires letters != []
    ensures ws != [] && |ws[0]| == 2 && (|letters| > 1 ==> |ws| > 1)
  {
    if |letters| == 1 then ["-" + letters]
    else if KindOf(opts, letters[0]) == WithArgument then ["-" + letters[..1], letters[1..]]
    else ["-" + letters[..1]] + Apart(opts, letters[1..])
  }

  /** No dash among the letters of the cluster (an argument at its end may hold any). */
  predicate NoDash(opts: string, letters: string) {
    letters == [] ||
    (letters[0] != '-' && (KindOf(opts, letters[0]) == WithArgument || NoDash(opts, letters[1..])))
  }

  /** What a call does at a letter that is not followed by its argument. */
  function LetterEvent(opts: string, c: char, optarg: Option<string>): Event
    requires KindOf(opts, c) != WithArgument
  {
    if KindOf(opts, c) == Flag then Event(c, None, c) else Event('?', optarg, c)
  }

  /** A call inside a word depends on the letters from the cursor on. */
  lemma NextInside(opts: string, word: string, post: seq<string>, sp: nat, optarg: Option<string>)
    requires 1 <= sp < |word| && (sp > 1 || (IsOption(word) && word != "--"))
    ensures Next(opts, [word] + post, sp, optarg) ==
      if KindOf(opts, word[sp]) != WithArgument then
        Got(LetterEvent(opts, word[sp], optarg),
            if sp + 1 == |word| then post else [word] + post,
            if sp + 1 == |word| then 1 else sp + 1)
      else if sp + 1 < |word| then Got(Event(word[sp], Some(word[sp + 1..]), word[sp]), post, 1)
      else if post == [] then Got(Event('?', optarg, word[sp]), [], 1)
      else Got(Event(word[sp], Some(post[0]), word[sp]), post[1..], 1)
  {
    var a := [word] + post;
    assert a[0] == word && a[1..] == post;
    if post != [] { assert a[1] == post[0] && a[2..] == post[1..]; }
  }

  /** One letter fewer before the cursor makes no difference. */
  lemma {:induction false} DropLetter(opts: string, x: char, letters: string, post: seq<string>,
                                      sp: nat, optarg: Option<string>)
    requires 1 <= sp <= |letters| && letters != "-"
    ensures Run(opts, ["-" + [x] + letters] + post, sp + 1, optarg) == Run(opts, ["-" + letters] + post, sp, optarg)
    decreases |letters| - sp
  {
    var (long, short) := ("-" + [x] + letters, "-" + letters);
    assert long[sp + 1] == short[sp] && long[sp + 2..] == short[sp + 1..];
    assert short[1..] == letters && "--"[1..] == "-";
    NextInside(opts, long, post, sp + 1, optarg);
    NextInside(opts, short, post, sp, optarg);
    var c := short[sp];
    if sp < |letters| && KindOf(opts, c) != WithArgument {
      DropLetter(opts, x, letters, post, sp + 1, LetterEvent(opts, c, optarg).optarg);
    }
  }

  /** Taking a reached cluster apart changes nothing. */
  lemma {:induction false} ApartIsSame(opts: string, letters: string, post: seq<string>, optarg: Option<string>)
    requires letters != [] && NoDash(opts, letters)
    ensures Run(opts, ["-" + letters] + post, 1, optarg) == Run(opts, Apart(opts, letters) + post, 1, optarg)
    decreases |letters|
  {
    if |letters| > 1 {
      var (x, rest) := (letters[0], letters[1..]);
      assert "-" + letters == "-" + [x] + rest;
      assert letters[..1] == [x];
      if KindOf(opts, x) == WithArgument {
        ApartArgument(opts, x, rest, post, optarg);
      } else {
        ApartIsSame(opts, rest, post, LetterEvent(opts, x, optarg).optarg);
        ApartLetter(opts, x, rest, post, optarg);
        Regroup(["-" + [x]], Apart(opts, rest), post);
      }
    }
  }

  lemma ApartLetter(opts: string, x: char, rest: string, post: seq<string>, optarg: Option<string>)
    requires rest != [] && rest != "-" && x != '-' && KindOf(opts, x) != WithArgument
    requires var arg := LetterEvent(opts, x, optarg).optarg;
             Run(opts, ["-" + rest] + post, 1, arg) == Run(opts, Apart(opts, rest) + post, 1, arg)
    ensures Run(opts, ["-" + [x] + rest] + post, 1, optarg) ==
            Run(opts, ["-" + [x]] + (Apart(opts, rest) + post), 1, optarg)
  {
    NextInside(opts, "-" + [x] + rest, post, 1, optarg);
    DropLetter(opts, x, rest, post, 1, LetterEvent(opts, x, optarg).optarg);
    NextInside(opts, "-" + [x], Apart(opts, rest) + post, 1, optarg);
  }

  lemma ApartArgument(opts: string, x: char, arg: string, post: seq<string>, optarg: Option<string>)
    requires arg != [] && x != '-' && KindOf(opts, x) == WithArgument
    ensures Run(opts, ["-" + [x] + arg] + post, 1, optarg) == Run(opts, ["-" + [x], arg] + post, 1, optarg)
  {
    NextInside(opts, "-" + [x] + arg, post, 1, optarg);
    NextInside(opts, "-" + [x], [arg] + post, 1, optarg);
    assert ["-" + [x], arg] + post == ["-" + [x]] + ([arg] + post);
    assert ([arg] + post)[1..] == post && ("-" + [x] + arg)[2..] == arg;
  }

  // ---- anywhere in a command line -------------------------------------------------------------

  /** Getopt comes to look at the word that `n` words follow as at an option. */
  predicate Reaches(opts: string, words: seq<string>, sp: nat, optarg: Option<string>, n: nat)
    requires At(words, sp)
    decreases |words|, if words == [] then 0 else |words[0]| - sp
  {
    if |words| <= n + 1 then |words| == n + 1 && sp == 1
    else match Next(opts, words, sp, optarg)
         case End(_) => false
         case Got(e, rest, sp') => Reaches(opts, rest, sp', e.optarg, n)
  }

  lemma Cancel(opts: string, a: seq<string>, b: seq<string>, sp: nat, optarg: Option<string>)
    requires At(a, sp) && At(b, sp)
    requires var (m, k) := (Next(opts, a, sp, optarg), Next(opts, b, sp, optarg));
      m.Got? && k.Got? && m.event == k.event
    ensures var (m, k) := (Next(opts, a, sp, optarg), Next(opts, b, sp, optarg));
            (Run(opts, a, sp, optarg) == Run(opts, b, sp, optarg)) <==>
            Run(opts, m.rest, m.sp, m.event.optarg) == Run(opts, k.rest, k.sp, k.event.optarg)
  {
    var (o, p) := (Run(opts, a, sp, optarg), Run(opts, b, sp, optarg));
    if o == p { assert o.events[1..] == p.events[1..]; }
  }

  ghost predicate SameFrom(opts: string, a: seq<string>, b: seq<string>) {
    forall optarg :: Run(opts, a, 1, optarg) == Run(opts, b, 1, optarg)
  }

  /** One step that takes the same letter in both command lines. */
  lemma SwapStep(opts: string, a: seq<string>, b: seq<string>, sp: nat, optarg: Option<string>, n: nat,
                 e: Event, a': seq<string>, b': seq<string>, sp': nat)
    requires At(a, sp) && At(b, sp) && At(a', sp') && At(b', sp') && |a| > n + 1
    requires Next(opts, a, sp, optarg) == Got(e, a', sp') && Next(opts, b, sp, optarg) == Got(e, b', sp')
    requires Run(opts, a', sp', e.optarg) == Run(opts, b', sp', e.optarg) <==> Reaches(opts, a', sp', e.optarg, n)
    ensures Run(opts, a, sp, optarg) == Run(opts, b, sp, optarg) <==> Reaches(opts, a, sp, optarg, n)
  {
    Cancel(opts, a, b, sp, optarg);
  }

  lemma {:induction false} SwapAnywhere(opts: string, pre: seq<string>, a: seq<string>, b: seq<string>,
                                        sp: nat, optarg: Option<string>)
    requires a != [] && |b| > |a| && a[0] != b[0] && SameFrom(opts, a, b) && sp >= 1
    requires if pre == [] then sp == 1 else sp > 1 ==> sp < |pre[0]|
    ensures Run(opts, pre + a, sp, optarg) == Run(opts, pre + b, sp, optarg) <==>
      Reaches(opts, pre + a, sp, optarg, |a| - 1)
    decreases |pre|, if pre == [] then 0 else |pre[0]| - sp, 1
  {
    if pre == [] {
      assert pre + a == a && pre + b == b;
    } else {
      var (word, tail) := (pre[0], pre[1..]);
      assert pre == [word] + tail;
      Regroup([word], tail, a);
      Regroup([word], tail, b);
      if sp > 1 || (IsOption(word) && word != "--") {
        if KindOf(opts, word[sp]) == WithArgument && sp + 1 == |word| {
          SwapArgument(opts, word, tail, a, b, sp, optarg);
        } else {
          SwapLetter(opts, pre, a, b, sp, optarg);
        }
      }
    }
  }

  /** A letter without an argument, or with its argument in the same word. */
  lemma {:induction false} SwapLetter(opts: string, pre: seq<string>, a: seq<string>, b: seq<string>,
                                      sp: nat, optarg: Option<string>)
    requires a != [] && |b| > |a| && a[0] != b[0] && SameFrom(opts, a, b) && pre != []
    requires 1 <= sp < |pre[0]| && (sp > 1 || (IsOption(pre[0]) && pre[0] != "--"))
    requires KindOf(opts, pre[0][sp]) == WithArgument ==> sp + 1 < |pre[0]|
    ensures Run(opts, pre + a, sp, optarg) == Run(opts, pre + b, sp, optarg) <==>
      Reaches(opts, pre + a, sp, optarg, |a| - 1)
    decreases |pre|, |pre[0]| - sp, 0
  {
    var (word, tail) := (pre[0], pre[1..]);
    var c := word[sp];
    assert pre == [word] + tail;
    Regroup([word], tail, a);
    Regroup([word], tail, b);
    NextInside(opts, word, tail + a, sp, optarg);
    NextInside(opts, word, tail + b, sp, optarg);
    if KindOf(opts, c) == WithArgument {
      var e := Event(c, Some(word[sp + 1..]), c);
      SwapAnywhere(opts, tail, a, b, 1, e.optarg);
      SwapStep(opts, pre + a, pre + b, sp, optarg, |a| - 1, e, tail + a, tail + b, 1);
    } else {
      var e := LetterEvent(opts, c, optarg);
      var (pre', sp') := if sp + 1 < |word| then (pre, sp + 1) else (tail, 1);
      SwapAnywhere(opts, pre', a, b, sp', e.optarg);
      SwapStep(opts, pre + a, pre + b, sp, optarg, |a| - 1, e, pre' + a, pre' + b, sp');
    }
  }

  /** The next word is the argument of the letter at the cursor. */
  lemma {:induction false} SwapArgument(opts: string, word: string, tail: seq<string>, a: seq<string>, b: seq<string>,
                                        sp: nat, optarg: Option<string>)
    requires a != [] && |b| > |a| && a[0] != b[0] && SameFrom(opts, a, b) && 1 <= sp == |word| - 1
    requires KindOf(opts, word[sp]) == WithArgument && (sp > 1 || (IsOption(word) && word != "--"))
    ensures Run(opts, [word] + (tail + a), sp, optarg) == Run(opts, [word] + (tail + b), sp, optarg) <==>
      Reaches(opts, [word] + (tail + a), sp, optarg, |a| - 1)
    decreases |tail|, 0, 2
  {
    NextInside(opts, word, tail + a, sp, optarg);
    NextInside(opts, word, tail + b, sp, optarg);
    if tail == [] {
      assert tail + a == a && tail + b == b;
      var (o, p) := (Run(opts, [word] + (tail + a), sp, optarg), Run(opts, [word] + (tail + b), sp, optarg));
      assert o.events[0] != p.events[0];
    } else {
      var e := Event(word[sp], Some(tail[0]), word[sp]);
      assert (tail + a)[1..] == tail[1..] + a && (tail + b)[1..] == tail[1..] + b;
      SwapAnywhere(opts, tail[1..], a, b, 1, e.optarg);
      SwapStep(opts, [word] + (tail + a), [word] + (tail + b), sp, optarg, |a| - 1, e, tail[1..] + a, tail[1..] + b, 1);
    }
  }

  /** A cluster anywhere in the command line can be taken apart without changing what getopt delivers
      exactly when getopt reaches it as an option, not as an argument or as an operand. */
  lemma ApartAnywhere(opts: string, pre: seq<string>, letters: string, post: seq<string>, optarg: Option<string>)
    requires |letters| > 1 && NoDash(opts, letters)
    ensures (Run(opts, pre + (["-" + letters] + post), 1, optarg) ==
             Run(opts, pre + (Apart(opts, letters) + post), 1, optarg))
      <==> Reaches(opts, pre + (["-" + letters] + post), 1, optarg, |post|)
  {
    var (a, b) := (["-" + letters] + post, Apart(opts, letters) + post);
    forall optarg ensures Run(opts, a, 1, optarg) == Run(opts, b, 1, optarg) {
      ApartIsSame(opts, letters, post, optarg);
    }
    assert |a[0]| > |b[0]|;
    SwapAnywhere(opts, pre, a, b, 1, optarg);
  }
}
