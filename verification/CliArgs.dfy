/** The clone wizard's command line: a loop with a jumping index, against a grammar of flag groups. */
module CliArgs {
  import opened Wrappers

  const VALUE_FLAGS: set<string> := {"--answers", "--target", "--site-env"}
  const BOOL_FLAGS: set<string> := {"--dry-run", "--keep-demo", "--allow-placeholders", "--overwrite", "--help"}

  datatype Options = Options(answersPath: Option<string>, targetDir: string, siteEnv: string, dryRun: bool,
                             keepDemo: bool, allowPlaceholders: bool, overwrite: bool, help: bool)

  datatype CliError = NeedsValue(flag: string) | UnknownOption(arg: string)
  datatype Outcome = Parsed(options: Options) | Failed(error: CliError)

  predicate Dashed(s: string) {
    "--" <= s
  }

  /** What one turn of the loop consumes. */
  datatype Group = Valued(flag: string, value: string) | Bare(flag: string)

  predicate GroupOk(g: Group) {
    match g
    case Valued(flag, value) => flag in VALUE_FLAGS && !Dashed(value)
    case Bare(flag) => flag in BOOL_FLAGS
  }

  predicate AllOk(groups: seq<Group>) {
    forall i | 0 <= i < |groups| :: GroupOk(groups[i])
  }

  function Words(g: Group): seq<string> {
    match g
    case Valued(flag, value) => [flag, value]
    case Bare(flag) => [flag]
  }

  function Flatten(groups: seq<Group>): seq<string> {
    if groups == [] then [] else Words(groups[0]) + Flatten(groups[1..])
  }

  datatype Reading = Groups(groups: seq<Group>) | Stuck(error: CliError)

  function Prepend(groups: seq<Group>, r: Reading): Reading {
    match r
    case Groups(more) => Groups(groups + more)
    case Stuck(_) => r
  }

  function ReadGroups(argv: seq<string>): Reading {
    if argv == [] then Groups([])
    else if argv[0] in VALUE_FLAGS then
      if |argv| == 1 || Dashed(argv[1]) then Stuck(NeedsValue(argv[0]))
      else Prepend([Valued(argv[0], argv[1])], ReadGroups(argv[2..]))
    else if argv[0] in BOOL_FLAGS then Prepend([Bare(argv[0])], ReadGroups(argv[1..]))
    else Stuck(UnknownOption(argv[0]))
  }

  function ValuesOf(groups: seq<Group>): map<string, string> {
    if groups == [] then map[]
    else
      var front, last := ValuesOf(groups[..|groups| - 1]), groups[|groups| - 1];
      if last.Valued? then front[last.flag := last.value] else front
  }

  function FlagsOf(groups: seq<Group>): set<string> {
    set g | g in groups && g.Bare? :: g.flag
  }

  function ValueOr(values: map<string, string>, flag: string, default: string): string {
    if flag in values then values[flag] else default
  }

  function OptionsOf(values: map<string, string>, flags: set<string>, cwd: string): Options {
    Options(if "--answers" in values then Some(values["--answers"]) else None,
            ValueOr(values, "--target", cwd), ValueOr(values, "--site-env", "staging"),
            "--dry-run" in flags, "--keep-demo" in flags, "--allow-placeholders" in flags,
            "--overwrite" in flags, "--help" in flags)
  }

  function Parse(argv: seq<string>, cwd: string): Outcome {
    match ReadGroups(argv)
    case Groups(groups) => Parsed(OptionsOf(ValuesOf(groups), FlagsOf(groups), cwd))
    case Stuck(error) => Failed(error)
  }

  /** With no words at all: the current directory, staging, and every switch off. */
  lemma NoWordsGiveTheDefaults(cwd: string)
    ensures Parse([], cwd) == Parsed(Options(None, cwd, "staging", false, false, false, false, false))
  {
    assert FlagsOf([]) == {};
  }

  lemma ValuesAppend(groups: seq<Group>, g: Group)
    ensures ValuesOf(groups + [g]) == if g.Valued? then ValuesOf(groups)[g.flag := g.value] else ValuesOf(groups)
  {
    assert (groups + [g])[..|groups|] == groups;
  }

  lemma FlagsAppend(groups: seq<Group>, g: Group)
    ensures FlagsOf(groups + [g]) == if g.Bare? then FlagsOf(groups) + {g.flag} else FlagsOf(groups)
  {
    assert forall x :: x in groups + [g] <==> x in groups || x == g;
  }

  lemma PrependTwice(a: seq<Group>, b: seq<Group>, r: Reading)
    ensures Prepend(a, Prepend(b, r)) == Prepend(a + b, r)
  {
    if r.Groups? {
      assert a + (b + r.groups) == (a + b) + r.groups;
    }
  }

  /** Throws stop the loop at the first word that fits no group. */
  method ParseArgs(argv: seq<string>, cwd: string) returns (outcome: Outcome)
    ensures outcome == Parse(argv, cwd)
  {
    var values: map<string, string>, flags: set<string> := map[], {};
    ghost var groups: seq<Group> := [];
    assert argv[0..] == argv;
    var i := 0;
    while i < |argv|
      invariant 0 <= i <= |argv|
      invariant ReadGroups(argv) == Prepend(groups, ReadGroups(argv[i..]))
      invariant values == ValuesOf(groups) && flags == FlagsOf(groups)
    {
      var arg := argv[i];
      ghost var rest := argv[i..];
      if arg in VALUE_FLAGS {
        if i + 1 == |argv| || Dashed(argv[i + 1]) {
          return Failed(NeedsValue(arg));
        }
        assert rest[2..] == argv[i + 2..];
        ghost var g := Valued(arg, argv[i + 1]);
        PrependTwice(groups, [g], ReadGroups(argv[i + 2..]));
        ValuesAppend(groups, g);
        FlagsAppend(groups, g);
        groups := groups + [g];
        values := values[arg := argv[i + 1]];
        i := i + 1;
      } else if arg in BOOL_FLAGS {
        assert rest[1..] == argv[i + 1..];
        PrependTwice(groups, [Bare(arg)], ReadGroups(argv[i + 1..]));
        ValuesAppend(groups, Bare(arg));
        FlagsAppend(groups, Bare(arg));
        groups := groups + [Bare(arg)];
        flags := flags + {arg};
      } else {
        return Failed(UnknownOption(arg));
      }
      i := i + 1;
    }
    assert argv[i..] == [] && groups + [] == groups;
    outcome := Parsed(OptionsOf(values, flags, cwd));
  }

  // ---- The grammar -----------------------------------------------------------------------------------------------

  lemma FlagsAreDistinct(flag: string)
    ensures flag in VALUE_FLAGS ==> flag !in BOOL_FLAGS
  {
  }

  lemma ReadOneGroup(g: Group, rest: seq<string>)
    requires GroupOk(g)
    ensures ReadGroups(Words(g) + rest) == Prepend([g], ReadGroups(rest))
  {
    var argv := Words(g) + rest;
    FlagsAreDistinct(g.flag);
    assert argv[0] == g.flag && argv[|Words(g)|..] == rest;
  }

  lemma {:induction false} ReadsGroupsBack(groups: seq<Group>, rest: seq<string>)
    requires AllOk(groups)
    ensures ReadGroups(Flatten(groups) + rest) == Prepend(groups, ReadGroups(rest))
  {
    if groups == [] {
      assert Flatten(groups) + rest == rest;
    } else {
      var tail := Flatten(groups[1..]) + rest;
      assert Flatten(groups) + rest == Words(groups[0]) + tail;
      ReadOneGroup(groups[0], tail);
      ReadsGroupsBack(groups[1..], rest);
      PrependTwice([groups[0]], groups[1..], ReadGroups(rest));
      assert groups == [groups[0]] + groups[1..];
    }
  }

  lemma {:induction false} ReadIsFlat(argv: seq<string>)
    requires ReadGroups(argv).Groups?
    ensures AllOk(ReadGroups(argv).groups) && Flatten(ReadGroups(argv).groups) == argv
  {
    if argv != [] {
      var groups := ReadGroups(argv).groups;
      var k := |Words(groups[0])|;
      ReadIsFlat(argv[k..]);
      assert groups[1..] == ReadGroups(argv[k..]).groups;
      assert argv == Words(groups[0]) + argv[k..];
      assert groups == [groups[0]] + groups[1..];
    }
  }

  /** The parser accepts exactly the concatenations of known flag groups, and reads back the one there is. */
  lemma AcceptsExactlyGroups(argv: seq<string>)
    ensures ReadGroups(argv).Groups? <==> exists groups :: AllOk(groups) && Flatten(groups) == argv
    ensures forall groups | AllOk(groups) && Flatten(groups) == argv :: ReadGroups(argv) == Groups(groups)
  {
    if ReadGroups(argv).Groups? {
      ReadIsFlat(argv);
    }
    forall groups | AllOk(groups) && Flatten(groups) == argv ensures ReadGroups(argv) == Groups(groups) {
      ReadsGroupsBack(groups, []);
      assert Flatten(groups) + [] == argv && groups + [] == groups;
    }
  }

  lemma OneMoreGroup(g: Group, groups: seq<Group>, rest: seq<string>, argv: seq<string>)
    requires GroupOk(g) && AllOk(groups) && argv == Words(g) + (Flatten(groups) + rest)
    ensures AllOk([g] + groups) && argv == Flatten([g] + groups) + rest
  {
    assert ([g] + groups)[1..] == groups;
  }

  /** A refusal names the first word, after some whole groups, that begins no further group. */
  lemma {:induction false} RefusesTheFirstBadWord(argv: seq<string>) returns (groups: seq<Group>, rest: seq<string>)
    requires ReadGroups(argv).Stuck?
    ensures AllOk(groups) && argv == Flatten(groups) + rest && rest != []
    ensures match ReadGroups(argv).error
            case NeedsValue(flag) => flag == rest[0] && flag in VALUE_FLAGS && (|rest| == 1 || Dashed(rest[1]))
            case UnknownOption(arg) => arg == rest[0] && arg !in VALUE_FLAGS && arg !in BOOL_FLAGS
  {
    if argv[0] in VALUE_FLAGS && |argv| > 1 && !Dashed(argv[1]) {
      groups, rest := RefusesTheFirstBadWord(argv[2..]);
      var g := Valued(argv[0], argv[1]);
      assert argv == Words(g) + argv[2..];
      OneMoreGroup(g, groups, rest, argv);
      groups := [g] + groups;
    } else if argv[0] in BOOL_FLAGS && argv[0] !in VALUE_FLAGS {
      groups, rest := RefusesTheFirstBadWord(argv[1..]);
      var g := Bare(argv[0]);
      assert argv == Words(g) + argv[1..];
      OneMoreGroup(g, groups, rest, argv);
      groups := [g] + groups;
    } else {
      groups, rest := [], argv;
    }
  }

  // ---- What the options are ----------------------------------------------------------------------------------------

  ghost predicate LastValue(groups: seq<Group>, flag: string, k: nat) {
    && k < |groups| && groups[k].Valued? && groups[k].flag == flag
    && forall j | k < j < |groups| :: groups[j].Valued? ==> groups[j].flag != flag
  }

  /** A repeated value flag takes its last value. */
  lemma {:induction false} LastValueWins(groups: seq<Group>, flag: string)
    ensures flag in ValuesOf(groups) <==> exists k: nat :: LastValue(groups, flag, k)
    ensures forall k: nat | LastValue(groups, flag, k) :: ValuesOf(groups)[flag] == groups[k].value
  {
    if groups != [] {
      var n := |groups| - 1;
      var front, last := groups[..n], groups[n];
      LastValueWins(front, flag);
      if last.Valued? && last.flag == flag {
        assert LastValue(groups, flag, n);
      } else {
        if flag in ValuesOf(front) {
          var k: nat :| LastValue(front, flag, k);
          assert LastValue(groups, flag, k);
        }
        forall k: nat | LastValue(groups, flag, k) ensures LastValue(front, flag, k) {
          assert forall j | k < j < n :: front[j] == groups[j];
        }
      }
    }
  }

  /** No value flag is given twice. */
  ghost predicate ValuesOnce(groups: seq<Group>) {
    forall i, j | 0 <= i < j < |groups| && groups[i].Valued? && groups[j].Valued? :: groups[i].flag != groups[j].flag
  }

  lemma {:induction false} ValuesByMembership(groups: seq<Group>, flag: string, value: string)
    requires ValuesOnce(groups)
    ensures Valued(flag, value) in groups <==> flag in ValuesOf(groups) && ValuesOf(groups)[flag] == value
  {
    LastValueWins(groups, flag);
    if Valued(flag, value) in groups {
      var k :| 0 <= k < |groups| && groups[k] == Valued(flag, value);
      assert LastValue(groups, flag, k);
    }
    if flag in ValuesOf(groups) {
      var k: nat :| LastValue(groups, flag, k);
      assert groups[k] in groups;
    }
  }

  predicate Gives(values: map<string, string>, flag: string, value: string) {
    flag in values && values[flag] == value
  }

  lemma SameGivesSameMap(a: map<string, string>, b: map<string, string>)
    requires forall flag, value :: Gives(a, flag, value) <==> Gives(b, flag, value)
    ensures a == b
  {
    forall flag ensures flag in a <==> flag in b
                ensures flag in a ==> a[flag] == b[flag] {
      assert flag in a ==> Gives(a, flag, a[flag]);
      assert flag in b ==> Gives(b, flag, b[flag]);
    }
  }

  lemma SameGroupsSameResult(a: seq<Group>, b: seq<Group>)
    requires ValuesOnce(a) && ValuesOnce(b) && forall g :: g in a <==> g in b
    ensures ValuesOf(a) == ValuesOf(b) && FlagsOf(a) == FlagsOf(b)
  {
    forall flag, value ensures Gives(ValuesOf(a), flag, value) <==> Gives(ValuesOf(b), flag, value) {
      ValuesByMembership(a, flag, value);
      ValuesByMembership(b, flag, value);
    }
    SameGivesSameMap(ValuesOf(a), ValuesOf(b));
  }

  /** Reordering groups changes nothing, as long as no value flag is repeated. */
  lemma OrderDoesNotMatter(a: seq<Group>, b: seq<Group>, cwd: string)
    requires AllOk(a) && multiset(a) == multiset(b) && ValuesOnce(a) && ValuesOnce(b)
    ensures Parse(Flatten(a), cwd) == Parse(Flatten(b), cwd)
  {
    forall g ensures g in a <==> g in b {
      assert g in a <==> g in multiset(a);
      assert g in b <==> g in multiset(b);
    }
    forall i | 0 <= i < |b| ensures GroupOk(b[i]) {
      assert b[i] in a;
    }
    AcceptsExactlyGroups(Flatten(a));
    AcceptsExactlyGroups(Flatten(b));
    SameGroupsSameResult(a, b);
  }

  // ---- Rendering ---------------------------------------------------------------------------------------

  function BareIf(present: bool, flag: string): seq<Group> {
    if present then [Bare(flag)] else []
  }

  function ValuesFor(o: Options): seq<Group> {
    (if o.answersPath.Some? then [Valued("--answers", o.answersPath.value)] else [])
    + [Valued("--target", o.targetDir), Valued("--site-env", o.siteEnv)]
  }

  function BaresFor(o: Options): seq<Group> {
    BareIf(o.dryRun, "--dry-run") + BareIf(o.keepDemo, "--keep-demo")
    + BareIf(o.allowPlaceholders, "--allow-placeholders") + BareIf(o.overwrite, "--overwrite")
    + BareIf(o.help, "--help")
  }

  function Render(o: Options): seq<string> {
    Flatten(ValuesFor(o) + BaresFor(o))
  }

  predicate Renderable(o: Options) {
    && (o.answersPath.Some? ==> !("--" <= o.answersPath.value))
    && !("--" <= o.targetDir) && !("--" <= o.siteEnv)
  }

  lemma {:induction false} BaresAddNoValues(groups: seq<Group>, bares: seq<Group>)
    requires forall i | 0 <= i < |bares| :: bares[i].Bare?
    ensures ValuesOf(groups + bares) == ValuesOf(groups)
  {
    if bares == [] {
      assert groups + bares == groups;
    } else {
      BaresAddNoValues(groups, bares[..|bares| - 1]);
      assert (groups + bares)[..|groups + bares| - 1] == groups + bares[..|bares| - 1];
    }
  }

  lemma BaresAreBare(o: Options)
    ensures forall i | 0 <= i < |BaresFor(o)| :: BaresFor(o)[i].Bare? && GroupOk(BaresFor(o)[i])
  {
  }

  /** Which bare flags are rendered, one disjunct each. */
  predicate Asked(o: Options, flag: string) {
    || (flag == "--dry-run" && o.dryRun) || (flag == "--keep-demo" && o.keepDemo)
    || (flag == "--allow-placeholders" && o.allowPlaceholders)
    || (flag == "--overwrite" && o.overwrite) || (flag == "--help" && o.help)
  }

  lemma InEither(a: seq<Group>, b: seq<Group>, g: Group)
    ensures g in a + b <==> g in a || g in b
  {
  }

  lemma BareIsRendered(o: Options, flag: string)
    ensures Bare(flag) in BaresFor(o) <==> Asked(o, flag)
  {
    var dry, demo := BareIf(o.dryRun, "--dry-run"), BareIf(o.keepDemo, "--keep-demo");
    var holders := BareIf(o.allowPlaceholders, "--allow-placeholders");
    var over, help := BareIf(o.overwrite, "--overwrite"), BareIf(o.help, "--help");
    InEither(dry, demo, Bare(flag));
    InEither(dry + demo, holders, Bare(flag));
    InEither(dry + demo + holders, over, Bare(flag));
    InEither(dry + demo + holders + over, help, Bare(flag));
  }

  lemma RenderedBares(o: Options, flag: string)
    ensures flag in FlagsOf(ValuesFor(o) + BaresFor(o)) <==> Asked(o, flag)
  {
    InEither(ValuesFor(o), BaresFor(o), Bare(flag));
    BareIsRendered(o, flag);
    assert Bare(flag) !in ValuesFor(o);
  }

  lemma AskedIsTheOption(o: Options)
    ensures Asked(o, "--dry-run") == o.dryRun && Asked(o, "--keep-demo") == o.keepDemo
    ensures Asked(o, "--allow-placeholders") == o.allowPlaceholders
    ensures Asked(o, "--overwrite") == o.overwrite && Asked(o, "--help") == o.help
  {
    assert |"--dry-run"| == 9 && |"--keep-demo"| == 11 && |"--allow-placeholders"| == 20 && |"--help"| == 6;
    assert |"--overwrite"| == 11 && "--overwrite"[2] != "--keep-demo"[2];
  }

  lemma FlagsOfRendered(o: Options)
    ensures var flags := FlagsOf(ValuesFor(o) + BaresFor(o));
            && ("--dry-run" in flags <==> o.dryRun) && ("--keep-demo" in flags <==> o.keepDemo)
            && ("--allow-placeholders" in flags <==> o.allowPlaceholders)
            && ("--overwrite" in flags <==> o.overwrite) && ("--help" in flags <==> o.help)
  {
    AskedIsTheOption(o);
    RenderedBares(o, "--dry-run");
    RenderedBares(o, "--keep-demo");
    RenderedBares(o, "--allow-placeholders");
    RenderedBares(o, "--overwrite");
    RenderedBares(o, "--help");
  }

  lemma ValuesOfRendered(o: Options)
    ensures var values := ValuesOf(ValuesFor(o));
            && ("--answers" in values <==> o.answersPath.Some?)
            && (o.answersPath.Some? ==> values["--answers"] == o.answersPath.value)
            && "--target" in values && values["--target"] == o.targetDir
            && "--site-env" in values && values["--site-env"] == o.siteEnv
  {
    var first := if o.answersPath.Some? then [Valued("--answers", o.answersPath.value)] else [];
    if o.answersPath.Some? {
      ValuesAppend([], Valued("--answers", o.answersPath.value));
      assert [] + first == first;
    }
    ValuesAppend(first, Valued("--target", o.targetDir));
    ValuesAppend(first + [Valued("--target", o.targetDir)], Valued("--site-env", o.siteEnv));
    assert ValuesFor(o) == first + [Valued("--target", o.targetDir)] + [Valued("--site-env", o.siteEnv)];
    assert |"--answers"| == 9 && |"--target"| == 8 && |"--site-env"| == 10;
  }

  lemma RenderedGroupsAreRead(o: Options)
    requires Renderable(o)
    ensures ReadGroups(Render(o)) == Groups(ValuesFor(o) + BaresFor(o))
  {
    BaresAreBare(o);
    assert AllOk(ValuesFor(o) + BaresFor(o));
    AcceptsExactlyGroups(Render(o));
  }

  lemma RenderableParses(o: Options, cwd: string)
    requires Renderable(o)
    ensures Parse(Render(o), cwd) == Parsed(o)
  {
    RenderedGroupsAreRead(o);
    FlagsOfRendered(o);
    BaresAreBare(o);
    BaresAddNoValues(ValuesFor(o), BaresFor(o));
    ValuesOfRendered(o);
  }

  /** Printing options and parsing them gives them back if and only if no value begins with two dashes. */
  lemma RenderThenParse(o: Options, cwd: string)
    ensures Parse(Render(o), cwd) == Parsed(o) <==> Renderable(o)
  {
    if Renderable(o) {
      RenderableParses(o, cwd);
    } else {
      DashedValueIsRefused(o);
    }
  }

  lemma DashedValueIsRefused(o: Options)
    requires !Renderable(o)
    ensures ReadGroups(Render(o)).Stuck?
  {
    var groups := ValuesFor(o) + BaresFor(o);
    var k := if o.answersPath.None? then 0 else 1;
    if o.answersPath.Some? && Dashed(o.answersPath.value) {
      assert Render(o)[0] == "--answers" && Render(o)[1] == o.answersPath.value;
    } else if Dashed(o.targetDir) {
      StuckAt(groups, k);
    } else {
      StuckAt(groups, k + 1);
    }
  }

  lemma StuckAt(groups: seq<Group>, k: nat)
    requires k < |groups| && AllOk(groups[..k])
    requires groups[k].Valued? && groups[k].flag in VALUE_FLAGS && Dashed(groups[k].value)
    ensures ReadGroups(Flatten(groups)).Stuck?
  {
    FlattenSplit(groups[..k], groups[k..]);
    assert groups == groups[..k] + groups[k..];
    ReadsGroupsBack(groups[..k], Flatten(groups[k..]));
  }

  lemma Reassociate(a: seq<string>, b: seq<string>, c: seq<string>)
    ensures a + (b + c) == a + b + c
  {
  }

  lemma {:induction false} FlattenSplit(a: seq<Group>, b: seq<Group>)
    ensures Flatten(a + b) == Flatten(a) + Flatten(b)
  {
    if a == [] {
      assert a + b == b;
    } else {
      FlattenSplit(a[1..], b);
      assert (a + b)[0] == a[0] && (a + b)[1..] == a[1..] + b;
      Reassociate(Words(a[0]), Flatten(a[1..]), Flatten(b));
    }
  }
}
