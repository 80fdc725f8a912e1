/** What a successful parse returns, and that parsing its result again changes nothing. */
module FuseOptTheorems {
  import opened Wrappers
  import opened FuseOpt
  import opened FuseOptValues

  // ---------------------------------------------------------------- what is kept

  /** The unmatched options of the `-o` groups, the other arguments up to `--`, what follows `--`,
      and the options that matched a template. */
  datatype Kept = Kept(opts: seq<string>, before: seq<string>, after: Option<seq<string>>, hits: seq<string>)

  function Unmatched(tb: Table, opts: seq<string>): seq<string> {
    if opts == [] then []
    else (if Matches(tb, opts[0]) then [] else [opts[0]]) + Unmatched(tb, opts[1..])
  }

  function Hits(tb: Table, opts: seq<string>): seq<string> {
    if opts == [] then []
    else (if Matches(tb, opts[0]) then [opts[0]] else []) + Hits(tb, opts[1..])
  }

  predicate IsOption(arg: string) { arg != "" && arg[0] == '-' }

  predicate IsGroup(arg: string) { |arg| > 1 && arg[0] == '-' && arg[1] == 'o' }

  /** The arguments after the program name, sorted; none if the last `-o` has no list. */
  function KeptOf(tb: Table, args: seq<string>): Option<Kept>
    decreases |args|
  {
    if args == [] then Some(Kept([], [], None, []))
    else if args[0] == "--" then Some(Kept([], [], Some(args[1..]), []))
    else if args[0] == "-o" then
      if |args| == 1 then None else WithGroup(tb, Split(args[1]), KeptOf(tb, args[2..]))
    else if IsGroup(args[0]) then WithGroup(tb, Split(args[0][2..]), KeptOf(tb, args[1..]))
    else if IsOption(args[0]) && Matches(tb, args[0]) then WithHit(args[0], KeptOf(tb, args[1..]))
    else WithArg(args[0], KeptOf(tb, args[1..]))
  }

  function WithOptions(opts: seq<string>, hits: seq<string>, k: Option<Kept>): Option<Kept> {
    match k
    case None => None
    case Some(k) => Some(k.(opts := opts + k.opts, hits := hits + k.hits))
  }

  function WithGroup(tb: Table, group: seq<string>, k: Option<Kept>): Option<Kept> {
    WithOptions(Unmatched(tb, group), Hits(tb, group), k)
  }

  function WithHit(arg: string, k: Option<Kept>): Option<Kept> {
    match k case None => None case Some(k) => Some(k.(hits := [arg] + k.hits))
  }

  function WithArg(arg: string, k: Option<Kept>): Option<Kept> {
    match k case None => None case Some(k) => Some(k.(before := [arg] + k.before))
  }

  function AddOpts(opts: Option<string>, list: seq<string>): Option<string>
    decreases |list|
  {
    if list == [] then opts else AddOpts(AddOpt(opts, list[0]), list[1..])
  }

  function Tail(after: Option<seq<string>>): seq<string> {
    match after case None => [] case Some(rest) => ["--"] + rest
  }

  /** The resulting vector: the program name, one `-o` list at position 1 if any option was kept,
      and the other arguments.  A `--` with nothing behind it goes, unless there is a list. */
  function Normalised(prog: string, k: Kept): seq<string> {
    var list := AddOpts(None, k.opts);
    [prog] + (match list case None => [] case Some(text) => ["-o", text]) + k.before +
    (if k.after == Some([]) && k.opts == [] then [] else Tail(k.after))
  }

  // ---------------------------------------------------------------- running is sorting

  lemma {:induction false} GroupSorts(tb: Table, argv: seq<string>, ctx: Ctx, opts: seq<string>)
    requires SettingTable(tb)
    ensures ProcessAll(tb, argv, ctx, opts) ==
            WithVars(ctx.(opts := AddOpts(ctx.opts, Unmatched(tb, opts))), ApplyAll(tb, ctx.vars, Hits(tb, opts)))
    decreases |opts|
  {
    if opts != [] {
      var next := ProcessGopt(tb, argv, ctx, opts[0], true);
      if Matches(tb, opts[0]) {
        MatchesSet(tb, argv, ctx, 0, opts[0], true);
        if next.Some? { GroupSorts(tb, argv, next.value, opts[1..]); }
        assert Unmatched(tb, opts) == Unmatched(tb, opts[1..]);
        assert Hits(tb, opts)[1..] == Hits(tb, opts[1..]);
      } else {
        GroupSorts(tb, argv, next.value, opts[1..]);
        assert Unmatched(tb, opts)[1..] == Unmatched(tb, opts[1..]);
        assert Hits(tb, opts) == Hits(tb, opts[1..]);
      }
    }
  }

  lemma {:induction false} AddOptsAppend(opts: Option<string>, a: seq<string>, b: seq<string>)
    ensures AddOpts(opts, a + b) == AddOpts(AddOpts(opts, a), b)
    decreases |a|
  {
    if a == [] {
      assert a + b == b;
    } else {
      assert (a + b)[0] == a[0] && (a + b)[1..] == a[1..] + b;
      AddOptsAppend(AddOpt(opts, a[0]), a[1..], b);
    }
  }

  /** After `--` every argument is kept as it is. */
  lemma {:induction false} RunVerbatim(tb: Table, argv: seq<string>, ctx: Ctx)
    requires ctx.nonopt != 0 && ctx.argctr <= |argv|
    ensures Run(tb, argv, ctx) == Some(ctx.(argctr := |argv|, outargs := ctx.outargs + argv[ctx.argctr..]))
    decreases |argv| - ctx.argctr
  {
    if ctx.argctr < |argv| {
      var arg := argv[ctx.argctr];
      RunVerbatim(tb, argv, ctx.(outargs := ctx.outargs + [arg], argctr := ctx.argctr + 1));
      assert argv[ctx.argctr..] == [arg] + argv[ctx.argctr + 1..];
      assert ctx.outargs + argv[ctx.argctr..] == (ctx.outargs + [arg]) + argv[ctx.argctr + 1..];
    } else {
      assert ctx.outargs + argv[ctx.argctr..] == ctx.outargs;
    }
  }

  /** The context at the end of a run, told from what the arguments keep. */
  predicate Sorted(tb: Table, ctx: Ctx, end: Ctx, k: Kept)
    requires SettingTable(tb)
  {
    && end.opts == AddOpts(ctx.opts, k.opts)
    && end.outargs == ctx.outargs + k.before + Tail(k.after)
    && end.nonopt == (match k.after case None => 0 case Some(_) => |ctx.outargs| + |k.before| + 1)
    && Some(end.vars) == ApplyAll(tb, ctx.vars, k.hits)
  }

  /** A run succeeds exactly when the last `-o` has its list and every parameter is accepted, and it
      sorts the arguments. */
  predicate SortsTo(tb: Table, ctx: Ctx, run: Option<Ctx>, k: Option<Kept>)
    requires SettingTable(tb)
  {
    && (run.Some? <==> k.Some? && ApplyAll(tb, ctx.vars, k.value.hits).Some?)
    && (run.Some? ==> Sorted(tb, ctx, run.value, k.value))
  }

  predicate RunSorts(tb: Table, argv: seq<string>, ctx: Ctx)
    requires SettingTable(tb)
  {
    SortsTo(tb, ctx, Run(tb, argv, ctx), KeptOf(tb, if ctx.argctr <= |argv| then argv[ctx.argctr..] else []))
  }

  /** Sorting after an argument that was kept, told from before it. */
  lemma SortedAfterArg(tb: Table, ctx: Ctx, argctr: nat, run: Option<Ctx>, arg: string, k: Option<Kept>)
    requires SettingTable(tb) && SortsTo(tb, Keep(ctx, arg, false).(argctr := argctr), run, k)
    ensures SortsTo(tb, ctx, run, WithArg(arg, k))
  {
    if k.Some? {
      assert ctx.outargs + ([arg] + k.value.before) + Tail(k.value.after) ==
          (ctx.outargs + [arg]) + k.value.before + Tail(k.value.after);
    }
  }

  /** The argument that `ctx` is about to process was kept, and the run goes on behind it. */
  lemma RunSortsArg(tb: Table, argv: seq<string>, ctx: Ctx, next: Ctx)
    requires SettingTable(tb) && ctx.argctr < |argv| && ctx.nonopt == 0
    requires var arg := argv[ctx.argctr]; arg != "--" && !IsGroup(arg) && !(IsOption(arg) && Matches(tb, arg))
    requires next == Keep(ctx, argv[ctx.argctr], false).(argctr := ctx.argctr + 1) && RunSorts(tb, argv, next)
    ensures RunSorts(tb, argv, ctx)
  {
    var arg, rest := argv[ctx.argctr], argv[ctx.argctr + 1..];
    assert argv[ctx.argctr..][1..] == rest;
    SortedAfterArg(tb, ctx, ctx.argctr + 1, Run(tb, argv, next), arg, KeptOf(tb, rest));
  }

  /** Sorting after an option that matched, told from before it. */
  lemma SortedAfterHit(tb: Table, ctx: Ctx, argctr: nat, run: Option<Ctx>, hit: string, k: Option<Kept>)
    requires SettingTable(tb)
    requires
      var next := WithVars(ctx, ApplyFrom(tb, ctx.vars, hit, 0));
      if next.None? then run.None? else SortsTo(tb, next.value.(argctr := argctr), run, k)
    ensures SortsTo(tb, ctx, run, WithHit(hit, k))
  {
    if k.Some? { assert ([hit] + k.value.hits)[1..] == k.value.hits; }
  }

  lemma RunSortsHit(tb: Table, argv: seq<string>, ctx: Ctx)
    requires SettingTable(tb) && ctx.argctr < |argv| && ctx.nonopt == 0
    requires var arg := argv[ctx.argctr]; arg != "--" && !IsGroup(arg) && IsOption(arg) && Matches(tb, arg)
    requires
      var next := ProcessOne(tb, argv, ctx, argv[ctx.argctr]);
      next.Some? ==> RunSorts(tb, argv, next.value.(argctr := ctx.argctr + 1))
    ensures RunSorts(tb, argv, ctx)
  {
    var arg := argv[ctx.argctr];
    assert argv[ctx.argctr..][1..] == argv[ctx.argctr + 1..];
    MatchesSet(tb, argv, ctx, 0, arg, false);
    SortedAfterHit(tb, ctx, ctx.argctr + 1, Run(tb, argv, ctx), arg, KeptOf(tb, argv[ctx.argctr + 1..]));
  }

  /** Sorting after a group of options, told from before it. */
  lemma SortedAfterGroup(tb: Table, ctx: Ctx, mid: Ctx, run: Option<Ctx>, opts: seq<string>, hits: seq<string>,
      k: Option<Kept>)
    requires SettingTable(tb) && SortsTo(tb, mid, run, k) && mid.outargs == ctx.outargs
    requires mid.opts == AddOpts(ctx.opts, opts) && ApplyAll(tb, ctx.vars, hits) == Some(mid.vars)
    ensures SortsTo(tb, ctx, run, WithOptions(opts, hits, k))
  {
    if k.Some? {
      AddOptsAppend(ctx.opts, opts, k.value.opts);
      ApplyAllAppend(tb, ctx.vars, hits, k.value.hits);
    }
  }

  /** The run after one argument. */
  function Continued(tb: Table, argv: seq<string>, next: Option<Ctx>): Option<Ctx> {
    match next case None => None case Some(ctx) => Run(tb, argv, ctx.(argctr := ctx.argctr + 1))
  }

  /** A group of options, processed in `at`, is sorted before what the rest of the run keeps. */
  lemma GroupInFront(tb: Table, argv: seq<string>, ctx: Ctx, at: Ctx, group: seq<string>, run: Option<Ctx>,
      k: Option<Kept>)
    requires SettingTable(tb) && at == ctx.(argctr := at.argctr)
    requires
      var next := ProcessAll(tb, argv, at, group);
      if next.None? then run.None? else SortsTo(tb, next.value.(argctr := at.argctr + 1), run, k)
    ensures SortsTo(tb, ctx, run, WithGroup(tb, group, k))
  {
    GroupSorts(tb, argv, at, group);
    var next := ProcessAll(tb, argv, at, group);
    if next.None? {
      if k.Some? { ApplyAllAppend(tb, ctx.vars, Hits(tb, group), k.value.hits); }
    } else {
      SortedAfterGroup(tb, ctx, next.value.(argctr := at.argctr + 1), run, Unmatched(tb, group), Hits(tb, group), k);
    }
  }

  lemma {:induction false} RunIsSorting(tb: Table, argv: seq<string>, ctx: Ctx)
    requires SettingTable(tb) && ctx.nonopt == 0
    ensures RunSorts(tb, argv, ctx)
    decreases |argv| - ctx.argctr, 2
  {
    if ctx.argctr < |argv| {
      var arg := argv[ctx.argctr];
      var next := ProcessOne(tb, argv, ctx, arg);
      OneGrows(tb, argv, ctx, arg);
      if arg == "--" {
        var marked := ctx.(outargs := ctx.outargs + [arg], nonopt := |ctx.outargs| + 1, argctr := ctx.argctr + 1);
        RunVerbatim(tb, argv, marked);
        assert argv[ctx.argctr..][1..] == argv[ctx.argctr + 1..];
        assert ctx.outargs + [] + (["--"] + argv[ctx.argctr + 1..]) == (ctx.outargs + [arg]) + argv[ctx.argctr + 1..];
      } else if IsGroup(arg) {
        GroupCase(tb, argv, ctx);
      } else if IsOption(arg) && Matches(tb, arg) {
        MatchesSet(tb, argv, ctx, 0, arg, false);
        if next.Some? {
          RunIsSorting(tb, argv, next.value.(argctr := ctx.argctr + 1));
        }
        RunSortsHit(tb, argv, ctx);
      } else {
        RunIsSorting(tb, argv, Keep(ctx, arg, false).(argctr := ctx.argctr + 1));
        RunSortsArg(tb, argv, ctx, Keep(ctx, arg, false).(argctr := ctx.argctr + 1));
      }
    }
  }

  lemma {:induction false} GroupCase(tb: Table, argv: seq<string>, ctx: Ctx)
    requires SettingTable(tb) && ctx.nonopt == 0 && ctx.argctr < |argv| && IsGroup(argv[ctx.argctr])
    ensures RunSorts(tb, argv, ctx)
    decreases |argv| - ctx.argctr, 1
  {
    var arg, args := argv[ctx.argctr], argv[ctx.argctr..];
    if |arg| == 2 {
      assert arg == "-o";
      if |args| > 1 {
        assert args[2..] == argv[ctx.argctr + 2..] && args[1] == argv[ctx.argctr + 1];
        GroupRuns(tb, argv, ctx, ctx.(argctr := ctx.argctr + 1), Split(args[1]));
      }
    } else {
      assert args[1..] == argv[ctx.argctr + 1..] && arg != "-o" && arg != "--";
      GroupRuns(tb, argv, ctx, ctx, Split(arg[2..]));
    }
  }

  lemma {:induction false} GroupRuns(tb: Table, argv: seq<string>, ctx: Ctx, at: Ctx, group: seq<string>)
    requires SettingTable(tb) && ctx.nonopt == 0
    requires at == ctx.(argctr := at.argctr) && ctx.argctr <= at.argctr < |argv|
    ensures SortsTo(tb, ctx, Continued(tb, argv, ProcessAll(tb, argv, at, group)), WithGroup(tb, group, KeptOf(tb,
        argv[at.argctr + 1..])))
    decreases |argv| - ctx.argctr, 0
  {
    var next := ProcessAll(tb, argv, at, group);
    GroupSorts(tb, argv, at, group);
    if next.Some? {
      RunIsSorting(tb, argv, next.value.(argctr := at.argctr + 1));
    }
    GroupInFront(tb, argv, ctx, at, group, Continued(tb, argv, next), KeptOf(tb, argv[at.argctr + 1..]));
  }

  /** When a parse succeeds and what it returns: unmatched options and other arguments each in their
      order, the options gathered into one `-o` list at position 1. */
  lemma ParseNormalises(tb: Table, argv: seq<string>, vars: map<nat, Value>)
    requires SettingTable(tb) && argv != []
    ensures
      var parsed, k := Parse(tb, argv, vars), KeptOf(tb, argv[1..]);
      && (parsed.Some? <==> k.Some? && forall h :: h in k.value.hits ==> Accepts(tb, h))
      && (parsed.Some? ==> parsed.value.0 == Normalised(argv[0], k.value) &&
                           Some(parsed.value.1) == ApplyAll(tb, vars, k.value.hits))
  {
    RunIsSorting(tb, argv, Start(argv, vars));
    var run := Run(tb, argv, Start(argv, vars));
    if KeptOf(tb, argv[1..]).Some? {
      var k := KeptOf(tb, argv[1..]).value;
      AllApplyExactlyWhen(tb, vars, k.hits);
      if run.Some? {
        if k.opts == [] {
          AssembledWithoutList(tb, argv[0], Start(argv, vars), run.value, k);
        } else {
          AssembledWithList(tb, argv[0], Start(argv, vars), run.value, k);
        }
      }
    }
  }

  /** A successful parse leaves in every variable what the last option with a template for it sets,
      and the old value where there is none. */
  lemma ParseSets(tb: Table, argv: seq<string>, vars: map<nat, Value>, o: nat)
    requires SettingTable(tb) && argv != [] && Parse(tb, argv, vars).Some?
    ensures KeptOf(tb, argv[1..]).Some?
    ensures At(Parse(tb, argv, vars).value.1, o) ==
            OrElse(LastSetting(tb, KeptOf(tb, argv[1..]).value.hits, o), At(vars, o))
  {
    ParseNormalises(tb, argv, vars);
    ApplyAllSets(tb, vars, KeptOf(tb, argv[1..]).value.hits, o);
  }

  /** The same, told by positions: the last option and template that set a variable give its value,
      and a variable that none sets keeps its own. */
  lemma LastOptionWins(tb: Table, argv: seq<string>, vars: map<nat, Value>, o: nat)
    requires SettingTable(tb) && argv != [] && Parse(tb, argv, vars).Some?
    ensures KeptOf(tb, argv[1..]).Some?
    ensures
      var hits, end := KeptOf(tb, argv[1..]).value.hits, Parse(tb, argv, vars).value.1;
      && (forall j: nat, i: nat :: LastAt(tb, hits, j, i, o) ==> At(end, o) == Setting(tb, tb.templates[i], hits[j]))
      && ((forall j, i :: 0 <= j < |hits| && 0 <= i < |tb.templates| ==> !SetsAt(tb, hits[j], i, o)) ==>
            At(end, o) == At(vars, o))
  {
    ParseNormalises(tb, argv, vars);
    ParseSets(tb, argv, vars, o);
    var hits := KeptOf(tb, argv[1..]).value.hits;
    forall j: nat, i: nat | LastAt(tb, hits, j, i, o)
      ensures LastSetting(tb, hits, o) == Setting(tb, tb.templates[i], hits[j]) && LastSetting(tb, hits, o).Some?
    {
      assert hits[j] in hits && Accepts(tb, hits[j]);
      LastSettingIs(tb, hits, j, i, o);
    }
    if forall j, i :: 0 <= j < |hits| && 0 <= i < |tb.templates| ==> !SetsAt(tb, hits[j], i, o) {
      NothingSet(tb, hits, o);
    }
  }

  lemma {:induction false} AddOptsNone(list: seq<string>, opts: Option<string>)
    ensures AddOpts(opts, list).None? <==> list == [] && opts.None?
    decreases |list|
  {
    if list != [] { AddOptsNone(list[1..], AddOpt(opts, list[0])); }
  }

  lemma InsertTwo(prog: string, rest: seq<string>, text: string)
    ensures InsertAt(InsertAt([prog] + rest, 1, "-o"), 2, text) == [prog] + ["-o", text] + rest
  {
    var args := [prog] + rest;
    assert args[..1] == [prog] && args[1..] == rest;
    var one := InsertAt(args, 1, "-o");
    assert one[..2] == [prog, "-o"] && one[2..] == rest;
  }

  lemma AssembledWithList(tb: Table, prog: string, start: Ctx, end: Ctx, k: Kept)
    requires SettingTable(tb) && start.opts == None && start.outargs == [prog]
    requires Sorted(tb, start, end, k) && k.opts != []
    ensures Assembled(end) == Normalised(prog, k)
  {
    AddOptsNone(k.opts, None);
    var rest := k.before + Tail(k.after);
    assert end.outargs == [prog] + rest;
    InsertTwo(prog, rest, end.opts.value);
    var args := [prog] + ["-o", end.opts.value] + rest;
    assert end.nonopt != |args|;
    assert args == [prog] + ["-o", end.opts.value] + k.before + Tail(k.after);
  }

  lemma AssembledWithoutList(tb: Table, prog: string, start: Ctx, end: Ctx, k: Kept)
    requires SettingTable(tb) && start.opts == None && start.outargs == [prog]
    requires Sorted(tb, start, end, k) && k.opts == []
    ensures Assembled(end) == Normalised(prog, k)
  {
    var args := [prog] + k.before + Tail(k.after);
    assert end.opts == None && end.outargs == args;
    assert Normalised(prog, k) == [prog] + k.before + (if k.after == Some([]) then [] else Tail(k.after));
    if k.after == Some([]) {
      assert args[..|args| - 1] == [prog] + k.before + [];
    }
  }

  // ---------------------------------------------------------------- parsing again

  lemma {:induction false} SplitAppend(s: string, opt: string)
    requires ',' !in opt
    ensures Split(s + "," + opt) == Split(s) + [opt]
    decreases |s|
  {
    var t := s + "," + opt;
    match StrChr(s, ',')
    case None =>
      StrChrIs(t, ',', |s|);
      assert t[..|s|] == s && t[|s| + 1..] == opt;
    case Some(i) =>
      StrChrIs(t, ',', i);
      assert t[..i] == s[..i] && t[i + 1..] == s[i + 1..] + "," + opt;
      SplitAppend(s[i + 1..], opt);
      assert [s[..i]] + (Split(s[i + 1..]) + [opt]) == ([s[..i]] + Split(s[i + 1..])) + [opt];
  }

  predicate NoCommas(opts: seq<string>) {
    forall o :: o in opts ==> ',' !in o
  }

  /** The options behind the first one, each with its comma. */
  function Behind(list: seq<string>): string {
    if list == [] then "" else "," + list[0] + Behind(list[1..])
  }

  lemma {:induction false} AddOptsIs(s: string, list: seq<string>)
    ensures AddOpts(Some(s), list) == Some(s + Behind(list))
    decreases |list|
  {
    if list == [] {
      assert s + "" == s;
    } else {
      AddOptsIs(s + "," + list[0], list[1..]);
      assert s + "," + list[0] + Behind(list[1..]) == s + ("," + list[0] + Behind(list[1..]));
    }
  }

  lemma FrontAndBehind(first: string, pieces: seq<string>)
    requires pieces != []
    ensures
      var list := [first] + pieces;
      list[0] + Behind(list[1..]) == first + ("," + (pieces[0] + Behind(pieces[1..])))
  {
    assert ([first] + pieces)[1..] == pieces;
    AppendAssociates(",", pieces[0], Behind(pieces[1..]));
  }

  lemma CutAtComma(group: string, i: nat)
    requires i < |group| && group[i] == ','
    ensures group == group[..i] + ("," + group[i + 1..])
  {
  }

  lemma {:induction false} SplitBehind(group: string)
    ensures Split(group)[0] + Behind(Split(group)[1..]) == group
    decreases |group|
  {
    match StrChr(group, ',')
    case None =>
      assert [group][1..] == [] && group + "" == group;
    case Some(i) =>
      SplitBehind(group[i + 1..]);
      FrontAndBehind(group[..i], Split(group[i + 1..]));
      CutAtComma(group, i);
  }

  /** The pieces of a group put together again are the group. */
  lemma JoinSplit(group: string)
    ensures AddOpts(None, Split(group)) == Some(group)
  {
    SplitBehind(group);
    AddOptsIs(Split(group)[0], Split(group)[1..]);
  }

  /** The list that is put together from options falls apart into the same options. */
  lemma {:induction false} SplitAddOpts(s: string, list: seq<string>)
    requires NoCommas(list)
    ensures AddOpts(Some(s), list).Some? && Split(AddOpts(Some(s), list).value) == Split(s) + list
    decreases |list|
  {
    if list != [] {
      assert list[0] in list;
      SplitAppend(s, list[0]);
      SplitAddOpts(s + "," + list[0], list[1..]);
      assert (Split(s) + [list[0]]) + list[1..] == Split(s) + list;
    }
  }

  lemma SplitJoined(opts: seq<string>)
    requires opts != [] && NoCommas(opts)
    ensures AddOpts(None, opts).Some? && Split(AddOpts(None, opts).value) == opts
  {
    assert opts[0] in opts;
    SplitAddOpts(opts[0], opts[1..]);
    assert [opts[0]] + opts[1..] == opts;
  }

  predicate Stays(tb: Table, a: string) {
    a != "--" && !IsGroup(a) && !(IsOption(a) && Matches(tb, a))
  }

  /** Nothing in `k` matches a template, and its arguments are no groups and no `--`. */
  predicate Settled(tb: Table, k: Kept) {
    && NoCommas(k.opts)
    && (forall o :: o in k.opts ==> !Matches(tb, o))
    && (forall a :: a in k.before ==> Stays(tb, a))
  }

  lemma {:induction false} UnmatchedSettled(tb: Table, opts: seq<string>)
    requires NoCommas(opts)
    ensures NoCommas(Unmatched(tb, opts)) && forall o :: o in Unmatched(tb, opts) ==> !Matches(tb, o)
    decreases |opts|
  {
    if opts != [] { UnmatchedSettled(tb, opts[1..]); }
  }

  lemma {:induction false} KeptIsSettled(tb: Table, args: seq<string>)
    requires KeptOf(tb, args).Some?
    ensures Settled(tb, KeptOf(tb, args).value)
    decreases |args|
  {
    if args == [] || args[0] == "--" {
    } else if args[0] == "-o" {
      KeptIsSettled(tb, args[2..]);
      UnmatchedSettled(tb, Split(args[1]));
    } else {
      KeptIsSettled(tb, args[1..]);
      if IsGroup(args[0]) { UnmatchedSettled(tb, Split(args[0][2..])); }
    }
  }

  lemma {:induction false} AllUnmatched(tb: Table, opts: seq<string>)
    requires forall o :: o in opts ==> !Matches(tb, o)
    ensures Unmatched(tb, opts) == opts && Hits(tb, opts) == []
    decreases |opts|
  {
    if opts != [] {
      assert opts[0] in opts;
      AllUnmatched(tb, opts[1..]);
      assert opts == [opts[0]] + opts[1..];
    }
  }

  lemma {:induction false} KeptOfOneMore(tb: Table, a: string, rest: seq<string>)
    requires Stays(tb, a)
    ensures KeptOf(tb, [a] + rest) == WithArg(a, KeptOf(tb, rest))
  {
    var args := [a] + rest;
    assert args[0] == a && args[1..] == rest && a != "-o";
  }

  function InFront(before: seq<string>, k: Kept): Kept {
    k.(before := before + k.before)
  }

  /** Settled arguments in front are kept as they are. */
  lemma {:induction false} KeptOfSettled(tb: Table, before: seq<string>, rest: seq<string>)
    requires forall a :: a in before ==> Stays(tb, a)
    requires KeptOf(tb, rest).Some?
    ensures KeptOf(tb, before + rest) == Some(InFront(before, KeptOf(tb, rest).value))
    decreases |before|
  {
    var k := KeptOf(tb, rest).value;
    if before == [] {
      assert before + rest == rest && before + k.before == k.before;
    } else {
      var a, more := before[0], before[1..];
      assert a in before && forall b :: b in more ==> b in before;
      assert before + rest == [a] + (more + rest);
      KeptOfOneMore(tb, a, more + rest);
      KeptOfSettled(tb, more, rest);
      assert before + k.before == [a] + (more + k.before) by {
        assert before == [a] + more;
        AppendAssociates([a], more, k.before);
      }
    }
  }

  lemma {:induction false} KeptOfTail(tb: Table, after: Option<seq<string>>)
    ensures KeptOf(tb, Tail(after)) == Some(Kept([], [], after, []))
  {
    if after.Some? { assert Tail(after)[0] == "--" && Tail(after)[1..] == after.value; }
  }

  /** A `--` with nothing behind it stays only when there is a list of options. */
  function Settle(k: Kept): Kept {
    Kept(k.opts, k.before, if k.after == Some([]) && k.opts == [] then None else k.after, [])
  }

  lemma NormalisedArgs(prog: string, k: Kept)
    ensures Normalised(prog, Settle(k)) == Normalised(prog, k) && Normalised(prog, k)[0] == prog
    ensures Normalised(prog, k)[1..] ==
            (match AddOpts(None, k.opts) case None => [] case Some(text) => ["-o",
                text]) + (k.before + Tail(Settle(k).after))
  {
  }

  lemma {:induction false} KeptOfList(tb: Table, text: string, rest: seq<string>)
    ensures KeptOf(tb, ["-o", text] + rest) == WithGroup(tb, Split(text), KeptOf(tb, rest))
  {
    var args := ["-o", text] + rest;
    assert args[0] == "-o" && args[1] == text && args[2..] == rest;
  }

  /** Sorting the normalised vector finds everything in its place. */
  lemma {:induction false} KeptOfNormalised(tb: Table, prog: string, k: Kept)
    requires Settled(tb, k)
    ensures KeptOf(tb, Normalised(prog, k)[1..]) == Some(Settle(k))
  {
    var rest := k.before + Tail(Settle(k).after);
    NormalisedArgs(prog, k);
    KeptOfTail(tb, Settle(k).after);
    KeptOfSettled(tb, k.before, Tail(Settle(k).after));
    assert KeptOf(tb, rest) == Some(Kept([], k.before, Settle(k).after, [])) by { assert k.before + [] == k.before; }
    AddOptsNone(k.opts, None);
    if k.opts == [] {
      assert [] + rest == rest;
    } else {
      SplitJoined(k.opts);
      AllUnmatched(tb, k.opts);
      KeptOfList(tb, AddOpts(None, k.opts).value, rest);
      assert k.opts + [] == k.opts;
    }
  }

  /** Option normalisation is idempotent: a successful parse of a vector returns one that parses
      to itself without setting any variable. */
  lemma ParseIsIdempotent(tb: Table, argv: seq<string>, vars: map<nat, Value>, vars': map<nat, Value>)
    requires SettingTable(tb) && argv != [] && Parse(tb, argv, vars).Some?
    ensures var once := Parse(tb, argv, vars).value.0; Parse(tb, once, vars') == Some((once, vars'))
  {
    ParseNormalises(tb, argv, vars);
    var k := KeptOf(tb, argv[1..]).value;
    var once := Normalised(argv[0], k);
    KeptIsSettled(tb, argv[1..]);
    KeptOfNormalised(tb, argv[0], k);
    NormalisedArgs(argv[0], k);
    ParseNormalises(tb, once, vars');
  }
}
