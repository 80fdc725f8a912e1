/** The parser as compat/fuse_opt.c runs it: a context updated in place by loops. */
module FuseOptParser {
  import opened Wrappers
  import opened FuseOpt

  class Context {
    const table: Table
    const argv: seq<string>
    var argctr: nat
    var opts: Option<string>
    var nonopt: nat
    var outargs: seq<string>
    var vars: map<nat, Value>

    ghost function State(): Ctx
      reads this
    {
      Ctx(argctr, opts, nonopt, outargs, vars)
    }

    /** The state after a step that may have failed. */
    ghost function After(ok: bool): Option<Ctx>
      reads this
    {
      if ok then Some(State()) else None
    }

    constructor (table: Table, argv: seq<string>, vars: map<nat, Value>)
      ensures this.table == table && this.argv == argv && State() == Ctx(0, None, 0, [], vars)
    {
      this.table := table;
      this.argv := argv;
      argctr, opts, nonopt, outargs := 0, None, 0, [];
      this.vars := vars;
    }

    /** `insert_arg`: append, then shift the tail up by one. */
    method InsertArg(pos: nat, arg: string)
      requires pos <= |outargs|
      modifies this`outargs
      ensures outargs == InsertAt(old(outargs), pos, arg)
    {
      outargs := outargs + [arg];
      if pos != |outargs| - 1 {
        var last := |outargs| - 1;
        outargs := outargs[..pos] + [outargs[last]] + outargs[pos..last];
      }
    }

    /** `call_proc`. */
    method CallProc(arg: string, iso: bool)
      modifies this
      ensures State() == Keep(old(State()), arg, iso)
    {
      if iso {
        opts := AddOpt(opts, arg);
      } else {
        outargs := outargs + [arg];
      }
    }

    /** `find_opt`. */
    method Find(start: nat, arg: string) returns (r: Option<(nat, nat)>)
      requires start <= |table.templates|
      ensures r == FindOpt(table, start, arg)
    {
      var i := start;
      while i < |table.templates|
        invariant start <= i <= |table.templates|
        invariant FindOpt(table, i, arg) == FindOpt(table, start, arg)
      {
        var sep := MatchTemplate(table.templates[i].text, arg);
        if sep.Some? {
          return Some((i, sep.value));
        }
        i := i + 1;
      }
      return None;
    }

    /** `process_opt`. */
    method DoOpt(t: Template, sep: nat, arg: string, iso: bool) returns (ok: bool)
      requires sep > 0 ==> sep < |t.text| && sep <= |arg| && (t.text[sep] == '=' ==> sep < |arg|)
      modifies this
      ensures After(ok) == ProcessOpt(table, old(State()), t, sep, arg, iso)
    {
      if t.offset.None? {
        CallProc(arg, iso);
        return true;
      }
      if sep > 0 && sep + 1 < |t.text| {
        var param := if t.text[sep] == '=' then arg[sep + 1..] else arg[sep..];
        var format := t.text[sep + 1..];
        if |format| > 1 && format[1] == 's' {
          vars := vars[t.offset.value := Text(param)];
        } else {
          var v := table.scan(format, param);
          if v.None? {
            return false;
          }
          vars := vars[t.offset.value := v.value];
        }
      } else {
        vars := vars[t.offset.value := Number(t.value)];
      }
      return true;
    }

    /** `process_opt`, or `process_opt_sep_arg` for a template that wants the next argument. */
    method DoMatch(t: Template, sep: nat, arg: string, iso: bool) returns (ok: bool)
      requires sep > 0 ==> sep < |t.text| && sep <= |arg| && (t.text[sep] == '=' ==> sep < |arg|)
      modifies this
      ensures After(ok) == ProcessMatch(table, argv, old(State()), t, sep, arg, iso)
    {
      if sep > 0 && t.text[sep] == ' ' && sep == |arg| {
        if argctr + 1 >= |argv| {
          return false;
        }
        argctr := argctr + 1;
        ok := DoOpt(t, sep, arg[..sep] + argv[argctr], iso);
      } else {
        ok := DoOpt(t, sep, arg, iso);
      }
    }

    /** What is left of the loop in `process_gopt`, from template `i` on. */
    ghost function Rest(ok: bool, i: nat, arg: string, iso: bool): Option<Ctx>
      reads this
      requires i <= |table.templates|
    {
      if ok then ProcessMatches(table, argv, State(), i, arg, iso) else None
    }

    /** One round of that loop: process the match and look for the next one. */
    method DoFound(i: nat, at: (nat, nat), arg: string, iso: bool) returns (ok: bool, next: Option<(nat, nat)>, k: nat)
      requires i <= |table.templates| && FindOpt(table, i, arg) == Some(at)
      modifies this
      ensures i < k <= |table.templates|
      ensures ok ==> next == FindOpt(table, k, arg)
      ensures Rest(ok, k, arg, iso) == old(Rest(true, i, arg, iso))
    {
      MatchesStep(table, argv, State(), i, arg, iso);
      ok := DoMatch(table.templates[at.0], at.1, arg, iso);
      k := at.0 + 1;
      next := None;
      if ok {
        next := Find(k, arg);
      }
    }

    /** The loop of `process_gopt` over the matching templates. */
    method DoMatches(first: (nat, nat), arg: string, iso: bool) returns (ok: bool)
      requires FindOpt(table, 0, arg) == Some(first)
      modifies this
      ensures After(ok) == old(Rest(true, 0, arg, iso))
    {
      var found, i := Some(first), 0;
      ok := true;
      while ok && found.Some?
        invariant i <= |table.templates| && (ok ==> found == FindOpt(table, i, arg))
        invariant Rest(ok, i, arg, iso) == old(Rest(true, 0, arg, iso))
        decreases |table.templates| - i, ok
      {
        ok, found, i := DoFound(i, found.value, arg, iso);
      }
    }

    /** `process_gopt`: every matching template, or keep the argument. */
    method DoGopt(arg: string, iso: bool) returns (ok: bool)
      modifies this
      ensures After(ok) == ProcessGopt(table, argv, old(State()), arg, iso)
    {
      var found := Find(0, arg);
      match found {
        case None =>
          CallProc(arg, iso);
          return true;
        case Some(first) =>
          ok := DoMatches(first, arg, iso);
      }
    }

    /** `process_option_group`: cut at the commas and process each piece. */
    method DoGroup(group: string) returns (ok: bool)
      modifies this
      ensures After(ok) == ProcessAll(table, argv, old(State()), Split(group))
    {
      var rest := group;
      ghost var end := ProcessAll(table, argv, State(), Split(group));
      while true
        invariant ProcessAll(table, argv, State(), Split(rest)) == end
        decreases |rest|
      {
        var comma := StrChr(rest, ',');
        SplitStep(table, argv, State(), rest);
        var piece := if comma.Some? then rest[..comma.value] else rest;
        ok := DoGopt(piece, true);
        if !ok || comma.None? {
          return;
        }
        rest := rest[comma.value + 1..];
      }
    }

    /** The `-o` branch of `process_one`: the group is attached or in the next argument. */
    method DoDashO(arg: string) returns (ok: bool)
      requires nonopt == 0 && |arg| > 1 && arg[0] == '-' && arg[1] == 'o'
      modifies this
      ensures After(ok) == ProcessOne(table, argv, old(State()), arg)
    {
      if |arg| > 2 {
        ok := DoGroup(arg[2..]);
      } else if argctr + 1 >= |argv| {
        ok := false;
      } else {
        argctr := argctr + 1;
        assert State() == old(State()).(argctr := old(argctr) + 1);
        ok := DoGroup(argv[argctr]);
      }
    }

    /** `process_one`. */
    method DoOne(arg: string) returns (ok: bool)
      modifies this
      ensures After(ok) == ProcessOne(table, argv, old(State()), arg)
    {
      if nonopt != 0 || arg == "" || arg[0] != '-' {
        CallProc(arg, false);
        return true;
      } else if |arg| > 1 && arg[1] == 'o' {
        ok := DoDashO(arg);
      } else if arg == "--" {
        outargs := outargs + [arg];
        nonopt := |outargs|;
        return true;
      } else {
        ok := DoGopt(arg, false);
      }
    }

    /** The loop of `opt_parse`. */
    method RunAll() returns (ok: bool)
      modifies this
      ensures After(ok) == Run(table, argv, old(State()))
    {
      ghost var end := Run(table, argv, State());
      while argctr < |argv|
        invariant Run(table, argv, State()) == end
        decreases |argv| - argctr
      {
        OneGrows(table, argv, State(), argv[argctr]);
        ok := DoOne(argv[argctr]);
        if !ok {
          return;
        }
        argctr := argctr + 1;
      }
      return true;
    }

    /** `opt_parse` and `fuse_opt_parse` on a fresh context: the new argument vector. */
    method OptParse() returns (result: Option<seq<string>>)
      requires argv != [] && State() == Ctx(0, None, 0, [], vars)
      modifies this
      ensures result.Some? == Parse(table, argv, old(vars)).Some?
      ensures result.Some? ==> (result.value, vars) == Parse(table, argv, old(vars)).value
    {
      outargs := outargs + [argv[0]];
      argctr := 1;
      assert State() == Start(argv, old(vars));
      var ok := RunAll();
      if !ok {
        return None;
      }
      ghost var end := State();
      RunGrows(table, argv, Start(argv, old(vars)));
      if opts.Some? {
        InsertArg(1, "-o");
        InsertArg(2, opts.value);
      }
      if nonopt != 0 && nonopt == |outargs| {
        outargs := outargs[..|outargs| - 1];
      }
      return Some(outargs);
    }
  }

  lemma {:induction false} SplitStep(tb: Table, argv: seq<string>, ctx: Ctx, rest: string)
    ensures
      var comma := StrChr(rest, ',');
      var first := ProcessGopt(tb, argv, ctx, if comma.Some? then rest[..comma.value] else rest, true);
      ProcessAll(tb, argv, ctx, Split(rest)) ==
      if first.None? then None
      else if comma.None? then first
      else ProcessAll(tb, argv, first.value, Split(rest[comma.value + 1..]))
  {
    var comma := StrChr(rest, ',');
    if comma.Some? {
      assert Split(rest)[1..] == Split(rest[comma.value + 1..]);
    } else {
      assert Split(rest)[1..] == [];
    }
  }
}
