/** The option parser of compat/fuse_opt.c, with no processing callback (`proc` NULL). */
module FuseOpt {
  import opened Wrappers

  datatype Value = Number(n: int) | Text(s: string)

  /** A template sets the variable at its offset; without one it is kept (FUSE_OPT_KEY). */
  datatype Template = Template(text: string, offset: Option<nat>, value: int)

  /** `scan` stands for `sscanf(param, format, var)`. */
  datatype Table = Table(templates: seq<Template>, scan: (string, string) -> Option<Value>)

  /** The fields of `fuse_opt_context` that change, and the variables. */
  datatype Ctx = Ctx(argctr: nat, opts: Option<string>, nonopt: nat, outargs: seq<string>, vars: map<nat, Value>)

  // ---------------------------------------------------------------- matching

  /** `strchr`. */
  function StrChr(s: string, c: char): (r: Option<nat>)
    ensures r.Some? ==> r.value < |s| && s[r.value] == c && c !in s[..r.value]
    ensures r.None? ==> c !in s
  {
    if s == "" then None
    else if s[0] == c then Some(0)
    else
      var r := StrChr(s[1..], c);
      assert s == [s[0]] + s[1..];
      match r
      case None => None
      case Some(i) =>
        assert s[..i + 1] == [s[0]] + s[1..][..i];
        Some(i + 1)
  }

  function Separator(t: string): Option<nat> {
    if StrChr(t, '=').Some? then StrChr(t, '=') else StrChr(t, ' ')
  }

  /** `match_template`: where the parameter is separated off, 0 for an exact match. */
  function MatchTemplate(t: string, arg: string): (sep: Option<nat>)
    ensures sep.Some? && sep.value > 0 ==> sep.value < |t| && sep.value <= |arg| &&
                                           (t[sep.value] == '=' ==> sep.value < |arg|)
  {
    var sep := Separator(t);
    if sep.Some? && (sep.value + 1 == |t| || t[sep.value + 1] == '%') &&
       Prefixed(t, sep.value + (if t[sep.value] == '=' then 1 else 0), arg) then sep
    else if t == arg then Some(0) else None
  }

  lemma StrChrIs(s: string, c: char, i: nat)
    requires i < |s| && s[i] == c && forall j :: 0 <= j < i ==> s[j] != c
    ensures StrChr(s, c) == Some(i)
  {
    assert forall k: nat :: i < k <= |s| ==> s[i] in s[..k];
  }

  lemma SeparatorIs(name: string, c: char, format: string)
    requires c == '=' || (c == ' ' && '=' !in format)
    requires '=' !in name && ' ' !in name
    ensures Separator(name + [c] + format) == Some(|name|)
  {
    var t := name + [c] + format;
    StrChrIs(t, c, |name|);
    if c == ' ' { assert '=' !in t; }
  }

  /** A template `name=` with or without a conversion takes exactly the arguments that begin with
      `name=`. */
  lemma MatchesParameterExactlyWhen(name: string, format: string, arg: string)
    requires '=' !in name && ' ' !in name && (format == "" || format[0] == '%')
    ensures MatchTemplate(name + "=" + format, arg) == if name + "=" <= arg then Some(|name|) else None
  {
    var t := name + "=" + format;
    SeparatorIs(name, '=', format);
    assert t[|name|] == '=' && t[..|name| + 1] == name + "=" && t[|name| + 1..] == format;
    assert t == arg ==> name + "=" <= arg;
  }

  /** A template `name `, with a space, takes exactly the arguments that begin with `name`. */
  lemma MatchesSpaceExactlyWhen(name: string, format: string, arg: string)
    requires '=' !in name && ' ' !in name && '=' !in format && (format == "" || format[0] == '%')
    ensures MatchTemplate(name + " " + format, arg) == if name <= arg then Some(|name|) else None
  {
    var t := name + " " + format;
    SeparatorIs(name, ' ', format);
    assert t[|name|] == ' ' && t[..|name|] == name && t[|name| + 1..] == format;
    assert t == arg ==> name <= arg;
  }

  /** A template without a separator takes exactly itself. */
  lemma MatchesItselfExactlyWhen(t: string, arg: string)
    requires '=' !in t && ' ' !in t
    ensures MatchTemplate(t, arg) == if t == arg then Some(0) else None
  {
  }

  predicate Prefixed(t: string, n: nat, arg: string)
    requires n <= |t|
  {
    |arg| >= n && arg[..n] == t[..n]
  }

  /** `find_opt` from template `i` on: the template and the separator. */
  function FindOpt(tb: Table, i: nat, arg: string): (r: Option<(nat, nat)>)
    requires i <= |tb.templates|
    ensures r.Some? ==> i <= r.value.0 < |tb.templates| &&
                        MatchTemplate(tb.templates[r.value.0].text, arg) == Some(r.value.1)
    decreases |tb.templates| - i
  {
    if i == |tb.templates| then None
    else match MatchTemplate(tb.templates[i].text, arg)
         case Some(sep) => Some((i, sep))
         case None => FindOpt(tb, i + 1, arg)
  }

  /** It is the first template that matches, and there is none exactly when no template matches. */
  lemma {:induction false} FindsTheFirst(tb: Table, i: nat, arg: string)
    requires i <= |tb.templates|
    ensures
      var found := FindOpt(tb, i, arg);
      forall j :: i <= j < (if found.Some? then found.value.0 else |tb.templates|) ==>
        MatchTemplate(tb.templates[j].text, arg).None?
    ensures FindOpt(tb, i, arg).None? <==>
              forall j :: i <= j < |tb.templates| ==> MatchTemplate(tb.templates[j].text, arg).None?
    decreases |tb.templates| - i
  {
    if i < |tb.templates| { FindsTheFirst(tb, i + 1, arg); }
  }

  // ---------------------------------------------------------------- one option

  function AddOpt(opts: Option<string>, opt: string): Option<string> {
    match opts case None => Some(opt) case Some(s) => Some(s + "," + opt)
  }

  /** `call_proc` without a callback: the argument is kept. */
  function Keep(ctx: Ctx, arg: string, iso: bool): Ctx {
    if iso then ctx.(opts := AddOpt(ctx.opts, arg)) else ctx.(outargs := ctx.outargs + [arg])
  }

  /** `process_opt`. */
  function ProcessOpt(tb: Table, ctx: Ctx, t: Template, sep: nat, arg: string, iso: bool): Option<Ctx>
    requires sep > 0 ==> sep < |t.text| && sep <= |arg| && (t.text[sep] == '=' ==> sep < |arg|)
  {
    match t.offset
    case None => Some(Keep(ctx, arg, iso))
    case Some(offset) =>
      if sep > 0 && sep + 1 < |t.text| then
        var param := if t.text[sep] == '=' then arg[sep + 1..] else arg[sep..];
        var format := t.text[sep + 1..];
        if |format| > 1 && format[1] == 's' then Some(ctx.(vars := ctx.vars[offset := Text(param)]))
        else match tb.scan(format, param)
             case None => None
             case Some(v) => Some(ctx.(vars := ctx.vars[offset := v]))
      else Some(ctx.(vars := ctx.vars[offset := Number(t.value)]))
  }

  /** One match inside `process_gopt`; a template with a space takes the next argument. */
  function ProcessMatch(tb: Table, argv: seq<string>, ctx: Ctx, t: Template, sep: nat, arg: string,
      iso: bool): Option<Ctx>
    requires sep > 0 ==> sep < |t.text| && sep <= |arg| && (t.text[sep] == '=' ==> sep < |arg|)
  {
    if sep > 0 && t.text[sep] == ' ' && sep == |arg| then
      if ctx.argctr + 1 >= |argv| then None
      else ProcessOpt(tb, ctx.(argctr := ctx.argctr + 1), t, sep, arg[..sep] + argv[ctx.argctr + 1], iso)
    else ProcessOpt(tb, ctx, t, sep, arg, iso)
  }

  /** All matches from template `i` on. */
  function ProcessMatches(tb: Table, argv: seq<string>, ctx: Ctx, i: nat, arg: string, iso: bool): Option<Ctx>
    requires i <= |tb.templates|
    decreases |tb.templates| - i
  {
    match FindOpt(tb, i, arg)
    case None => Some(ctx)
    case Some((j, sep)) =>
      match ProcessMatch(tb, argv, ctx, tb.templates[j], sep, arg, iso)
      case None => None
      case Some(ctx') => ProcessMatches(tb, argv, ctx', j + 1, arg, iso)
  }

  lemma {:induction false} MatchesStep(tb: Table, argv: seq<string>, ctx: Ctx, i: nat, arg: string, iso: bool)
    requires i <= |tb.templates| && FindOpt(tb, i, arg).Some?
    ensures
      var (j, sep) := FindOpt(tb, i, arg).value;
      var next := ProcessMatch(tb, argv, ctx, tb.templates[j], sep, arg, iso);
      ProcessMatches(tb, argv, ctx, i, arg, iso) ==
      if next.None? then None else ProcessMatches(tb, argv, next.value, j + 1, arg, iso)
  {
  }

  lemma {:induction false} MatchesSkip(tb: Table, argv: seq<string>, ctx: Ctx, i: nat, arg: string, iso: bool)
    requires i < |tb.templates| && MatchTemplate(tb.templates[i].text, arg).None?
    ensures ProcessMatches(tb, argv, ctx, i, arg, iso) == ProcessMatches(tb, argv, ctx, i + 1, arg, iso)
  {
  }

  predicate Matches(tb: Table, arg: string) {
    FindOpt(tb, 0, arg).Some?
  }

  /** `process_gopt`. */
  function ProcessGopt(tb: Table, argv: seq<string>, ctx: Ctx, arg: string, iso: bool): Option<Ctx> {
    if Matches(tb, arg) then ProcessMatches(tb, argv, ctx, 0, arg, iso) else Some(Keep(ctx, arg, iso))
  }

  /** The pieces between the commas. */
  function Split(opts: string): (r: seq<string>)
    ensures r != [] && forall o :: o in r ==> ',' !in o
    decreases |opts|
  {
    match StrChr(opts, ',')
    case None => [opts]
    case Some(i) => [opts[..i]] + Split(opts[i + 1..])
  }

  /** Every option of a group in turn. */
  function ProcessAll(tb: Table, argv: seq<string>, ctx: Ctx, opts: seq<string>): Option<Ctx>
    decreases |opts|
  {
    if opts == [] then Some(ctx)
    else match ProcessGopt(tb, argv, ctx, opts[0], true)
         case None => None
         case Some(ctx') => ProcessAll(tb, argv, ctx', opts[1..])
  }

  /** `process_one`. */
  function ProcessOne(tb: Table, argv: seq<string>, ctx: Ctx, arg: string): Option<Ctx> {
    if ctx.nonopt != 0 || arg == "" || arg[0] != '-' then Some(Keep(ctx, arg, false))
    else if |arg| > 1 && arg[1] == 'o' then
      if |arg| > 2 then ProcessAll(tb, argv, ctx, Split(arg[2..]))
      else if ctx.argctr + 1 >= |argv| then None
      else ProcessAll(tb, argv, ctx.(argctr := ctx.argctr + 1), Split(argv[ctx.argctr + 1]))
    else if arg == "--" then Some(ctx.(outargs := ctx.outargs + [arg], nonopt := |ctx.outargs| + 1))
    else ProcessGopt(tb, argv, ctx, arg, false)
  }

  /** Options consume arguments and never give one back, and nothing that was kept is lost. */
  predicate Grown(before: Ctx, after: Ctx) {
    before.argctr <= after.argctr && |before.outargs| <= |after.outargs|
  }

  lemma MatchGrows(tb: Table, argv: seq<string>, ctx: Ctx, t: Template, sep: nat, arg: string, iso: bool)
    requires sep > 0 ==> sep < |t.text| && sep <= |arg| && (t.text[sep] == '=' ==> sep < |arg|)
    ensures
      var r := ProcessMatch(tb, argv, ctx, t, sep, arg, iso);
      r.Some? ==> Grown(ctx, r.value)
  {
  }

  lemma {:induction false} MatchesGrow(tb: Table, argv: seq<string>, ctx: Ctx, i: nat, arg: string, iso: bool)
    requires i <= |tb.templates| && ProcessMatches(tb, argv, ctx, i, arg, iso).Some?
    ensures Grown(ctx, ProcessMatches(tb, argv, ctx, i, arg, iso).value)
    decreases |tb.templates| - i
  {
    var found := FindOpt(tb, i, arg);
    if found.Some? {
      var t, sep := tb.templates[found.value.0], found.value.1;
      MatchGrows(tb, argv, ctx, t, sep, arg, iso);
      MatchesGrow(tb, argv, ProcessMatch(tb, argv, ctx, t, sep, arg, iso).value, found.value.0 + 1, arg, iso);
    }
  }

  lemma {:induction false} AllGrow(tb: Table, argv: seq<string>, ctx: Ctx, opts: seq<string>)
    requires ProcessAll(tb, argv, ctx, opts).Some?
    ensures Grown(ctx, ProcessAll(tb, argv, ctx, opts).value)
    decreases |opts|
  {
    if opts != [] {
      if Matches(tb, opts[0]) { MatchesGrow(tb, argv, ctx, 0, opts[0], true); }
      AllGrow(tb, argv, ProcessGopt(tb, argv, ctx, opts[0], true).value, opts[1..]);
    }
  }

  lemma OneGrows(tb: Table, argv: seq<string>, ctx: Ctx, arg: string)
    ensures ProcessOne(tb, argv, ctx, arg).Some? ==> Grown(ctx, ProcessOne(tb, argv, ctx, arg).value)
  {
    if ProcessOne(tb, argv, ctx, arg).Some? {
      if ctx.nonopt != 0 || arg == "" || arg[0] != '-' {
      } else if |arg| > 1 && arg[1] == 'o' {
        if |arg| > 2 {
          AllGrow(tb, argv, ctx, Split(arg[2..]));
        } else {
          AllGrow(tb, argv, ctx.(argctr := ctx.argctr + 1), Split(argv[ctx.argctr + 1]));
        }
      } else if arg != "--" && Matches(tb, arg) {
        MatchesGrow(tb, argv, ctx, 0, arg, false);
      }
    }
  }

  // ---------------------------------------------------------------- the whole vector

  /** The loop of `opt_parse`. */
  function Run(tb: Table, argv: seq<string>, ctx: Ctx): Option<Ctx>
    decreases |argv| - ctx.argctr
  {
    if ctx.argctr >= |argv| then Some(ctx)
    else match ProcessOne(tb, argv, ctx, argv[ctx.argctr])
         case None => None
         case Some(ctx') =>
           OneGrows(tb, argv, ctx, argv[ctx.argctr]);
           Run(tb, argv, ctx'.(argctr := ctx'.argctr + 1))
  }

  lemma {:induction false} RunGrows(tb: Table, argv: seq<string>, ctx: Ctx)
    ensures Run(tb, argv, ctx).Some? ==> Grown(ctx, Run(tb, argv, ctx).value)
    decreases |argv| - ctx.argctr
  {
    if ctx.argctr < |argv| {
      OneGrows(tb, argv, ctx, argv[ctx.argctr]);
      match ProcessOne(tb, argv, ctx, argv[ctx.argctr])
      case None =>
      case Some(ctx') => RunGrows(tb, argv, ctx'.(argctr := ctx'.argctr + 1));
    }
  }

  function InsertAt(args: seq<string>, pos: nat, arg: string): seq<string>
    requires pos <= |args|
  {
    args[..pos] + [arg] + args[pos..]
  }

  /** The end of `opt_parse`: insert the gathered options, drop a `--` with nothing behind it. */
  function Assembled(ctx: Ctx): seq<string> {
    var args := if ctx.opts.Some? && |ctx.outargs| >= 1
                then InsertAt(InsertAt(ctx.outargs, 1, "-o"), 2, ctx.opts.value) else ctx.outargs;
    if ctx.nonopt != 0 && ctx.nonopt == |args| then args[..|args| - 1] else args
  }

  function Start(argv: seq<string>, vars: map<nat, Value>): Ctx
    requires argv != []
  {
    Ctx(1, None, 0, [argv[0]], vars)
  }

  /** `fuse_opt_parse`: the new vector and the variables. */
  function Parse(tb: Table, argv: seq<string>, vars: map<nat, Value>): Option<(seq<string>, map<nat, Value>)> {
    if argv == [] then Some((argv, vars))
    else match Run(tb, argv, Start(argv, vars))
         case None => None
         case Some(end) => Some((Assembled(end), end.vars))
  }
}
