/** The values that matched options give to the variables of their templates. */
module FuseOptValues {
  import opened Wrappers
  import opened FuseOpt

  predicate SetsByEquals(t: Template) {
    t.offset.Some? && (Separator(t.text).Some? ==> t.text[Separator(t.text).value] == '=')
  }

  /** Every template sets a variable, and none takes its parameter from the next argument. */
  predicate SettingTable(tb: Table) {
    forall i :: 0 <= i < |tb.templates| ==> SetsByEquals(tb.templates[i])
  }

  // ---------------------------------------------------------------- one template

  /** The value that the option `hit` gives to the variable of a template, if its conversion accepts
      the parameter. */
  function Setting(tb: Table, t: Template, hit: string): Option<Value> {
    match Separator(t.text)
    case None => Some(Number(t.value))
    case Some(i) =>
      var format := t.text[i + 1..];
      if i > 0 && "%" <= format && t.text[..i + 1] <= hit then
        if "%s" <= format then Some(Text(hit[i + 1..])) else tb.scan(format, hit[i + 1..])
      else Some(Number(t.value))
  }

  /** A conversion gets what stands behind the equals sign: `%s` stores it, any other one scans it. */
  lemma ParameterIsSet(tb: Table, t: Template, name: string, format: string, v: string)
    requires name != "" && '=' !in name && t.text == name + "=" + format
    ensures format == "%s" ==> Setting(tb, t, name + "=" + v) == Some(Text(v))
    ensures "%" <= format && !("%s" <= format) ==> Setting(tb, t, name + "=" + v) == tb.scan(format, v)
    ensures format == "" ==> Setting(tb, t, name + "=" + v) == Some(Number(t.value))
  {
    var hit := name + "=" + v;
    StrChrIs(t.text, '=', |name|);
    assert t.text[..|name| + 1] == name + "=" && t.text[|name| + 1..] == format;
    assert hit[..|name| + 1] == name + "=" && hit[|name| + 1..] == v;
  }

  /** A template without a separator gives its own number. */
  lemma FlagIsSet(tb: Table, t: Template, hit: string)
    requires '=' !in t.text && ' ' !in t.text
    ensures Setting(tb, t, hit) == Some(Number(t.value))
  {
  }

  /** The context with other variables, if there are any. */
  function WithVars(ctx: Ctx, vars: Option<map<nat, Value>>): Option<Ctx> {
    match vars case None => None case Some(vars) => Some(ctx.(vars := vars))
  }

  function Stored(vars: map<nat, Value>, at: nat, v: Option<Value>): Option<map<nat, Value>> {
    match v case None => None case Some(v) => Some(vars[at := v])
  }

  /** Processing a match stores the value, and changes nothing else. */
  lemma MatchSets(tb: Table, argv: seq<string>, ctx: Ctx, t: Template, arg: string, iso: bool)
    requires SetsByEquals(t) && MatchTemplate(t.text, arg).Some?
    ensures ProcessMatch(tb, argv, ctx, t, MatchTemplate(t.text, arg).value, arg, iso) ==
            WithVars(ctx, Stored(ctx.vars, t.offset.value, Setting(tb, t, arg)))
  {
    var sep := MatchTemplate(t.text, arg).value;
    if sep > 0 {
      assert t.text[..sep + 1] == arg[..sep + 1];
    } else if Separator(t.text).Some? && Separator(t.text).value > 0 {
      var i := Separator(t.text).value;
      assert t.text == arg;
      assert t.text[..i + 1] <= arg;
    }
  }

  /** A template `name %s` gets what is attached to the name, or else the next argument, which it
      consumes. */
  lemma SpaceIsSet(tb: Table, argv: seq<string>, ctx: Ctx, t: Template, name: string, v: string, iso: bool)
    requires name != "" && t.offset.Some? && t.text == name + " %s"
    ensures v != "" ==> ProcessMatch(tb, argv, ctx, t, |name|, name + v, iso) ==
                        Some(ctx.(vars := ctx.vars[t.offset.value := Text(v)]))
    ensures
      var next := ctx.argctr + 1;
      ProcessMatch(tb, argv, ctx, t, |name|, name, iso) ==
      if next >= |argv| then None
      else Some(ctx.(argctr := next, vars := ctx.vars[t.offset.value := Text(argv[next])]))
  {
    assert t.text[|name|] == ' ' && t.text[|name| + 1..] == "%s";
    assert (name + v)[|name|..] == v;
    if ctx.argctr + 1 < |argv| {
      var arg := name[..|name|] + argv[ctx.argctr + 1];
      assert arg[|name|..] == argv[ctx.argctr + 1];
    }
  }

  /** An option whose template has no variable stays in the arguments as it was given. */
  lemma KeyIsKept(tb: Table, argv: seq<string>, ctx: Ctx, t: Template, arg: string)
    requires t.offset.None? && MatchTemplate(t.text, arg).Some?
    requires Separator(t.text).Some? ==> t.text[Separator(t.text).value] == '='
    ensures
      var next := ProcessMatch(tb, argv, ctx, t, MatchTemplate(t.text, arg).value, arg, false);
      next == Some(ctx.(outargs := ctx.outargs + [arg]))
    ensures
      var next := ProcessMatch(tb, argv, ctx, t, MatchTemplate(t.text, arg).value, arg, true);
      next == Some(ctx.(opts := Some(if ctx.opts.Some? then ctx.opts.value + "," + arg else arg)))
  {
  }

  // ---------------------------------------------------------------- all templates

  /** Every template from `i` on that takes the option stores its value, in order. */
  function ApplyFrom(tb: Table, vars: map<nat, Value>, hit: string, i: nat): Option<map<nat, Value>>
    requires SettingTable(tb) && i <= |tb.templates|
    decreases |tb.templates| - i
  {
    if i == |tb.templates| then Some(vars)
    else
      var t := tb.templates[i];
      if MatchTemplate(t.text, hit).None? then ApplyFrom(tb, vars, hit, i + 1)
      else match Stored(vars, t.offset.value, Setting(tb, t, hit))
           case None => None
           case Some(vars') => ApplyFrom(tb, vars', hit, i + 1)
  }

  function ApplyAll(tb: Table, vars: map<nat, Value>, hits: seq<string>): Option<map<nat, Value>>
    requires SettingTable(tb)
    decreases |hits|
  {
    if hits == [] then Some(vars)
    else match ApplyFrom(tb, vars, hits[0], 0)
         case None => None
         case Some(vars') => ApplyAll(tb, vars', hits[1..])
  }

  lemma {:induction false} ApplyAllAppend(tb: Table, vars: map<nat, Value>, a: seq<string>, b: seq<string>)
    requires SettingTable(tb)
    ensures ApplyAll(tb, vars, a + b) ==
            match ApplyAll(tb, vars, a) case None => None case Some(vars') => ApplyAll(tb, vars', b)
    decreases |a|
  {
    if a == [] {
      assert a + b == b;
    } else {
      assert (a + b)[0] == a[0] && (a + b)[1..] == a[1..] + b;
      var next := ApplyFrom(tb, vars, a[0], 0);
      if next.Some? { ApplyAllAppend(tb, next.value, a[1..], b); }
    }
  }

  lemma MatchesSetOne(tb: Table, argv: seq<string>, ctx: Ctx, i: nat, arg: string, iso: bool)
    requires SettingTable(tb) && i < |tb.templates| && MatchTemplate(tb.templates[i].text, arg).Some?
    ensures
      var t := tb.templates[i];
      var next := WithVars(ctx, Stored(ctx.vars, t.offset.value, Setting(tb, t, arg)));
      ProcessMatches(tb, argv, ctx, i, arg, iso) ==
      if next.None? then None else ProcessMatches(tb, argv, next.value, i + 1, arg, iso)
  {
    MatchSets(tb, argv, ctx, tb.templates[i], arg, iso);
    assert FindOpt(tb, i, arg) == Some((i, MatchTemplate(tb.templates[i].text, arg).value));
    MatchesStep(tb, argv, ctx, i, arg, iso);
  }

  lemma {:induction false} MatchesSet(tb: Table, argv: seq<string>, ctx: Ctx, i: nat, arg: string, iso: bool)
    requires SettingTable(tb) && i <= |tb.templates|
    ensures ProcessMatches(tb, argv, ctx, i, arg, iso) == WithVars(ctx, ApplyFrom(tb, ctx.vars, arg, i))
    decreases |tb.templates| - i
  {
    if i < |tb.templates| {
      var t := tb.templates[i];
      if MatchTemplate(t.text, arg).None? {
        MatchesSkip(tb, argv, ctx, i, arg, iso);
        MatchesSet(tb, argv, ctx, i + 1, arg, iso);
      } else {
        MatchesSetOne(tb, argv, ctx, i, arg, iso);
        var next := Stored(ctx.vars, t.offset.value, Setting(tb, t, arg));
        if next.Some? { MatchesSet(tb, argv, ctx.(vars := next.value), i + 1, arg, iso); }
      }
    }
  }

  // ---------------------------------------------------------------- one variable

  /** Template `i` takes the option and sets the variable at offset `o`. */
  predicate SetsAt(tb: Table, hit: string, i: nat, o: nat)
    requires i < |tb.templates|
  {
    tb.templates[i].offset == Some(o) && MatchTemplate(tb.templates[i].text, hit).Some?
  }

  /** What the last template from `i` on that takes the option for offset `o` sets. */
  function HitSetting(tb: Table, hit: string, i: nat, o: nat): Option<Value>
    requires i <= |tb.templates|
    decreases |tb.templates| - i
  {
    if i == |tb.templates| then None
    else
      var later := HitSetting(tb, hit, i + 1, o);
      if later.Some? then later
      else if SetsAt(tb, hit, i, o) then Setting(tb, tb.templates[i], hit) else None
  }

  /** What the last option with a template for offset `o` sets. */
  function LastSetting(tb: Table, hits: seq<string>, o: nat): Option<Value> {
    if hits == [] then None
    else
      var later := LastSetting(tb, hits[1..], o);
      if later.Some? then later else HitSetting(tb, hits[0], 0, o)
  }

  /** The value of the variable at offset `o`. */
  function At(vars: map<nat, Value>, o: nat): Option<Value> {
    if o in vars then Some(vars[o]) else None
  }

  function OrElse(v: Option<Value>, before: Option<Value>): Option<Value> {
    if v.Some? then v else before
  }

  lemma {:induction false} ApplyFromSets(tb: Table, vars: map<nat, Value>, hit: string, i: nat, o: nat)
    requires SettingTable(tb) && i <= |tb.templates| && ApplyFrom(tb, vars, hit, i).Some?
    ensures At(ApplyFrom(tb, vars, hit, i).value, o) == OrElse(HitSetting(tb, hit, i, o), At(vars, o))
    decreases |tb.templates| - i
  {
    if i < |tb.templates| {
      var t := tb.templates[i];
      if MatchTemplate(t.text, hit).None? {
        ApplyFromSets(tb, vars, hit, i + 1, o);
      } else {
        ApplyFromSets(tb, vars[t.offset.value := Setting(tb, t, hit).value], hit, i + 1, o);
      }
    }
  }

  lemma {:induction false} ApplyAllSets(tb: Table, vars: map<nat, Value>, hits: seq<string>, o: nat)
    requires SettingTable(tb) && ApplyAll(tb, vars, hits).Some?
    ensures At(ApplyAll(tb, vars, hits).value, o) == OrElse(LastSetting(tb, hits, o), At(vars, o))
    decreases |hits|
  {
    if hits != [] {
      ApplyFromSets(tb, vars, hits[0], 0, o);
      ApplyAllSets(tb, ApplyFrom(tb, vars, hits[0], 0).value, hits[1..], o);
    }
  }

  /** Every template from `i` on that takes the option accepts its parameter. */
  predicate AcceptsFrom(tb: Table, hit: string, i: nat) {
    forall j :: i <= j < |tb.templates| && MatchTemplate(tb.templates[j].text, hit).Some? ==>
      Setting(tb, tb.templates[j], hit).Some?
  }

  predicate Accepts(tb: Table, hit: string) {
    AcceptsFrom(tb, hit, 0)
  }

  lemma {:induction false} AppliesExactlyWhen(tb: Table, vars: map<nat, Value>, hit: string, i: nat)
    requires SettingTable(tb) && i <= |tb.templates|
    ensures ApplyFrom(tb, vars, hit, i).Some? <==> AcceptsFrom(tb, hit, i)
    decreases |tb.templates| - i
  {
    if i < |tb.templates| {
      var t := tb.templates[i];
      if MatchTemplate(t.text, hit).None? {
        AppliesExactlyWhen(tb, vars, hit, i + 1);
      } else if Setting(tb, t, hit).Some? {
        AppliesExactlyWhen(tb, vars[t.offset.value := Setting(tb, t, hit).value], hit, i + 1);
      }
    }
  }

  lemma {:induction false} AllApplyExactlyWhen(tb: Table, vars: map<nat, Value>, hits: seq<string>)
    requires SettingTable(tb)
    ensures ApplyAll(tb, vars, hits).Some? <==> forall h :: h in hits ==> Accepts(tb, h)
    decreases |hits|
  {
    if hits != [] {
      AppliesExactlyWhen(tb, vars, hits[0], 0);
      assert forall h :: h in hits <==> h == hits[0] || h in hits[1..];
      var next := ApplyFrom(tb, vars, hits[0], 0);
      if next.Some? {
        AllApplyExactlyWhen(tb, next.value, hits[1..]);
      } else {
        assert !Accepts(tb, hits[0]) && hits[0] in hits;
      }
    }
  }

  /** Option `j` and template `i` are the last that set offset `o`. */
  predicate LastAt(tb: Table, hits: seq<string>, j: nat, i: nat, o: nat) {
    && j < |hits| && i < |tb.templates| && SetsAt(tb, hits[j], i, o)
    && forall j', i' :: j <= j' < |hits| && 0 <= i' < |tb.templates| && SetsAt(tb, hits[j'], i', o) ==>
         j' == j && i' <= i
  }

  lemma {:induction false} LastSettingIs(tb: Table, hits: seq<string>, j: nat, i: nat, o: nat)
    requires SettingTable(tb) && LastAt(tb, hits, j, i, o) && Setting(tb, tb.templates[i], hits[j]).Some?
    ensures LastSetting(tb, hits, o) == Setting(tb, tb.templates[i], hits[j])
    decreases |hits|
  {
    var rest := hits[1..];
    assert forall k :: 0 <= k < |rest| ==> rest[k] == hits[k + 1];
    if j > 0 {
      LastSettingIs(tb, rest, j - 1, i, o);
    } else {
      NothingSet(tb, rest, o);
      HitSettingIs(tb, hits[0], 0, i, o);
    }
  }

  lemma {:induction false} HitSettingIs(tb: Table, hit: string, from: nat, i: nat, o: nat)
    requires from <= i < |tb.templates| && SetsAt(tb, hit, i, o) && Setting(tb, tb.templates[i], hit).Some?
    requires forall i' :: i < i' < |tb.templates| ==> !SetsAt(tb, hit, i', o)
    ensures HitSetting(tb, hit, from, o) == Setting(tb, tb.templates[i], hit)
    decreases |tb.templates| - from
  {
    if from < i { HitSettingIs(tb, hit, from + 1, i, o); } else { NoHitSetting(tb, hit, i + 1, o); }
  }

  lemma {:induction false} NoHitSetting(tb: Table, hit: string, from: nat, o: nat)
    requires from <= |tb.templates| && forall i :: from <= i < |tb.templates| ==> !SetsAt(tb, hit, i, o)
    ensures HitSetting(tb, hit, from, o) == None
    decreases |tb.templates| - from
  {
    if from < |tb.templates| { NoHitSetting(tb, hit, from + 1, o); }
  }

  lemma {:induction false} NothingSet(tb: Table, hits: seq<string>, o: nat)
    requires forall j, i :: 0 <= j < |hits| && 0 <= i < |tb.templates| ==> !SetsAt(tb, hits[j], i, o)
    ensures LastSetting(tb, hits, o) == None
    decreases |hits|
  {
    if hits != [] {
      assert forall k :: 0 <= k < |hits[1..]| ==> hits[1..][k] == hits[k + 1];
      NothingSet(tb, hits[1..], o);
      NoHitSetting(tb, hits[0], 0, o);
    }
  }
}
