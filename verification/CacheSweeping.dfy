/** Two proxies that serve the same requests, one that sweeps its table and one that never does. */
module CacheSweeping {
  import opened Wrappers
  import opened Cache
  import opened CacheTransparency
  import opened CacheCleaning

  // ---------------------------------------------------------------- what serving a request stores

  function EffectOp(path: Path, filler: string -> bool, e: Effect): seq<Op> {
    match e
    case SetAttr(p, stat, at) => [PutAttr(p, Some(stat), at)]
    case SetLink(p, text, at) => [PutLink(p, text, at)]
    case Fill(name, stat, at) => if filler(name) then [PutAttr(ChildKey(path, name), Some(stat), at)] else []
  }

  function EffectOps(path: Path, filler: string -> bool, effects: seq<Effect>): seq<Op> {
    if effects == [] then [] else EffectOp(path, filler, effects[0]) + EffectOps(path, filler, effects[1..])
  }

  function FillerOf(r: Request): string -> bool {
    if r.Getdir? then r.filler else NoFiller
  }

  /** The answer as it is stored. */
  function AnswerOps(srv: Server, r: Request): seq<Op>
    requires r.Readlink? ==> r.size > 0
  {
    match r
    case Getattr(path, _, _, add) =>
      (match srv.attr(path)
       case Found(stat) => [PutAttr(path, Some(stat), add)]
       case NoEntry => [PutAttr(path, None, add)]
       case AttrError(_) => [])
    case Readlink(path, size, _, _, add) =>
      (match srv.link(path)
       case LinkText(text) => [PutLink(path, Take(text, size - 1), add)]
       case LinkError(_) => [])
    case Getdir(path, filler, _, _, add) =>
      if srv.dir(path).err == 0 then [PutDir(path, Accepted(filler, srv.dir(path).entries), add)] else []
    case Change(m, err, _) => if err == 0 then [Purge(Affected(m))] else []
  }

  /** The table has the answer. */
  predicate Hit(s: State, r: Request) {
    match r
    case Getattr(path, at, _, _) => CachedAttr(s, path, at).Some?
    case Readlink(path, _, at, _, _) => CachedLink(s, path, at).Some?
    case Getdir(path, _, at, _, _) => CachedDir(s, path, at).Some?
    case Change(_, _, _) => false
  }

  /** Nothing when the table has the answer; else what the server reports on the way and the answer. */
  function Stores(s: State, srv: Server, r: Request): seq<Op>
    requires r.Readlink? ==> r.size > 0
  {
    if r.Change? then AnswerOps(srv, r)
    else if Hit(s, r) then []
    else EffectOps(r.path, FillerOf(r), r.effects) + AnswerOps(srv, r)
  }

  lemma {:induction false} SweptAppend(cfg: Config, s: State, first: seq<Op>, second: seq<Op>)
    ensures SweptRun(cfg, s, first + second) == SweptRun(cfg, SweptRun(cfg, s, first), second)
    decreases |first|
  {
    if first == [] {
      assert first + second == second;
    } else {
      assert (first + second)[0] == first[0] && (first + second)[1..] == first[1..] + second;
      SweptAppend(cfg, Swept(cfg, s, first[0]), first[1..], second);
    }
  }

  lemma SweptOne(cfg: Config, s: State, op: Op)
    ensures SweptRun(cfg, s, [op]) == Swept(cfg, s, op)
  {
    assert [op][1..] == [];
  }

  lemma EffectIsOps(cfg: Config, s: State, path: Path, filler: string -> bool, e: Effect)
    ensures SweptRun(cfg, s, EffectOp(path, filler, e)) == AfterEffect(cfg, s, path, filler, e)
  {
    match e
    case SetAttr(p, stat, at) => SweptOne(cfg, s, PutAttr(p, Some(stat), at));
    case SetLink(p, text, at) =>
      SweptOne(cfg, s, PutLink(p, text, at));
      SweptIsAdding(cfg, s, p, None, [], text, |text| + 1, at);
      assert Take(text, |text|) == text;
    case Fill(name, stat, at) =>
      if filler(name) { SweptOne(cfg, s, PutAttr(ChildKey(path, name), Some(stat), at)); }
  }

  lemma {:induction false} EffectsAreOps(cfg: Config, s: State, path: Path, filler: string -> bool,
      effects: seq<Effect>)
    ensures SweptRun(cfg, s, EffectOps(path, filler, effects)) == AfterEffects(cfg, s, path, filler, effects)
    decreases |effects|
  {
    if effects != [] {
      SweptAppend(cfg, s, EffectOp(path, filler, effects[0]), EffectOps(path, filler, effects[1..]));
      EffectIsOps(cfg, s, path, filler, effects[0]);
      EffectsAreOps(cfg, AfterEffect(cfg, s, path, filler, effects[0]), path, filler, effects[1..]);
    }
  }

  lemma AttrSweeps(cfg: Config, s: State, srv: Server, r: Request)
    requires r.Getattr? && !Hit(s, r)
    ensures Cached(cfg, s, srv, r).0 ==
            SweptRun(cfg, AfterEffects(cfg, s, r.path, NoFiller, r.effects), AnswerOps(srv, r))
  {
    var s1 := AfterEffects(cfg, s, r.path, NoFiller, r.effects);
    match srv.attr(r.path)
    case Found(stat) => SweptOne(cfg, s1, PutAttr(r.path, Some(stat), r.add));
    case NoEntry => SweptOne(cfg, s1, PutAttr(r.path, None, r.add));
    case AttrError(_) =>
  }

  lemma LinkSweeps(cfg: Config, s: State, srv: Server, r: Request)
    requires r.Readlink? && !Hit(s, r) && r.size > 0
    ensures Cached(cfg, s, srv, r).0 ==
            SweptRun(cfg, AfterEffects(cfg, s, r.path, NoFiller, r.effects), AnswerOps(srv, r))
  {
    var s1 := AfterEffects(cfg, s, r.path, NoFiller, r.effects);
    match srv.link(r.path)
    case LinkText(text) =>
      var cut := Take(text, r.size - 1);
      SweptOne(cfg, s1, PutLink(r.path, cut, r.add));
      SweptIsAdding(cfg, s1, r.path, None, [], cut, r.size, r.add);
      assert Take(cut, r.size - 1) == cut;
    case LinkError(_) =>
  }

  lemma DirSweeps(cfg: Config, s: State, srv: Server, r: Request)
    requires r.Getdir? && !Hit(s, r)
    ensures Cached(cfg, s, srv, r).0 ==
            SweptRun(cfg, AfterEffects(cfg, s, r.path, r.filler, r.effects), AnswerOps(srv, r))
  {
    var s1 := AfterEffects(cfg, s, r.path, r.filler, r.effects);
    var reply := srv.dir(r.path);
    if reply.err == 0 { SweptOne(cfg, s1, PutDir(r.path, Accepted(r.filler, reply.entries), r.add)); }
  }

  /** The cached proxy stores exactly these operations, and sweeps after each addition. */
  lemma ServingSweeps(cfg: Config, s: State, srv: Server, r: Request)
    requires r.Readlink? ==> r.size > 0
    ensures Cached(cfg, s, srv, r).0 == SweptRun(cfg, s, Stores(s, srv, r))
  {
    if r.Change? {
      if r.err == 0 { SweptOne(cfg, s, Purge(Affected(r.m))); }
    } else if !Hit(s, r) {
      SweptAppend(cfg, s, EffectOps(r.path, FillerOf(r), r.effects), AnswerOps(srv, r));
      EffectsAreOps(cfg, s, r.path, FillerOf(r), r.effects);
      match r {
        case Getattr(_, _, _, _) => AttrSweeps(cfg, s, srv, r);
        case Readlink(_, _, _, _, _) => LinkSweeps(cfg, s, srv, r);
        case Getdir(_, _, _, _, _) => DirSweeps(cfg, s, srv, r);
      }
    }
  }

  // ---------------------------------------------------------------- the clock

  /** The clock readings of a request follow `now` and do not go back. */
  predicate InTime(r: Request, now: Time) {
    !r.Change? ==> now <= r.at && InOrder(r.effects, r.at, r.add.now) && r.add.now <= r.add.cleanNow
  }

  lemma TimelyEarlier(ops: seq<Op>, now: Time, from: Time, end: Time)
    requires now <= from && TimelyRun(ops, from, end)
    ensures TimelyRun(ops, now, end)
    decreases |ops|
  {
    if ops != [] && ops[0].Purge? { TimelyEarlier(ops[1..], now, from, end); }
  }

  lemma {:induction false} TimelyAppend(first: seq<Op>, second: seq<Op>, now: Time, mid: Time, end: Time)
    requires TimelyRun(first, now, mid) && TimelyRun(second, mid, end)
    ensures TimelyRun(first + second, now, end)
    decreases |first|
  {
    if first == [] {
      assert first + second == second;
      TimelyEarlier(second, now, mid, end);
    } else {
      assert (first + second)[0] == first[0] && (first + second)[1..] == first[1..] + second;
      TimelyAppend(first[1..], second, Clock(first[0], now), mid, end);
    }
  }

  lemma {:induction false} EffectOpsTimely(path: Path, filler: string -> bool, effects: seq<Effect>, from: Time,
      to: Time)
    requires InOrder(effects, from, to)
    ensures TimelyRun(EffectOps(path, filler, effects), from, to)
    decreases |effects|
  {
    if effects != [] {
      var at, rest := effects[0].at, EffectOps(path, filler, effects[1..]);
      EffectOpsTimely(path, filler, effects[1..], at.cleanNow, to);
      var ops := EffectOps(path, filler, effects);
      if |ops| == |rest| {
        assert ops == rest;
        TimelyEarlier(rest, from, at.cleanNow, to);
      } else {
        assert ops[1..] == rest;
      }
    }
  }

  lemma StoresTimely(s: State, srv: Server, r: Request, now: Time)
    requires InTime(r, now) && (r.Readlink? ==> r.size > 0)
    ensures TimelyRun(Stores(s, srv, r), now, After(r, now))
  {
    if !r.Change? {
      InOrderBounds(r.effects, r.at, r.add.now);
      if !Hit(s, r) {
        var effects := EffectOps(r.path, FillerOf(r), r.effects);
        EffectOpsTimely(r.path, FillerOf(r), r.effects, r.at, r.add.now);
        TimelyEarlier(effects, now, r.at, r.add.now);
        TimelyAppend(effects, AnswerOps(srv, r), now, r.add.now, r.add.cleanNow);
      }
    }
  }

  // ---------------------------------------------------------------- runs of requests

  /** The proxy that never sweeps. */
  function Hoarding(cfg: Config, t: State, srv: Server, r: Request): (State, Answer)
    requires r.Readlink? ==> r.size > 0
  {
    (UnsweptRun(cfg, t, Stores(t, srv, r)), Cached(cfg, t, srv, r).1)
  }

  predicate Readable(rs: seq<Request>) {
    forall i :: 0 <= i < |rs| && rs[i].Readlink? ==> rs[i].size > 0
  }

  function HoardingRun(cfg: Config, t: State, srv: Server, rs: seq<Request>): seq<Answer>
    requires Readable(rs)
    decreases |rs|
  {
    if rs == [] then []
    else
      var (t', answer) := Hoarding(cfg, t, srv, rs[0]);
      [answer] + HoardingRun(cfg, t', ServerAfter(srv, rs[0]), rs[1..])
  }

  predicate InTimeRun(rs: seq<Request>, now: Time)
    decreases |rs|
  {
    rs != [] ==> InTime(rs[0], now) && InTimeRun(rs[1..], After(rs[0], now))
  }

  /** Every request of the run meets the same hidden attributes in both tables. */
  predicate RequestsHideSame(cfg: Config, s: State, t: State, srv: Server, rs: seq<Request>)
    requires Readable(rs)
    decreases |rs|
  {
    rs != [] ==>
      AllHiddenSame(cfg, s, t, Stores(s, srv, rs[0])) &&
      RequestsHideSame(cfg, Cached(cfg, s, srv, rs[0]).0, Hoarding(cfg, t, srv, rs[0]).0, ServerAfter(srv, rs[0]),
          rs[1..])
  }

  lemma RequestAlike(cfg: Config, s: State, t: State, srv: Server, r: Request, now: Time)
    requires Similar(s, t, now) && InTime(r, now) && (r.Readlink? ==> r.size > 0)
    requires AllHiddenSame(cfg, s, t, Stores(s, srv, r))
    ensures Cached(cfg, s, srv, r).1 == Hoarding(cfg, t, srv, r).1
    ensures Similar(Cached(cfg, s, srv, r).0, Hoarding(cfg, t, srv, r).0, After(r, now))
  {
    if !r.Change? { SimilarAnswers(s, t, now, r.at, r.path); }
    assert Stores(s, srv, r) == Stores(t, srv, r);
    ServingSweeps(cfg, s, srv, r);
    StoresTimely(s, srv, r, now);
    RunsAreSimilar(cfg, s, t, Stores(s, srv, r), now, After(r, now));
  }

  /** Sweeping is unobservable by whole requests: from similar tables, and so from the empty one,
      the two proxies give the same answers for ever as long as they hide the same attributes. */
  lemma {:induction false} ProxiesAlike(cfg: Config, s: State, t: State, srv: Server, rs: seq<Request>, now: Time)
    requires Similar(s, t, now) && Readable(rs) && InTimeRun(rs, now) && RequestsHideSame(cfg, s, t, srv, rs)
    ensures CachedRun(cfg, s, srv, rs) == HoardingRun(cfg, t, srv, rs)
    decreases |rs|
  {
    if rs != [] {
      var r := rs[0];
      RequestAlike(cfg, s, t, srv, r, now);
      ProxiesAlike(cfg, Cached(cfg, s, srv, r).0, Hoarding(cfg, t, srv, r).0, ServerAfter(srv, r), rs[1..], After(r,
          now));
    }
  }
}
