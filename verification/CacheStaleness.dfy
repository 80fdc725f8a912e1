/**
 Threads fetch from the server outside the lock and the server changes by itself: what the cache
 then serves may be old, but only by the timeout plus the longest fetch.
 */
module CacheStaleness {
  import opened Wrappers
  import opened Cache
  import opened CacheCleaning
  import CacheSweeping
  import CacheTransparency

  /** The server at every moment. */
  type History = Time -> Server

  /** A change of the table, and when the thread that makes it asked the server. */
  datatype Event = Event(op: Op, asked: Time)

  predicate AttrHeld(h: History, f: Time, p: Path, reply: AttrReply) {
    h(f).attr(p) == reply
  }

  function Reply(stat: Option<Stat>): AttrReply {
    match stat case Some(st) => Found(st) case None => NoEntry
  }

  function Remembered(n: Node): AttrReply {
    if n.notFound then NoEntry else Found(n.stat)
  }

  /** What the readers take of an answer: at least `cut` characters of a link, and all names of a
      listing if `whole`. */
  datatype Reader = Reader(cut: nat, whole: bool)

  /** The names that some filler takes of a listing. */
  ghost predicate Taken(names: seq<string>, entries: seq<DirEntry>) {
    exists filler: string -> bool :: Accepted(filler, entries) == names
  }

  ghost predicate DirHeld(h: History, f: Time, p: Path, names: seq<string>, rd: Reader) {
    h(f).dir(p).err == 0 && Taken(names, h(f).dir(p).entries) &&
    (rd.whole ==> names == Names(h(f).dir(p).entries))
  }

  /** The server's text, or as much of it as a reader took. */
  predicate LinkHeld(h: History, f: Time, p: Path, text: string, rd: Reader) {
    h(f).link(p).LinkText? && text <= h(f).link(p).text && (text == h(f).link(p).text || |text| >= rd.cut)
  }

  /** The operation stores what a reader took of an answer that the server gave at most `delay` before. */
  ghost predicate Honest(h: History, e: Event, delay: nat, rd: Reader) {
    match e.op
    case PutAttr(p, stat, at) => e.asked <= at.now <= e.asked + delay && AttrHeld(h, e.asked, p, Reply(stat))
    case PutDir(p, names, at) => e.asked <= at.now <= e.asked + delay && DirHeld(h, e.asked, p, names, rd)
    case PutLink(p, text, at) => e.asked <= at.now <= e.asked + delay && LinkHeld(h, e.asked, p, text, rd)
    case Purge(_) => true
  }

  /** What `cache_readlink` stores for a reader with a buffer of `size` is honest. */
  lemma ReadIsHonest(h: History, f: Time, p: Path, size: nat, rd: Reader)
    requires h(f).link(p).LinkText? && size > rd.cut
    ensures LinkHeld(h, f, p, Take(h(f).link(p).text, size - 1), rd)
  {
  }

  /** A live part was the server's answer at a moment not too long before it expires. */
  ghost predicate AttrRecent(h: History, cfg: Config, delay: nat, n: Node, p: Path, now: Time) {
    n.statValid >= now ==> exists f :: f <= now && n.statValid <= f + delay + cfg.statTimeout &&
                                       AttrHeld(h, f, p, Remembered(n))
  }

  ghost predicate DirRecent(h: History, cfg: Config, delay: nat, n: Node, p: Path, now: Time, rd: Reader) {
    n.dir.Some? && n.dirValid >= now ==> exists f :: f <= now && n.dirValid <= f + delay + cfg.dirTimeout &&
                                                    DirHeld(h, f, p, n.dir.value, rd)
  }

  ghost predicate LinkRecent(h: History, cfg: Config, delay: nat, n: Node, p: Path, now: Time, rd: Reader) {
    n.link.Some? && n.linkValid >= now ==> exists f :: f <= now && n.linkValid <= f + delay + cfg.linkTimeout &&
                                                      LinkHeld(h, f, p, n.link.value, rd)
  }

  /** Listings and links. */
  ghost predicate NodeRecent(h: History, cfg: Config, delay: nat, n: Node, p: Path, now: Time, rd: Reader) {
    DirRecent(h, cfg, delay, n, p, now, rd) && LinkRecent(h, cfg, delay, n, p, now, rd)
  }

  ghost predicate Recent(h: History, cfg: Config, delay: nat, s: State, now: Time, rd: Reader) {
    now > 0 && forall p :: p in s.table ==> NodeRecent(h, cfg, delay, s.table[p], p, now, rd)
  }

  lemma RecentLater(h: History, cfg: Config, delay: nat, n: Node, p: Path, now: Time, later: Time, rd: Reader)
    requires NodeRecent(h, cfg, delay, n, p, now, rd) && now <= later
    ensures NodeRecent(h, cfg, delay, n, p, later, rd)
  {
  }

  lemma WrittenIsRecent(h: History, cfg: Config, delay: nat, n: Node, e: Event, rd: Reader)
    requires !e.op.Purge? && NodeRecent(h, cfg, delay, n, e.op.path, e.op.at.now, rd) && Honest(h, e, delay, rd)
    ensures NodeRecent(h, cfg, delay, Written(cfg, n, e.op), e.op.path, e.op.at.now, rd)
  {
    match e.op
    case PutAttr(_, _, _) =>
    case PutDir(p, names, _) => assert DirHeld(h, e.asked, p, names, rd);
    case PutLink(p, text, _) => assert LinkHeld(h, e.asked, p, text, rd);
  }

  lemma StepIsRecent(h: History, cfg: Config, delay: nat, s: State, e: Event, now: Time, rd: Reader)
    requires Recent(h, cfg, delay, s, now, rd) && Timely(e.op, now) && Honest(h, e, delay, rd)
    ensures Recent(h, cfg, delay, Swept(cfg, s, e.op), Clock(e.op, now), rd)
  {
    var next := Swept(cfg, s, e.op);
    forall p | p in next.table ensures NodeRecent(h, cfg, delay, next.table[p], p, Clock(e.op, now), rd) {
      if !e.op.Purge? && p == e.op.path {
        if p in s.table { RecentLater(h, cfg, delay, s.table[p], p, now, e.op.at.now, rd); }
        WrittenIsRecent(h, cfg, delay, NodeAt(s, p), e, rd);
        RecentLater(h, cfg, delay, next.table[p], p, e.op.at.now, e.op.at.cleanNow, rd);
      } else {
        RecentLater(h, cfg, delay, s.table[p], p, now, Clock(e.op, now), rd);
      }
    }
  }

  // ---------------------------------------------------------------- runs

  function Ops(es: seq<Event>): seq<Op> {
    if es == [] then [] else [es[0].op] + Ops(es[1..])
  }

  lemma {:induction false} RunIsRecent(h: History, cfg: Config, delay: nat, s: State, es: seq<Event>,
                                       now: Time, end: Time, rd: Reader)
    requires Recent(h, cfg, delay, s, now, rd) && TimelyRun(Ops(es), now, end)
    requires forall e :: e in es ==> Honest(h, e, delay, rd)
    ensures Recent(h, cfg, delay, SweptRun(cfg, s, Ops(es)), end, rd)
    decreases |es|
  {
    if es == [] {
      forall p | p in s.table ensures NodeRecent(h, cfg, delay, s.table[p], p, end, rd) {
        RecentLater(h, cfg, delay, s.table[p], p, now, end, rd);
      }
    } else {
      assert es[0] in es && Ops(es)[1..] == Ops(es[1..]);
      StepIsRecent(h, cfg, delay, s, es[0], now, rd);
      RunIsRecent(h, cfg, delay, Swept(cfg, s, es[0].op), es[1..], Clock(es[0].op, now), end, rd);
    }
  }

  /** Bounded staleness: whatever the threads interleave and however the server changes, a listing
      or a link served at `t` was the server's answer at a moment no earlier than
      `t - delay - timeout`, or what a reader took of it. */
  lemma ServedIsRecent(h: History, cfg: Config, delay: nat, es: seq<Event>, start: Time, t: Time,
                       lastCleaned: Time, p: Path, rd: Reader)
    requires start > 0 && TimelyRun(Ops(es), start, t)
    requires forall e :: e in es ==> Honest(h, e, delay, rd)
    ensures
      var s := SweptRun(cfg, State(map[], lastCleaned), Ops(es));
      && (CachedDir(s, p, t).Some? ==>
            exists f :: t - delay - cfg.dirTimeout <= f <= t && DirHeld(h, f, p, CachedDir(s, p, t).value, rd))
      && (CachedLink(s, p, t).Some? ==>
            exists f :: t - delay - cfg.linkTimeout <= f <= t && LinkHeld(h, f, p, CachedLink(s, p, t).value, rd))
  {
    RunIsRecent(h, cfg, delay, State(map[], lastCleaned), es, start, t, rd);
    var s := SweptRun(cfg, State(map[], lastCleaned), Ops(es));
    if p in s.table {
      assert NodeRecent(h, cfg, delay, s.table[p], p, t, rd);
    }
  }

  // ---------------------------------------------------------------- attributes

  /** Every live attribute of the table was the server's answer not too long before it expires. */
  ghost predicate AttrsRecent(h: History, cfg: Config, delay: nat, s: State, now: Time) {
    forall p :: p in s.table ==> AttrRecent(h, cfg, delay, s.table[p], p, now)
  }

  ghost predicate AttrsAlwaysRecent(h: History, cfg: Config, delay: nat, s: State, ops: seq<Op>, now: Time)
    decreases |ops|
  {
    && AttrsRecent(h, cfg, delay, s, now)
    && (ops != [] ==> AttrsAlwaysRecent(h, cfg, delay, Swept(cfg, s, ops[0]), ops[1..], Clock(ops[0], now)))
  }

  /** When a listing or a link is stored at a negative entry that stays live, the attribute hidden
      there is one the server showed not too long before the entry expires. */
  ghost predicate RevealsRecent(h: History, cfg: Config, delay: nat, s: State, op: Op) {
    (op.PutDir? || op.PutLink?) && LiveNegative(s, op.path, op.at.cleanNow) ==>
      AttrRecent(h, cfg, delay, NodeAt(s, op.path).(notFound := false), op.path, op.at.cleanNow)
  }

  ghost predicate AllRevealRecent(h: History, cfg: Config, delay: nat, s: State, ops: seq<Op>)
    decreases |ops|
  {
    ops != [] ==>
      RevealsRecent(h, cfg, delay, s, ops[0]) && AllRevealRecent(h, cfg, delay, Swept(cfg, s, ops[0]), ops[1..])
  }

  predicate LiveCovered(s: State) {
    forall p :: p in s.table ==> NodeOk(s.table[p])
  }

  lemma WrittenAttrIsRecent(h: History, cfg: Config, delay: nat, s: State, e: Event, now: Time, rd: Reader)
    requires !e.op.Purge? && AttrsRecent(h, cfg, delay, s, now) && LiveCovered(s) && 0 < now
    requires Timely(e.op, now) && Honest(h, e, delay, rd)
    ensures AttrRecent(h, cfg, delay, Written(cfg, NodeAt(s, e.op.path), e.op), e.op.path, e.op.at.cleanNow) <==>
            RevealsRecent(h, cfg, delay, s, e.op)
    ensures NodeOk(Written(cfg, NodeAt(s, e.op.path), e.op))
  {
    var n, p, later := NodeAt(s, e.op.path), e.op.path, e.op.at.cleanNow;
    var n' := Written(cfg, n, e.op);
    if e.op.PutAttr? {
      assert Remembered(n') == Reply(e.op.stat) && AttrHeld(h, e.asked, p, Reply(e.op.stat));
    } else if n.statValid >= later {
      assert p in s.table && AttrRecent(h, cfg, delay, n, p, now);
      assert Remembered(n') == Remembered(n.(notFound := false));
      if !n.notFound { assert Remembered(n') == Remembered(n); }
    }
  }

  lemma AttrStep(h: History, cfg: Config, delay: nat, s: State, e: Event, now: Time, rd: Reader)
    requires AttrsRecent(h, cfg, delay, s, now) && LiveCovered(s) && 0 < now
    requires Timely(e.op, now) && Honest(h, e, delay, rd)
    ensures AttrsRecent(h, cfg, delay, Swept(cfg, s, e.op), Clock(e.op, now)) <==> RevealsRecent(h, cfg, delay, s, e.op)
    ensures LiveCovered(Swept(cfg, s, e.op))
  {
    var next, later := Swept(cfg, s, e.op), Clock(e.op, now);
    if !e.op.Purge? {
      WrittenAttrIsRecent(h, cfg, delay, s, e, now, rd);
      var n := Written(cfg, NodeAt(s, e.op.path), e.op);
      assert e.op.path in next.table ==> next.table[e.op.path] == n;
      assert n.statValid >= later ==> e.op.path in next.table;
    }
    forall p | p in next.table && (e.op.Purge? || p != e.op.path)
      ensures AttrRecent(h, cfg, delay, next.table[p], p, later)
    {
      assert AttrRecent(h, cfg, delay, s.table[p], p, now);
    }
  }

  /** For one history: attributes are at most timeout and delay old after every step of a run exactly
      when no listing and no link reveals an attribute that is older. */
  lemma {:induction false} AttrsRecentIn(h: History, cfg: Config, delay: nat, s: State, es: seq<Event>,
                                         now: Time, end: Time, rd: Reader)
    requires AttrsRecent(h, cfg, delay, s, now) && LiveCovered(s) && 0 < now && TimelyRun(Ops(es), now, end)
    requires forall e :: e in es ==> Honest(h, e, delay, rd)
    ensures AttrsAlwaysRecent(h, cfg, delay, s, Ops(es), now) <==> AllRevealRecent(h, cfg, delay, s, Ops(es))
    ensures AllRevealRecent(h, cfg, delay, s, Ops(es)) ==> AttrsRecent(h, cfg, delay, SweptRun(cfg, s, Ops(es)), end)
    decreases |es|
  {
    if es != [] {
      var e := es[0];
      assert e in es && Ops(es)[1..] == Ops(es[1..]);
      AttrStep(h, cfg, delay, s, e, now, rd);
      if RevealsRecent(h, cfg, delay, s, e.op) {
        AttrsRecentIn(h, cfg, delay, Swept(cfg, s, e.op), es[1..], Clock(e.op, now), end, rd);
      }
    }
  }

  lemma {:induction false} AvoidingRevealsNothing(h: History, cfg: Config, delay: nat, s: State, ops: seq<Op>,
      now: Time, end: Time)
    requires TimelyRun(ops, now, end) && AvoidsLiveNegatives(cfg, s, ops)
    ensures AllRevealRecent(h, cfg, delay, s, ops)
    decreases |ops|
  {
    if ops != [] {
      AvoidingRevealsNothing(h, cfg, delay, Swept(cfg, s, ops[0]), ops[1..], Clock(ops[0], now), end);
    }
  }

  /** In particular served attributes are recent in runs that store no listing and no link over a
      live negative entry. */
  lemma ServedAttrIsRecent(h: History, cfg: Config, delay: nat, es: seq<Event>, start: Time, t: Time,
                           lastCleaned: Time, p: Path, rd: Reader)
    requires start > 0 && TimelyRun(Ops(es), start, t)
    requires forall e :: e in es ==> Honest(h, e, delay, rd)
    requires AvoidsLiveNegatives(cfg, State(map[], lastCleaned), Ops(es))
    ensures
      var s := SweptRun(cfg, State(map[], lastCleaned), Ops(es));
      CachedAttr(s, p, t).Some? ==>
        exists f :: t - delay - cfg.statTimeout <= f <= t && AttrHeld(h, f, p, CachedAttr(s, p, t).value)
  {
    var empty := State(map[], lastCleaned);
    AvoidingRevealsNothing(h, cfg, delay, empty, Ops(es), start, t);
    AttrsRecentIn(h, cfg, delay, empty, es, start, t, rd);
    var s := SweptRun(cfg, empty, Ops(es));
    if p in s.table {
      assert AttrRecent(h, cfg, delay, s.table[p], p, t);
    }
  }

  // ---------------------------------------------------------------- a condition on the run alone

  ghost predicate AllHonest(h: History, es: seq<Event>, delay: nat, rd: Reader) {
    forall e :: e in es ==> Honest(h, e, delay, rd)
  }

  /** Somebody who stored this attribute for the path had asked for it at `f`. */
  predicate Asked(es: seq<Event>, p: Path, stat: Stat, f: Time) {
    exists e :: e in es && e.op.PutAttr? && e.op.path == p && e.op.stat == Some(stat) && e.asked == f
  }

  /** The attribute that a listing or a link reveals was asked for not too long before it expires. */
  ghost predicate RevealsAsked(cfg: Config, delay: nat, es: seq<Event>, s: State, op: Op) {
    (op.PutDir? || op.PutLink?) && LiveNegative(s, op.path, op.at.cleanNow) ==>
      exists f :: f <= op.at.cleanNow && NodeAt(s, op.path).statValid <= f + delay + cfg.statTimeout &&
                  Asked(es, op.path, NodeAt(s, op.path).stat, f)
  }

  ghost predicate AllRevealAsked(cfg: Config, delay: nat, es: seq<Event>, s: State, ops: seq<Op>)
    decreases |ops|
  {
    ops != [] ==>
      RevealsAsked(cfg, delay, es, s, ops[0]) && AllRevealAsked(cfg, delay, es, Swept(cfg, s, ops[0]), ops[1..])
  }

  lemma AskedIsRecent(h: History, cfg: Config, delay: nat, es: seq<Event>, s: State, op: Op, rd: Reader)
    requires AllHonest(h, es, delay, rd) && RevealsAsked(cfg, delay, es, s, op)
    ensures RevealsRecent(h, cfg, delay, s, op)
  {
    if (op.PutDir? || op.PutLink?) && LiveNegative(s, op.path, op.at.cleanNow) {
      var n := NodeAt(s, op.path);
      var f :| f <= op.at.cleanNow && n.statValid <= f + delay + cfg.statTimeout && Asked(es, op.path, n.stat, f);
      assert AttrHeld(h, f, op.path, Remembered(n.(notFound := false)));
    }
  }

  lemma {:induction false} AllAskedIsRecent(h: History, cfg: Config, delay: nat, es: seq<Event>, s: State,
                                            ops: seq<Op>, rd: Reader)
    requires AllHonest(h, es, delay, rd) && AllRevealAsked(cfg, delay, es, s, ops)
    ensures AllRevealRecent(h, cfg, delay, s, ops)
    decreases |ops|
  {
    if ops != [] {
      AskedIsRecent(h, cfg, delay, es, s, ops[0], rd);
      AllAskedIsRecent(h, cfg, delay, es, Swept(cfg, s, ops[0]), ops[1..], rd);
    }
  }

  predicate AskedAt(es: seq<Event>, p: Path, f: Time) {
    exists e :: e in es && e.op.PutAttr? && e.op.path == p && e.asked == f
  }

  /** A history that shows attributes only at the moments at which they were asked for. */
  ghost function Reticent(h: History, es: seq<Event>): History {
    f => Server(p => if AskedAt(es, p, f) then h(f).attr(p) else AttrError(0), h(f).link, h(f).dir)
  }

  lemma ReticentIsHonest(h: History, es: seq<Event>, delay: nat, rd: Reader)
    requires AllHonest(h, es, delay, rd)
    ensures AllHonest(Reticent(h, es), es, delay, rd)
  {
    forall e | e in es ensures Honest(Reticent(h, es), e, delay, rd) {
      if e.op.PutAttr? { assert AskedAt(es, e.op.path, e.asked); }
    }
  }

  lemma RecentIsAsked(h: History, cfg: Config, delay: nat, es: seq<Event>, s: State, op: Op, rd: Reader)
    requires AllHonest(h, es, delay, rd) && RevealsRecent(Reticent(h, es), cfg, delay, s, op)
    ensures RevealsAsked(cfg, delay, es, s, op)
  {
    if (op.PutDir? || op.PutLink?) && LiveNegative(s, op.path, op.at.cleanNow) {
      var n := NodeAt(s, op.path).(notFound := false);
      var f :| f <= op.at.cleanNow && n.statValid <= f + delay + cfg.statTimeout &&
               AttrHeld(Reticent(h, es), f, op.path, Remembered(n));
      assert AskedAt(es, op.path, f);
      var e :| e in es && e.op.PutAttr? && e.op.path == op.path && e.asked == f;
      assert Honest(h, e, delay, rd);
      assert Asked(es, op.path, n.stat, f);
    }
  }

  lemma {:induction false} AllRecentIsAsked(h: History, cfg: Config, delay: nat, es: seq<Event>, s: State,
                                            ops: seq<Op>, rd: Reader)
    requires AllHonest(h, es, delay, rd) && AllRevealRecent(Reticent(h, es), cfg, delay, s, ops)
    ensures AllRevealAsked(cfg, delay, es, s, ops)
    decreases |ops|
  {
    if ops != [] {
      RecentIsAsked(h, cfg, delay, es, s, ops[0], rd);
      AllRecentIsAsked(h, cfg, delay, es, Swept(cfg, s, ops[0]), ops[1..], rd);
    }
  }

  /** Whatever the server did, attributes are at most timeout and delay old after every step. */
  ghost predicate RecentInEveryHistory(cfg: Config, delay: nat, s: State, es: seq<Event>, now: Time, rd: Reader) {
    forall h: History :: AllHonest(h, es, delay, rd) ==> AttrsAlwaysRecent(h, cfg, delay, s, Ops(es), now)
  }

  /** For a run that can have happened: its attributes are recent, whatever the server did, exactly
      when every attribute that a listing or a link reveals at a live negative entry was asked for,
      in this run, not too long before the entry expires. */
  lemma AttrsRecentExactlyWhen(cfg: Config, delay: nat, es: seq<Event>, start: Time, end: Time, lastCleaned: Time,
                               rd: Reader, some: History)
    requires start > 0 && TimelyRun(Ops(es), start, end) && AllHonest(some, es, delay, rd)
    ensures
      var empty := State(map[], lastCleaned);
      RecentInEveryHistory(cfg, delay, empty, es, start, rd) <==> AllRevealAsked(cfg, delay, es, empty, Ops(es))
  {
    var empty := State(map[], lastCleaned);
    if RecentInEveryHistory(cfg, delay, empty, es, start, rd) {
      ReticentIsHonest(some, es, delay, rd);
      AttrsRecentIn(Reticent(some, es), cfg, delay, empty, es, start, end, rd);
      AllRecentIsAsked(some, cfg, delay, es, empty, Ops(es), rd);
    }
    if AllRevealAsked(cfg, delay, es, empty, Ops(es)) {
      forall h: History | AllHonest(h, es, delay, rd) ensures AttrsAlwaysRecent(h, cfg, delay, empty, Ops(es), start) {
        AllAskedIsRecent(h, cfg, delay, es, empty, Ops(es), rd);
        AttrsRecentIn(h, cfg, delay, empty, es, start, end, rd);
      }
    }
  }

  /** Where it fails a served attribute can be as old as one likes: it is cached once and expires, the
      path is found missing, and when something else appears there a link brings the old attribute
      back, `age` after the server last showed it. */
  lemma OldAttrIsServed(cfg: Config, p: Path, stat: Stat, other: Stat, text: string, age: nat)
    returns (h: History, es: seq<Event>, t: Time)
    requires cfg.statTimeout > 0 && age > 0 && stat != other
    ensures forall f :: CacheTransparency.Coherent(h(f))
    ensures t == 2 + age && TimelyRun(Ops(es), 1, t) && AllHonest(h, es, 0, Reader(0, true))
    ensures CachedAttr(SweptRun(cfg, State(map[], 0), Ops(es)), p, t) == Some(Found(stat))
    ensures forall f :: 1 < f ==> !AttrHeld(h, f, p, Found(stat))
  {
    var late := 1 + age;
    var noDir: Path -> DirReply, noLink: Path -> LinkReply := q => DirReply(1, []), q => LinkError(1);
    h := f => if f <= 1 then Server(q => Found(stat), noLink, noDir)
              else if f <= late then Server(q => NoEntry, noLink, noDir)
              else Server(q => Found(other), q => LinkText(text), noDir);
    t := late + 1;
    var o1, o2 := PutAttr(p, Some(stat), Tick(1, 1)), PutAttr(p, None, Tick(late, late));
    var o3 := PutLink(p, text, Tick(t, t));
    es := [Event(o1, 1), Event(o2, late), Event(o3, t)];
    assert es[1..] == [Event(o2, late), Event(o3, t)] && es[1..][1..] == [Event(o3, t)];
    assert Ops(es[1..][1..]) == [o3] + [];
    assert Ops(es[1..]) == [o2] + ([o3] + []);
    assert Ops(es) == [o1] + ([o2] + ([o3] + []));
    OldAttrComesBack(cfg, p, stat, text, late);
  }

  lemma OldAttrComesBack(cfg: Config, p: Path, stat: Stat, text: string, late: Time)
    requires cfg.statTimeout > 0 && late > 1
    ensures
      var o1, o2 := PutAttr(p, Some(stat), Tick(1, 1)), PutAttr(p, None, Tick(late, late));
      var ops := [o1] + ([o2] + ([PutLink(p, text, Tick(late + 1, late + 1))] + []));
      && TimelyRun(ops, 1, late + 1)
      && CachedAttr(SweptRun(cfg, State(map[], 0), ops), p, late + 1) == Some(Found(stat))
  {
    var t := late + 1;
    var o1, o2 := PutAttr(p, Some(stat), Tick(1, 1)), PutAttr(p, None, Tick(late, late));
    var o3 := PutLink(p, text, Tick(t, t));
    var s0 := State(map[], 0);
    var s1 := Swept(cfg, s0, o1);
    var s2 := Swept(cfg, s1, o2);
    RunCons(cfg, s0, s0, o1, [o2] + ([o3] + []), 1, t);
    RunCons(cfg, s1, s1, o2, [o3] + [], 1, t);
    RunCons(cfg, s2, s2, o3, [], late, t);
    assert s2.table[p].stat == stat;
  }

  // ---------------------------------------------------------------- what the proxy stores

  /** What the proxy stores of an answer it asked for at `asked` is honest, if its readers take what
      they are said to take. */
  lemma AnswersAreHonest(h: History, asked: Time, r: Request, delay: nat, rd: Reader, op: Op)
    requires !r.Change? && asked <= r.add.now <= asked + delay
    requires r.Readlink? ==> r.size > rd.cut
    requires r.Getdir? && rd.whole ==> forall name: string :: r.filler(name)
    requires op in CacheSweeping.AnswerOps(h(asked), r)
    ensures Honest(h, Event(op, asked), delay, rd)
  {
    match r
    case Getattr(_, _, _, _) =>
    case Readlink(path, size, _, _, _) => ReadIsHonest(h, asked, path, size, rd);
    case Getdir(path, filler, _, _, _) =>
      if rd.whole { CacheTransparency.AllAccepted(filler, h(asked).dir(path).entries); }
  }
}
