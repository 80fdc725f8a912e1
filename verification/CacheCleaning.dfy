/** When sweeping expired nodes out of the table can be observed, and when it cannot. */
module CacheCleaning {
  import opened Wrappers
  import opened Cache

  /** What changes the table. */
  datatype Op =
    | PutAttr(path: Path, stat: Option<Stat>, at: Tick)
    | PutDir(path: Path, names: seq<string>, at: Tick)
    | PutLink(path: Path, text: string, at: Tick)
    | Purge(paths: set<Path>)

  /** The node an operation writes. */
  function Written(cfg: Config, n: Node, op: Op): Node
    requires !op.Purge?
  {
    match op
    case PutAttr(_, stat, at) => WithAttr(cfg, n, stat, at.now)
    case PutDir(_, names, at) => WithDir(cfg, n, names, at.now)
    case PutLink(_, text, at) => WithLink(cfg, n, text, at.now)
  }

  /** The table without cleaning. */
  function Unswept(cfg: Config, s: State, op: Op): State {
    match op
    case Purge(paths) => Purged(s, paths)
    case _ => Put(s, op.path, Written(cfg, NodeAt(s, op.path), op))
  }

  /** The table as cache.c keeps it: every addition may sweep. */
  function Swept(cfg: Config, s: State, op: Op): State {
    match op
    case Purge(paths) => Purged(s, paths)
    case _ => Cleaned(Unswept(cfg, s, op), op.at.cleanNow)
  }

  /** `Swept` is what the three adding functions of cache.c do. */
  lemma SweptIsAdding(cfg: Config, s: State, path: Path, stat: Option<Stat>, names: seq<string>,
                      text: string, size: nat, at: Tick)
    requires size > 0
    ensures Swept(cfg, s, PutAttr(path, stat, at)) == AddedAttr(cfg, s, path, stat, at)
    ensures Swept(cfg, s, PutDir(path, names, at)) == AddedDir(cfg, s, path, names, at)
    ensures Swept(cfg, s, PutLink(path, Take(text, size - 1), at)) == AddedLink(cfg, s, path, text, size, at)
  {
  }

  // ---------------------------------------------------------------- similarity

  /** `valid` covers the three expiry times, and what was never set has never been live. */
  predicate NodeOk(n: Node) {
    && n.statValid <= n.valid && n.dirValid <= n.valid && n.linkValid <= n.valid
    && (n.link.None? ==> n.linkValid == 0)
  }

  /** A live entry that says the path does not exist. */
  predicate LiveNegative(s: State, path: Path, now: Time) {
    CachedAttr(s, path, now) == Some(NoEntry)
  }

  /** The two nodes have the same live parts, with the same expiry. */
  predicate SameLive(m: Node, n: Node, now: Time) {
    && (m.statValid >= now || n.statValid >= now ==>
          m.statValid == n.statValid && m.notFound == n.notFound && (!m.notFound ==> m.stat == n.stat))
    && (m.linkValid >= now || n.linkValid >= now ==> m.linkValid == n.linkValid && m.link == n.link)
    && (m.dir.Some? && m.dirValid >= now <==> n.dir.Some? && n.dirValid >= now)
    && (m.dir.Some? && m.dirValid >= now ==> m.dirValid == n.dirValid && m.dir == n.dir)
  }

  ghost predicate Similar(s: State, t: State, now: Time) {
    && now > 0
    && (forall p :: p in s.table ==> NodeOk(s.table[p]))
    && (forall p :: p in t.table ==> NodeOk(t.table[p]))
    && (forall p :: p in s.table || p in t.table ==> SameLive(NodeAt(s, p), NodeAt(t, p), now))
  }

  /** The two tables give the same three answers for a path. */
  predicate SameAnswers(s: State, t: State, p: Path, at: Time) {
    CachedAttr(s, p, at) == CachedAttr(t, p, at) && CachedLink(s, p, at) == CachedLink(t, p, at) &&
    CachedDir(s, p, at) == CachedDir(t, p, at)
  }

  /** Similar tables answer every query alike, now and later. */
  lemma SimilarAnswers(s: State, t: State, now: Time, at: Time, p: Path)
    requires Similar(s, t, now) && now <= at
    ensures SameAnswers(s, t, p, at)
  {
    if p in s.table || p in t.table {
      assert SameLive(NodeAt(s, p), NodeAt(t, p), now);
    }
  }

  /** A sweep takes a key out only when none of its parts is live, leaves the other nodes as they
      are, and so changes no answer, now or later. */
  lemma SweepKeepsAnswers(s: State, now: Time, at: Time, p: Path)
    requires 0 < now <= at && (p in s.table ==> NodeOk(s.table[p]))
    ensures SameAnswers(Cleaned(s, now), s, p, at)
    ensures p in Cleaned(s, now).table ==> p in s.table && Cleaned(s, now).table[p] == s.table[p]
    ensures p in s.table && p !in Cleaned(s, now).table ==>
              s.table[p].statValid < now && s.table[p].dirValid < now && s.table[p].linkValid < now
  {
  }

  /** An attribute that was added is answered until its timeout and not later; what is stored for
      other paths meanwhile does not matter for it. */
  lemma AttrIsAnsweredUntilTimeout(cfg: Config, s: State, p: Path, stat: Option<Stat>, at: Tick, t: Time)
    requires at.now <= at.cleanNow <= t
    ensures CachedAttr(AddedAttr(cfg, s, p, stat, at), p, t) ==
            if t > at.now + cfg.statTimeout then None
            else match stat case Some(st) => Some(Found(st)) case None => Some(NoEntry)
  {
  }

  /** Listing a directory or reading a link never hits a path that is known not to exist. */
  predicate AvoidsLiveNegative(s: State, op: Op) {
    (op.PutDir? || op.PutLink?) ==> !LiveNegative(s, op.path, op.at.now)
  }

  predicate Timely(op: Op, now: Time) {
    !op.Purge? ==> now <= op.at.now <= op.at.cleanNow
  }

  function Clock(op: Op, now: Time): Time {
    if op.Purge? then now else op.at.cleanNow
  }

  lemma SimilarLater(s: State, t: State, now: Time, later: Time)
    requires Similar(s, t, now) && now <= later
    ensures Similar(s, t, later)
  {
  }

  lemma CleanedIsSimilar(s: State, t: State, now: Time)
    requires Similar(s, t, now)
    ensures Similar(Cleaned(s, now), t, now)
  {
  }

  lemma WrittenAttrIsSimilar(cfg: Config, m: Node, n: Node, op: Op)
    requires op.PutAttr? && SameLive(m, n, op.at.now) && NodeOk(m) && NodeOk(n) && 0 < op.at.now <= op.at.cleanNow
    ensures SameLive(Written(cfg, m, op), Written(cfg, n, op), op.at.cleanNow)
    ensures NodeOk(Written(cfg, m, op)) && NodeOk(Written(cfg, n, op))
  {
  }

  lemma WrittenDirIsSimilar(cfg: Config, m: Node, n: Node, op: Op)
    requires op.PutDir? && SameLive(m, n, op.at.now) && NodeOk(m) && NodeOk(n) && 0 < op.at.now <= op.at.cleanNow
    requires m.statValid >= op.at.cleanNow && m.notFound ==> m.stat == n.stat
    ensures SameLive(Written(cfg, m, op), Written(cfg, n, op), op.at.cleanNow)
    ensures NodeOk(Written(cfg, m, op)) && NodeOk(Written(cfg, n, op))
  {
  }

  lemma WrittenLinkIsSimilar(cfg: Config, m: Node, n: Node, op: Op)
    requires op.PutLink? && SameLive(m, n, op.at.now) && NodeOk(m) && NodeOk(n) && 0 < op.at.now <= op.at.cleanNow
    requires m.statValid >= op.at.cleanNow && m.notFound ==> m.stat == n.stat
    ensures SameLive(Written(cfg, m, op), Written(cfg, n, op), op.at.cleanNow)
    ensures NodeOk(Written(cfg, m, op)) && NodeOk(Written(cfg, n, op))
  {
  }

  lemma NodesAreSimilar(s: State, t: State, now: Time, p: Path)
    requires Similar(s, t, now)
    ensures SameLive(NodeAt(s, p), NodeAt(t, p), now) && NodeOk(NodeAt(s, p)) && NodeOk(NodeAt(t, p))
  {
  }

  lemma PutIsSimilar(s: State, t: State, p: Path, m: Node, n: Node, now: Time)
    requires Similar(s, t, now) && SameLive(m, n, now) && NodeOk(m) && NodeOk(n)
    ensures Similar(Put(s, p, m), Put(t, p, n), now)
  {
  }

  lemma PurgedIsSimilar(s: State, t: State, paths: set<Path>, now: Time)
    requires Similar(s, t, now)
    ensures Similar(Purged(s, paths), Purged(t, paths), now)
  {
  }

  /** A listing or a link that is stored at a negative entry, live for as long as the step takes,
      meets the same hidden attribute in both tables. */
  predicate HiddenSame(s: State, t: State, op: Op) {
    (op.PutDir? || op.PutLink?) && LiveNegative(s, op.path, op.at.cleanNow) ==>
      NodeAt(s, op.path).stat == NodeAt(t, op.path).stat
  }

  /** One step: a table that sweeps stays similar to one that never does. */
  lemma StepIsSimilar(cfg: Config, s: State, t: State, op: Op, now: Time)
    requires Similar(s, t, now) && Timely(op, now) && HiddenSame(s, t, op)
    ensures Similar(Swept(cfg, s, op), Unswept(cfg, t, op), Clock(op, now))
  {
    if op.Purge? {
      PurgedIsSimilar(s, t, op.paths, now);
    } else {
      var m, n := NodeAt(s, op.path), NodeAt(t, op.path);
      SimilarLater(s, t, now, op.at.now);
      NodesAreSimilar(s, t, op.at.now, op.path);
      match op {
        case PutAttr(_, _, _) => WrittenAttrIsSimilar(cfg, m, n, op);
        case PutDir(_, _, _) => WrittenDirIsSimilar(cfg, m, n, op);
        case PutLink(_, _, _) => WrittenLinkIsSimilar(cfg, m, n, op);
      }
      SimilarLater(s, t, now, op.at.cleanNow);
      PutIsSimilar(s, t, op.path, Written(cfg, m, op), Written(cfg, n, op), op.at.cleanNow);
      CleanedIsSimilar(Unswept(cfg, s, op), Unswept(cfg, t, op), op.at.cleanNow);
    }
  }

  /** Where the hidden attributes differ, the very next question for that attribute shows it. */
  lemma HiddenDifferenceShows(cfg: Config, s: State, t: State, op: Op, now: Time)
    requires Similar(s, t, now) && Timely(op, now) && !HiddenSame(s, t, op)
    ensures !SameAnswers(Swept(cfg, s, op), Unswept(cfg, t, op), op.path, Clock(op, now))
  {
    NodesAreSimilar(s, t, now, op.path);
  }

  // ---------------------------------------------------------------- runs

  function SweptRun(cfg: Config, s: State, ops: seq<Op>): State
    decreases |ops|
  {
    if ops == [] then s else SweptRun(cfg, Swept(cfg, s, ops[0]), ops[1..])
  }

  function UnsweptRun(cfg: Config, s: State, ops: seq<Op>): State
    decreases |ops|
  {
    if ops == [] then s else UnsweptRun(cfg, Unswept(cfg, s, ops[0]), ops[1..])
  }

  predicate TimelyRun(ops: seq<Op>, now: Time, end: Time)
    decreases |ops|
  {
    if ops == [] then now <= end else Timely(ops[0], now) && TimelyRun(ops[1..], Clock(ops[0], now), end)
  }

  /** Every step of the run meets the same hidden attributes in both tables. */
  predicate AllHiddenSame(cfg: Config, s: State, t: State, ops: seq<Op>)
    decreases |ops|
  {
    ops != [] ==>
      HiddenSame(s, t, ops[0]) && AllHiddenSame(cfg, Swept(cfg, s, ops[0]), Unswept(cfg, t, ops[0]), ops[1..])
  }

  /** The two tables answer alike for every path, now and after every step of the run. */
  ghost predicate AlwaysAlike(cfg: Config, s: State, t: State, ops: seq<Op>, now: Time)
    decreases |ops|
  {
    && (forall p :: SameAnswers(s, t, p, now))
    && (ops != [] ==>
          AlwaysAlike(cfg, Swept(cfg, s, ops[0]), Unswept(cfg, t, ops[0]), ops[1..], Clock(ops[0], now)))
  }

  lemma {:induction false} RunsAreSimilar(cfg: Config, s: State, t: State, ops: seq<Op>, now: Time, end: Time)
    requires Similar(s, t, now) && TimelyRun(ops, now, end) && AllHiddenSame(cfg, s, t, ops)
    ensures Similar(SweptRun(cfg, s, ops), UnsweptRun(cfg, t, ops), end)
    decreases |ops|
  {
    if ops == [] {
      SimilarLater(s, t, now, end);
    } else {
      var op := ops[0];
      StepIsSimilar(cfg, s, t, op, now);
      RunsAreSimilar(cfg, Swept(cfg, s, op), Unswept(cfg, t, op), ops[1..], Clock(op, now), end);
    }
  }

  /** From similar tables on, a run with sweeping and the same run without it answer alike after
      every step exactly when every step meets the same hidden attributes. */
  lemma {:induction false} AlwaysAlikeExactlyWhen(cfg: Config, s: State, t: State, ops: seq<Op>, now: Time, end: Time)
    requires Similar(s, t, now) && TimelyRun(ops, now, end)
    ensures AlwaysAlike(cfg, s, t, ops, now) <==> AllHiddenSame(cfg, s, t, ops)
    decreases |ops|
  {
    forall p ensures SameAnswers(s, t, p, now) { SimilarAnswers(s, t, now, now, p); }
    if ops != [] {
      var op := ops[0];
      if HiddenSame(s, t, op) {
        StepIsSimilar(cfg, s, t, op, now);
        AlwaysAlikeExactlyWhen(cfg, Swept(cfg, s, op), Unswept(cfg, t, op), ops[1..], Clock(op, now), end);
      } else {
        HiddenDifferenceShows(cfg, s, t, op, now);
      }
    }
  }

  // ---------------------------------------------------------------- the condition without the second table

  /** The last attribute that was stored for the path since it was last purged; zeroes if none was. */
  function LastStored(ops: seq<Op>, p: Path): Stat
    decreases |ops|
  {
    if ops == [] then ZERO_STAT
    else
      var before, op := ops[..|ops| - 1], ops[|ops| - 1];
      match op
      case PutAttr(q, stat, _) => if q == p && stat.Some? then stat.value else LastStored(before, p)
      case Purge(paths) => if p in paths then ZERO_STAT else LastStored(before, p)
      case _ => LastStored(before, p)
  }

  lemma {:induction false} UnsweptAppend(cfg: Config, s: State, first: seq<Op>, second: seq<Op>)
    ensures UnsweptRun(cfg, s, first + second) == UnsweptRun(cfg, UnsweptRun(cfg, s, first), second)
    decreases |first|
  {
    if first == [] {
      assert first + second == second;
    } else {
      assert (first + second)[0] == first[0] && (first + second)[1..] == first[1..] + second;
      UnsweptAppend(cfg, Unswept(cfg, s, first[0]), first[1..], second);
    }
  }

  lemma UnsweptLast(cfg: Config, s: State, ops: seq<Op>, op: Op)
    ensures UnsweptRun(cfg, s, ops + [op]) == Unswept(cfg, UnsweptRun(cfg, s, ops), op)
  {
    UnsweptAppend(cfg, s, ops, [op]);
    assert [op][1..] == [];
  }

  /** That is what the table that never sweeps keeps, visible or hidden. */
  lemma {:induction false} UnsweptKeepsLast(cfg: Config, lastCleaned: Time, ops: seq<Op>, p: Path)
    ensures NodeAt(UnsweptRun(cfg, State(map[], lastCleaned), ops), p).stat == LastStored(ops, p)
    decreases |ops|
  {
    if ops != [] {
      var before, op := ops[..|ops| - 1], ops[|ops| - 1];
      assert ops == before + [op];
      UnsweptKeepsLast(cfg, lastCleaned, before, p);
      UnsweptLast(cfg, State(map[], lastCleaned), before, op);
    }
  }

  /** A listing or a link that is stored at a negative entry meets there the attribute that was last
      stored for the path: `before` are the operations so far. */
  predicate HidesLast(s: State, before: seq<Op>, op: Op) {
    (op.PutDir? || op.PutLink?) && LiveNegative(s, op.path, op.at.cleanNow) ==>
      NodeAt(s, op.path).stat == LastStored(before, op.path)
  }

  predicate AllHideLast(cfg: Config, s: State, before: seq<Op>, ops: seq<Op>)
    decreases |ops|
  {
    ops != [] ==>
      HidesLast(s, before, ops[0]) && AllHideLast(cfg, Swept(cfg, s, ops[0]), before + [ops[0]], ops[1..])
  }

  lemma {:induction false} HiddenIsLast(cfg: Config, s: State, lastCleaned: Time, before: seq<Op>, ops: seq<Op>)
    ensures AllHiddenSame(cfg, s, UnsweptRun(cfg, State(map[], lastCleaned), before), ops) <==>
            AllHideLast(cfg, s, before, ops)
    decreases |ops|
  {
    if ops != [] {
      var op := ops[0];
      if op.PutDir? || op.PutLink? { UnsweptKeepsLast(cfg, lastCleaned, before, op.path); }
      UnsweptLast(cfg, State(map[], lastCleaned), before, op);
      HiddenIsLast(cfg, Swept(cfg, s, op), lastCleaned, before + [op], ops[1..]);
    }
  }

  /** Cleaning is unobservable in a run from the empty table exactly when every listing and every link
      that is stored at a live negative entry finds there the attribute that was last stored for the
      path: nothing was lost to the sweep.  The sweeping table and the operations tell. */
  lemma CleaningIsUnobservableExactlyWhen(cfg: Config, ops: seq<Op>, start: Time, end: Time, lastCleaned: Time)
    requires start > 0 && TimelyRun(ops, start, end)
    ensures
      var empty := State(map[], lastCleaned);
      && (AlwaysAlike(cfg, empty, empty, ops, start) <==> AllHideLast(cfg, empty, [], ops))
      && (AlwaysAlike(cfg, empty, empty, ops, start) <==> AllHiddenSame(cfg, empty, empty, ops))
  {
    AlwaysAlikeExactlyWhen(cfg, State(map[], lastCleaned), State(map[], lastCleaned), ops, start, end);
    HiddenIsLast(cfg, State(map[], lastCleaned), lastCleaned, [], ops);
  }

  predicate AvoidsLiveNegatives(cfg: Config, s: State, ops: seq<Op>)
    decreases |ops|
  {
    ops != [] ==> AvoidsLiveNegative(s, ops[0]) && AvoidsLiveNegatives(cfg, Swept(cfg, s, ops[0]), ops[1..])
  }

  lemma {:induction false} AvoidingIsEnough(cfg: Config, s: State, t: State, ops: seq<Op>, now: Time, end: Time)
    requires TimelyRun(ops, now, end) && AvoidsLiveNegatives(cfg, s, ops)
    ensures AllHiddenSame(cfg, s, t, ops)
    decreases |ops|
  {
    if ops != [] {
      var op := ops[0];
      AvoidingIsEnough(cfg, Swept(cfg, s, op), Unswept(cfg, t, op), ops[1..], Clock(op, now), end);
    }
  }

  /** In particular it is unobservable in every run that lists no directory and reads no link at a
      path with a live negative entry, which the sweeping table alone can tell. */
  lemma CleaningIsUnobservable(cfg: Config, ops: seq<Op>, start: Time, end: Time, lastCleaned: Time, p: Path)
    requires start > 0 && TimelyRun(ops, start, end)
    requires AvoidsLiveNegatives(cfg, State(map[], lastCleaned), ops)
    ensures
      var swept := SweptRun(cfg, State(map[], lastCleaned), ops);
      var unswept := UnsweptRun(cfg, State(map[], lastCleaned), ops);
      && CachedAttr(swept, p, end) == CachedAttr(unswept, p, end)
      && CachedLink(swept, p, end) == CachedLink(unswept, p, end)
      && CachedDir(swept, p, end) == CachedDir(unswept, p, end)
  {
    var empty := State(map[], lastCleaned);
    AvoidingIsEnough(cfg, empty, empty, ops, start, end);
    RunsAreSimilar(cfg, empty, empty, ops, start, end);
    SimilarAnswers(SweptRun(cfg, empty, ops), UnsweptRun(cfg, empty, ops), end, end, p);
  }

  // ---------------------------------------------------------------- the condition is needed

  /** Listing a directory or storing a link keeps the cached attribute of the path exactly when
      there is no live negative entry for it: otherwise the old `stat` shows through. */
  lemma AddingKeepsAttrExactlyWhen(cfg: Config, s: State, op: Op)
    requires (op.PutDir? || op.PutLink?) && NodeOk(NodeAt(s, op.path)) && 0 < op.at.now <= op.at.cleanNow
    ensures CachedAttr(Unswept(cfg, s, op), op.path, op.at.now) == CachedAttr(s, op.path, op.at.now) <==>
              !LiveNegative(s, op.path, op.at.now)
  {
  }

  /** The observation itself: after a listing or a link is stored into similar tables, they give
      the same attribute exactly when there was no live negative entry or the attributes hidden
      behind it are the same. */
  lemma HiddenAttrShowsExactlyWhen(cfg: Config, s: State, t: State, op: Op, now: Time)
    requires Similar(s, t, now) && Timely(op, now) && (op.PutDir? || op.PutLink?)
    ensures
      var m, n := NodeAt(s, op.path), NodeAt(t, op.path);
      CachedAttr(Unswept(cfg, s, op), op.path, op.at.now) == CachedAttr(Unswept(cfg, t, op), op.path, op.at.now) <==>
      !LiveNegative(s, op.path, op.at.now) || m.stat == n.stat
  {
    SimilarLater(s, t, now, op.at.now);
    NodesAreSimilar(s, t, op.at.now, op.path);
  }

  lemma RunCons(cfg: Config, s: State, t: State, op: Op, rest: seq<Op>, now: Time, end: Time)
    ensures SweptRun(cfg, s, [op] + rest) == SweptRun(cfg, Swept(cfg, s, op), rest)
    ensures UnsweptRun(cfg, t, [op] + rest) == UnsweptRun(cfg, Unswept(cfg, t, op), rest)
    ensures TimelyRun([op] + rest, now, end) <==> Timely(op, now) && TimelyRun(rest, Clock(op, now), end)
  {
    assert ([op] + rest)[1..] == rest;
  }

  /** Without the condition cleaning shows: an attribute is cached and expires, the sweeping table
      drops it, the path is found missing and then a link is stored at it.  The sweeping table now
      reports a zeroed attribute, the other one the attribute from the beginning. */
  lemma CleaningShows(cfg: Config, p: Path, other: Path, stat: Stat, text: string)
    requires p != other && stat != ZERO_STAT
    ensures exists ops: seq<Op>, end: Time ::
              && TimelyRun(ops, 1, end)
              && CachedAttr(SweptRun(cfg, State(map[], 0), ops), p, end) == Some(Found(ZERO_STAT))
              && CachedAttr(UnsweptRun(cfg, State(map[], 0), ops), p, end) == Some(Found(stat))
  {
    var late := cfg.statTimeout + CACHE_CLEAN_INTERVAL + 2;
    var at := Tick(late, late);
    var o1, o2 := PutAttr(p, Some(stat), Tick(1, 1)), PutAttr(other, None, at);
    var o3, o4 := PutAttr(p, None, at), PutLink(p, text, at);
    var s0 := State(map[], 0);
    var s1, t1 := Swept(cfg, s0, o1), Unswept(cfg, s0, o1);
    var s2, t2 := Swept(cfg, s1, o2), Unswept(cfg, t1, o2);
    var s3, t3 := Swept(cfg, s2, o3), Unswept(cfg, t2, o3);
    assert p !in s2.table && s2.lastCleaned == late;
    assert t2.table[p].stat == stat;
    RunCons(cfg, s0, s0, o1, [o2] + ([o3] + ([o4] + [])), 1, late);
    RunCons(cfg, s1, t1, o2, [o3] + ([o4] + []), 1, late);
    RunCons(cfg, s2, t2, o3, [o4] + [], late, late);
    RunCons(cfg, s3, t3, o4, [], late, late);
    assert TimelyRun([o1] + ([o2] + ([o3] + ([o4] + []))), 1, late);
  }
}
