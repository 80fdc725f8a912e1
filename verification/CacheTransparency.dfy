/** Over sequential runs the cached proxy answers exactly as the uncached one. */
module CacheTransparency {
  import opened Wrappers
  import opened Cache

  // ---------------------------------------------------------------- hypotheses on the server

  /** The server's answers fit together: a listing shows the attributes that `getattr` reports,
      and what has no attributes can be neither listed nor read as a link. */
  ghost predicate Coherent(srv: Server) {
    && (forall p, i :: 0 <= i < |srv.dir(p).entries| ==>
          srv.attr(ChildKey(p, srv.dir(p).entries[i].name)) == Found(srv.dir(p).entries[i].stat))
    && (forall p :: srv.attr(p) == NoEntry ==> srv.dir(p).err != 0 && srv.link(p).LinkError?)
  }

  /** A change that failed alters nothing; one that succeeded alters only the answers at the paths
      it is about, besides the attributes that other listings show for those paths.  (So renaming
      a directory is excluded.) */
  ghost predicate ChangesOnly(srv: Server, after: Server, paths: iset<Path>) {
    forall p :: p !in paths ==>
      && after.attr(p) == srv.attr(p) && after.link(p) == srv.link(p)
      && after.dir(p).err == srv.dir(p).err && Names(after.dir(p).entries) == Names(srv.dir(p).entries)
  }

  /** What the server puts into the cache is true. */
  predicate Truthful(srv: Server, e: Effect) {
    match e
    case SetAttr(path, stat, _) => srv.attr(path) == Found(stat)
    case SetLink(path, text, _) => srv.link(path) == LinkText(text)
    case Fill(_, _, _) => true
  }

  /** The clock does not go back, from `from` over the readings of the effects to `to`. */
  predicate InOrder(effects: seq<Effect>, from: Time, to: Time)
    decreases |effects|
  {
    if effects == [] then from <= to
    else from <= effects[0].at.now <= effects[0].at.cleanNow && InOrder(effects[1..], effects[0].at.cleanNow, to)
  }

  lemma {:induction false} InOrderBounds(effects: seq<Effect>, from: Time, to: Time)
    requires InOrder(effects, from, to)
    ensures from <= to
    decreases |effects|
  {
    if effects != [] {
      InOrderBounds(effects[1..], effects[0].at.cleanNow, to);
    }
  }

  /** A request whose clock readings follow `now`; the result is the clock after it. */
  function After(r: Request, now: Time): Time {
    if r.Change? then now else r.add.cleanNow
  }

  ghost predicate Proper(srv: Server, size: nat, r: Request, now: Time) {
    match r
    case Getattr(path, at, effects, add) =>
      now <= at && InOrder(effects, at, add.now) && add.now <= add.cleanNow && Fills(effects) == [] &&
      forall e :: e in effects ==> Truthful(srv, e)
    case Readlink(path, n, at, effects, add) =>
      n == size &&
      now <= at && InOrder(effects, at, add.now) && add.now <= add.cleanNow && Fills(effects) == [] &&
      forall e :: e in effects ==> Truthful(srv, e)
    case Getdir(path, filler, at, effects, add) =>
      (forall name: string :: filler(name)) &&
      now <= at && InOrder(effects, at, add.now) && add.now <= add.cleanNow &&
      Fills(effects) == srv.dir(path).entries &&
      forall e :: e in effects ==> Truthful(srv, e)
    case Change(m, err, after) =>
      Coherent(after) && ChangesOnly(srv, after, iset p | err == 0 && Touches(m, p))
  }

  // ---------------------------------------------------------------- the invariant

  /** Every live part of a node is what the server answers. */
  predicate NodeAgrees(n: Node, p: Path, srv: Server, now: Time, size: nat)
    requires size > 0
  {
    && (n.statValid >= now ==> srv.attr(p) == if n.notFound then NoEntry else Found(n.stat))
    && (n.linkValid >= now ==> n.link.Some? && srv.link(p).LinkText? &&
                               Take(n.link.value, size - 1) == Take(srv.link(p).text, size - 1))
    && (n.dir.Some? && n.dirValid >= now ==>
          srv.dir(p).err == 0 && n.dir.value == Names(srv.dir(p).entries))
  }

  ghost predicate Agrees(s: State, srv: Server, now: Time, size: nat)
    requires size > 0
  {
    now > 0 && forall p :: p in s.table ==> NodeAgrees(s.table[p], p, srv, now, size)
  }

  lemma AgreesLater(s: State, srv: Server, now: Time, later: Time, size: nat)
    requires size > 0 && Agrees(s, srv, now, size) && now <= later
    ensures Agrees(s, srv, later, size)
  {
  }

  lemma NodeAtAgrees(s: State, p: Path, srv: Server, now: Time, size: nat)
    requires size > 0 && Agrees(s, srv, now, size)
    ensures NodeAgrees(NodeAt(s, p), p, srv, now, size)
  {
  }

  lemma PutAgrees(s: State, p: Path, n: Node, srv: Server, at: Tick, size: nat)
    requires size > 0 && Agrees(s, srv, at.now, size) && NodeAgrees(n, p, srv, at.now, size)
    requires at.now <= at.cleanNow
    ensures Agrees(Cleaned(Put(s, p, n), at.cleanNow), srv, at.cleanNow, size)
  {
  }

  lemma AddedAttrAgrees(cfg: Config, s: State, p: Path, stat: Option<Stat>, srv: Server, at: Tick, size: nat)
    requires size > 0 && Agrees(s, srv, at.now, size) && at.now <= at.cleanNow
    requires srv.attr(p) == match stat case Some(st) => Found(st) case None => NoEntry
    ensures Agrees(AddedAttr(cfg, s, p, stat, at), srv, at.cleanNow, size)
  {
    NodeAtAgrees(s, p, srv, at.now, size);
    PutAgrees(s, p, WithAttr(cfg, NodeAt(s, p), stat, at.now), srv, at, size);
  }

  lemma AddedLinkAgrees(cfg: Config, s: State, p: Path, text: string, n: nat, srv: Server, at: Tick, size: nat)
    requires size > 0 && n > 0 && Agrees(s, srv, at.now, size) && at.now <= at.cleanNow && Coherent(srv)
    requires srv.link(p).LinkText? && Take(Take(text, n - 1), size - 1) == Take(srv.link(p).text, size - 1)
    ensures Agrees(AddedLink(cfg, s, p, text, n, at), srv, at.cleanNow, size)
  {
    NodeAtAgrees(s, p, srv, at.now, size);
    PutAgrees(s, p, WithLink(cfg, NodeAt(s, p), Take(text, n - 1), at.now), srv, at, size);
  }

  lemma AddedDirAgrees(cfg: Config, s: State, p: Path, srv: Server, at: Tick, size: nat)
    requires size > 0 && Agrees(s, srv, at.now, size) && at.now <= at.cleanNow && Coherent(srv)
    requires srv.dir(p).err == 0
    ensures Agrees(AddedDir(cfg, s, p, Names(srv.dir(p).entries), at), srv, at.cleanNow, size)
  {
    NodeAtAgrees(s, p, srv, at.now, size);
    PutAgrees(s, p, WithDir(cfg, NodeAt(s, p), Names(srv.dir(p).entries), at.now), srv, at, size);
  }

  // ---------------------------------------------------------------- effects

  /** The fills of a directory are among its entries. */
  ghost predicate FillsFrom(effects: seq<Effect>, entries: seq<DirEntry>) {
    forall e :: e in Fills(effects) ==> e in entries
  }

  lemma EffectAgrees(cfg: Config, s: State, dir: Path, filler: string -> bool, e: Effect, srv: Server, size: nat)
    requires size > 0 && Coherent(srv) && Truthful(srv, e)
    requires Agrees(s, srv, e.at.now, size) && e.at.now <= e.at.cleanNow
    requires e.Fill? ==> DirEntry(e.name, e.stat) in srv.dir(dir).entries
    ensures Agrees(AfterEffect(cfg, s, dir, filler, e), srv, e.at.cleanNow, size)
  {
    match e
    case SetAttr(path, stat, at) => AddedAttrAgrees(cfg, s, path, Some(stat), srv, at, size);
    case SetLink(path, text, at) =>
      AddedLinkAgrees(cfg, s, path, text, |text| + 1, srv, at, size);
    case Fill(name, stat, at) =>
      if filler(name) {
        var i :| 0 <= i < |srv.dir(dir).entries| && srv.dir(dir).entries[i] == DirEntry(name, stat);
        assert srv.attr(ChildKey(dir, srv.dir(dir).entries[i].name)) == Found(stat);
        AddedAttrAgrees(cfg, s, ChildKey(dir, name), Some(stat), srv, at, size);
      } else {
        AgreesLater(s, srv, at.now, at.cleanNow, size);
      }
  }

  lemma {:induction false} EffectsAgree(cfg: Config, s: State, dir: Path, filler: string -> bool,
                                        effects: seq<Effect>, srv: Server, from: Time, to: Time, size: nat)
    requires size > 0 && Coherent(srv) && Agrees(s, srv, from, size) && InOrder(effects, from, to)
    requires forall e :: e in effects ==> Truthful(srv, e)
    requires FillsFrom(effects, srv.dir(dir).entries)
    ensures Agrees(AfterEffects(cfg, s, dir, filler, effects), srv, to, size)
    decreases |effects|
  {
    if effects == [] {
      AgreesLater(s, srv, from, to, size);
    } else {
      var e := effects[0];
      assert e in effects;
      if e.Fill? {
        assert Fills(effects)[0] == DirEntry(e.name, e.stat);
        assert DirEntry(e.name, e.stat) in Fills(effects);
      }
      AgreesLater(s, srv, from, e.at.now, size);
      EffectAgrees(cfg, s, dir, filler, e, srv, size);
      EffectsAgree(cfg, AfterEffect(cfg, s, dir, filler, e), dir, filler, effects[1..], srv, e.at.cleanNow, to, size);
    }
  }

  lemma {:induction false} AllAccepted(filler: string -> bool, entries: seq<DirEntry>)
    requires forall name: string :: filler(name)
    ensures Accepted(filler, entries) == Names(entries)
    decreases |entries|
  {
    if entries != [] {
      AllAccepted(filler, entries[1..]);
      assert Names(entries) == [entries[0].name] + Names(entries[1..]);
    }
  }

  // ---------------------------------------------------------------- one request

  lemma GetattrTransparent(cfg: Config, s: State, srv: Server, size: nat, r: Request, now: Time)
    requires size > 0 && Agrees(s, srv, now, size) && Coherent(srv) && Proper(srv, size, r, now) && r.Getattr?
    ensures Cached(cfg, s, srv, r).1 == Uncached(srv, r)
    ensures Agrees(Cached(cfg, s, srv, r).0, srv, After(r, now), size)
  {
    InOrderBounds(r.effects, r.at, r.add.now);
    AgreesLater(s, srv, now, r.at, size);
    AgreesLater(s, srv, now, r.add.cleanNow, size);
    EffectsAgree(cfg, s, r.path, NoFiller, r.effects, srv, r.at, r.add.now, size);
    var s1 := AfterEffects(cfg, s, r.path, NoFiller, r.effects);
    match srv.attr(r.path)
    case Found(stat) => AddedAttrAgrees(cfg, s1, r.path, Some(stat), srv, r.add, size);
    case NoEntry => AddedAttrAgrees(cfg, s1, r.path, None, srv, r.add, size);
    case AttrError(_) => AgreesLater(s1, srv, r.add.now, r.add.cleanNow, size);
  }

  lemma ReadlinkTransparent(cfg: Config, s: State, srv: Server, size: nat, r: Request, now: Time)
    requires size > 0 && Agrees(s, srv, now, size) && Coherent(srv) && Proper(srv, size, r, now) && r.Readlink?
    ensures Cached(cfg, s, srv, r).1 == Uncached(srv, r)
    ensures Agrees(Cached(cfg, s, srv, r).0, srv, After(r, now), size)
  {
    InOrderBounds(r.effects, r.at, r.add.now);
    AgreesLater(s, srv, now, r.at, size);
    AgreesLater(s, srv, now, r.add.cleanNow, size);
    EffectsAgree(cfg, s, r.path, NoFiller, r.effects, srv, r.at, r.add.now, size);
    var s1 := AfterEffects(cfg, s, r.path, NoFiller, r.effects);
    match srv.link(r.path)
    case LinkText(text) => AddedLinkAgrees(cfg, s1, r.path, Take(text, size - 1), size, srv, r.add, size);
    case LinkError(_) => AgreesLater(s1, srv, r.add.now, r.add.cleanNow, size);
  }

  lemma GetdirTransparent(cfg: Config, s: State, srv: Server, size: nat, r: Request, now: Time)
    requires size > 0 && Agrees(s, srv, now, size) && Coherent(srv) && Proper(srv, size, r, now) && r.Getdir?
    ensures Cached(cfg, s, srv, r).1 == Uncached(srv, r)
    ensures Agrees(Cached(cfg, s, srv, r).0, srv, After(r, now), size)
  {
    InOrderBounds(r.effects, r.at, r.add.now);
    AgreesLater(s, srv, now, r.at, size);
    AgreesLater(s, srv, now, r.add.cleanNow, size);
    EffectsAgree(cfg, s, r.path, r.filler, r.effects, srv, r.at, r.add.now, size);
    AllAccepted(r.filler, srv.dir(r.path).entries);
    var s1 := AfterEffects(cfg, s, r.path, r.filler, r.effects);
    if srv.dir(r.path).err == 0 {
      AddedDirAgrees(cfg, s1, r.path, srv, r.add, size);
    } else {
      AgreesLater(s1, srv, r.add.now, r.add.cleanNow, size);
    }
  }

  lemma ChangeTransparent(cfg: Config, s: State, srv: Server, size: nat, r: Request, now: Time)
    requires size > 0 && Agrees(s, srv, now, size) && Proper(srv, size, r, now) && r.Change?
    ensures Cached(cfg, s, srv, r).1 == Uncached(srv, r)
    ensures Agrees(Cached(cfg, s, srv, r).0, r.after, now, size)
  {
    var t := if r.err == 0 then Purged(s, Affected(r.m)) else s;
    forall p | p in t.table ensures NodeAgrees(t.table[p], p, r.after, now, size) {
      assert NodeAgrees(s.table[p], p, srv, now, size);
      if r.err == 0 && Touches(r.m, p) { TouchedIsPurged(r.m, p); }
    }
  }

  // ---------------------------------------------------------------- runs

  ghost predicate ProperRun(srv: Server, size: nat, rs: seq<Request>, now: Time)
    decreases |rs|
  {
    rs != [] ==>
      Proper(srv, size, rs[0], now) &&
      ProperRun(ServerAfter(srv, rs[0]), size, rs[1..], After(rs[0], now))
  }

  function CachedRun(cfg: Config, s: State, srv: Server, rs: seq<Request>): seq<Answer>
    requires forall r :: r in rs && r.Readlink? ==> r.size > 0
    decreases |rs|
  {
    if rs == [] then []
    else
      var (s', answer) := Cached(cfg, s, srv, rs[0]);
      [answer] + CachedRun(cfg, s', ServerAfter(srv, rs[0]), rs[1..])
  }

  function UncachedRun(srv: Server, rs: seq<Request>): seq<Answer>
    requires forall r :: r in rs && r.Readlink? ==> r.size > 0
    decreases |rs|
  {
    if rs == [] then []
    else [Uncached(srv, rs[0])] + UncachedRun(ServerAfter(srv, rs[0]), rs[1..])
  }

  /** Started from an agreeing table, the two proxies give the same answers for ever. */
  lemma {:induction false} TransparentRun(cfg: Config, s: State, srv: Server, size: nat, rs: seq<Request>, now: Time)
    requires size > 0 && Agrees(s, srv, now, size) && Coherent(srv) && ProperRun(srv, size, rs, now)
    requires forall r :: r in rs && r.Readlink? ==> r.size > 0
    ensures CachedRun(cfg, s, srv, rs) == UncachedRun(srv, rs)
    decreases |rs|
  {
    if rs != [] {
      var r := rs[0];
      match r {
        case Getattr(_, _, _, _) => GetattrTransparent(cfg, s, srv, size, r, now);
        case Readlink(_, _, _, _, _) => ReadlinkTransparent(cfg, s, srv, size, r, now);
        case Getdir(_, _, _, _, _) => GetdirTransparent(cfg, s, srv, size, r, now);
        case Change(_, _, _) => ChangeTransparent(cfg, s, srv, size, r, now);
      }
      TransparentRun(cfg, Cached(cfg, s, srv, r).0, ServerAfter(srv, r), size, rs[1..], After(r, now));
    }
  }

  /** Cache transparency: from the empty cache, with a clock that starts above zero. */
  lemma CacheIsTransparent(cfg: Config, srv: Server, size: nat, rs: seq<Request>, now: Time, lastCleaned: Time)
    requires size > 0 && now > 0 && Coherent(srv) && ProperRun(srv, size, rs, now)
    requires forall r :: r in rs && r.Readlink? ==> r.size > 0
    ensures CachedRun(cfg, State(map[], lastCleaned), srv, rs) == UncachedRun(srv, rs)
  {
    TransparentRun(cfg, State(map[], lastCleaned), srv, size, rs, now);
  }

  // ---------------------------------------------------------------- where the hypotheses are needed

  /** The names a filler takes are the whole listing exactly when it takes every one of them. */
  lemma {:induction false} TakesAllExactlyWhen(filler: string -> bool, entries: seq<DirEntry>)
    ensures |Accepted(filler, entries)| <= |entries|
    ensures Accepted(filler, entries) == Names(entries) <==>
              forall i :: 0 <= i < |entries| ==> filler(entries[i].name)
    decreases |entries|
  {
    if entries != [] {
      var e, rest := entries[0], entries[1..];
      TakesAllExactlyWhen(filler, rest);
      assert Names(entries) == [e.name] + Names(rest);
      if filler(e.name) {
        assert Accepted(filler, entries)[1..] == Accepted(filler, rest) && Names(entries)[1..] == Names(rest);
        assert forall i :: 0 <= i < |rest| ==> rest[i] == entries[i + 1];
        assert forall i :: 1 <= i < |entries| ==> entries[i] == rest[i - 1];
      } else {
        assert |Names(entries)| > |Accepted(filler, entries)|;
      }
    }
  }

  /** After a directory request that asked the server, the next one within the timeout answers as
      the server does exactly when the filler of the first took every name. */
  lemma ListingKeptExactlyWhen(cfg: Config, s: State, srv: Server, first: Request, next: Request)
    requires first.Getdir? && CachedDir(s, first.path, first.at).None? && srv.dir(first.path).err == 0
    requires next.Getdir? && next.path == first.path
    requires first.add.now <= first.add.cleanNow <= next.at <= first.add.now + cfg.dirTimeout
    ensures
      var entries := srv.dir(first.path).entries;
      Cached(cfg, Cached(cfg, s, srv, first).0, srv, next).1 == Uncached(srv, next) <==>
      forall i :: 0 <= i < |entries| ==> first.filler(entries[i].name)
  {
    var entries := srv.dir(first.path).entries;
    var s1 := AfterEffects(cfg, s, first.path, first.filler, first.effects);
    var kept := Accepted(first.filler, entries);
    assert Cached(cfg, s, srv, first).0 == AddedDir(cfg, s1, first.path, kept, first.add);
    assert CachedDir(Cached(cfg, s, srv, first).0, first.path, next.at) == Some(kept);
    TakesAllExactlyWhen(first.filler, entries);
  }

  /** After a link was read from the server into a buffer of one size, a read with another size
      within the timeout answers as the server does exactly when that size is no larger or the text
      fitted the first time. */
  lemma LinkKeptExactlyWhen(cfg: Config, s: State, srv: Server, first: Request, next: Request)
    requires first.Readlink? && CachedLink(s, first.path, first.at).None? && srv.link(first.path).LinkText?
    requires next.Readlink? && next.path == first.path && first.size > 0 && next.size > 0
    requires first.add.now <= first.add.cleanNow <= next.at <= first.add.now + cfg.linkTimeout
    ensures
      Cached(cfg, Cached(cfg, s, srv, first).0, srv, next).1 == Uncached(srv, next) <==>
      next.size <= first.size || |srv.link(first.path).text| < first.size
  {
    var s1 := AfterEffects(cfg, s, first.path, NoFiller, first.effects);
    var kept := Take(srv.link(first.path).text, first.size - 1);
    assert Take(kept, first.size - 1) == kept;
    assert Cached(cfg, s, srv, first).0 == AddedLink(cfg, s1, first.path, kept, first.size, first.add);
    assert CachedLink(Cached(cfg, s, srv, first).0, first.path, next.at) == Some(kept);
    TakeTwice(srv.link(first.path).text, first.size, next.size);
  }

  lemma TakeTwice(text: string, first: nat, second: nat)
    requires first > 0 && second > 0
    ensures Take(Take(text, first - 1), second - 1) == Take(text, second - 1) <==> second <= first || |text| < first
  {
  }

  // ---------------------------------------------------------------- renaming a directory

  predicate Below(dir: Path, p: Path) {
    dir + "/" <= p
  }

  /** The server has nothing below a directory. */
  ghost predicate NothingBelow(srv: Server, dir: Path) {
    forall p :: Below(dir, p) ==> srv.attr(p) == NoEntry && srv.link(p).LinkError? && srv.dir(p).err != 0
  }

  /** The path that is `p` below `to` after the move and was below `from` before it. */
  function Before(from: Path, to: Path, p: Path): Path
    requires Below(to, p)
  {
    from + p[|to|..]
  }

  /** Renaming a directory on the server: what was below `from` is now below `to`, and apart from
      the two paths and their directories nothing else changes. */
  ghost predicate MovesDirectory(srv: Server, after: Server, from: Path, to: Path) {
    && ChangesOnly(srv, after, iset p | Touches(Rename(from, to), p) || Below(from, p) || Below(to, p))
    && NothingBelow(after, from)
    && forall p :: Below(to, p) ==>
         var q := Before(from, to, p);
         after.attr(p) == srv.attr(q) && after.link(p) == srv.link(q) && after.dir(p) == srv.dir(q)
  }

  /** Something is cached for the path other than that it does not exist. */
  predicate ShowsSomething(s: State, p: Path, now: Time) {
    || (CachedAttr(s, p, now).Some? && CachedAttr(s, p, now).value.Found?)
    || CachedLink(s, p, now).Some? || CachedDir(s, p, now).Some?
  }

  /** Neither directory lies below the other. */
  predicate Apart(from: Path, to: Path) {
    from != to && !Below(from, to) && !Below(to, from)
  }

  lemma ParentNotBelow(dir: Path, path: Path, p: Path)
    requires p in Parent(path) && Below(dir, p)
    ensures Below(dir, path)
  {
    var i := LastSlash(path).value;
    if i == 0 {
      assert dir == "" && "/" <= path;
    } else {
      assert p == path[..i] && p <= path;
    }
  }

  /** What a rename purges is nothing below the two directories. */
  lemma NothingBelowIsPurged(from: Path, to: Path, p: Path)
    requires Apart(from, to) && (Below(from, p) || Below(to, p))
    ensures p !in Affected(Rename(from, to))
  {
    if p in Parent(from) {
      if Below(from, p) { ParentNotBelow(from, from, p); } else { ParentNotBelow(to, from, p); }
    } else if p in Parent(to) {
      if Below(from, p) { ParentNotBelow(from, to, p); } else { ParentNotBelow(to, to, p); }
    }
  }

  /** After a directory was renamed to a free name, the table agrees with the server exactly when
      nothing was cached below the old name, except that things do not exist, and below the new
      name nothing that the directory brings was known not to exist. */
  lemma RenamedDirectoryAgreesExactlyWhen(s: State, srv: Server, after: Server, from: Path, to: Path, now: Time,
      size: nat)
    requires size > 0 && Agrees(s, srv, now, size)
    requires Apart(from, to) && NothingBelow(srv, to) && MovesDirectory(srv, after, from, to)
    ensures
      Agrees(Purged(s, Affected(Rename(from, to))), after, now, size) <==>
      && (forall p :: p in s.table && Below(from, p) ==> !ShowsSomething(s, p, now))
      && (forall p :: p in s.table && Below(to, p) && CachedAttr(s, p, now).Some? ==>
            srv.attr(Before(from, to, p)) == NoEntry)
  {
    var t := Purged(s, Affected(Rename(from, to)));
    forall p | p in s.table && (Below(from, p) || Below(to, p)) ensures p in t.table && t.table[p] == s.table[p] {
      NothingBelowIsPurged(from, to, p);
    }
    forall p | p in t.table ensures NodeAgrees(s.table[p], p, srv, now, size) && !Touches(Rename(from, to), p) {
      if Touches(Rename(from, to), p) { TouchedIsPurged(Rename(from, to), p); }
    }
  }

  /** Where the condition holds, the proxy is transparent from the rename on. */
  lemma RenamedDirectoryIsTransparent(cfg: Config, s: State, srv: Server, after: Server, from: Path, to: Path,
                                      size: nat, rs: seq<Request>, now: Time)
    requires size > 0 && Agrees(s, srv, now, size)
    requires Apart(from, to) && NothingBelow(srv, to) && MovesDirectory(srv, after, from, to)
    requires forall p :: p in s.table && Below(from, p) ==> !ShowsSomething(s, p, now)
    requires forall p :: p in s.table && Below(to, p) && CachedAttr(s, p, now).Some? ==>
                           srv.attr(Before(from, to, p)) == NoEntry
    requires Coherent(after) && ProperRun(after, size, rs, now)
    requires forall r :: r in rs && r.Readlink? ==> r.size > 0
    ensures CachedRun(cfg, Purged(s, Affected(Rename(from, to))), after, rs) == UncachedRun(after, rs)
  {
    RenamedDirectoryAgreesExactlyWhen(s, srv, after, from, to, now, size);
    TransparentRun(cfg, Purged(s, Affected(Rename(from, to))), after, size, rs, now);
  }

  /** Where it fails, the program is wrong: a live attribute of a file in the directory is still
      served under the old name, where the server has nothing. */
  lemma RenamedDirectoryIsStillServed(s: State, srv: Server, after: Server, from: Path, to: Path, p: Path, now: Time,
      stat: Stat)
    requires Apart(from, to) && MovesDirectory(srv, after, from, to)
    requires Below(from, p) && CachedAttr(s, p, now) == Some(Found(stat))
    ensures CachedAttr(Purged(s, Affected(Rename(from, to))), p, now) == Some(Found(stat)) && after.attr(p) == NoEntry
  {
    NothingBelowIsPurged(from, to, p);
  }
}
