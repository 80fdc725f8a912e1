/** What the cache remembers: storing one kind of answer leaves the others, and a live answer is given
    without the server. */
module CacheMemory {
  import opened Wrappers
  import opened Cache
  import opened CacheCleaning

  /** An answer that is live up to `until`. */
  function Until<T>(answer: T, until: Time, t: Time): Option<T> {
    if t <= until then Some(answer) else None
  }

  predicate Stores(op: Op, p: Path) {
    !op.Purge? && op.path == p
  }

  /** After one addition every path shows its listing and link as before, but for the one that was
      stored, which is shown for its timeout. */
  lemma StoringKeepsListingsAndLinks(cfg: Config, s: State, op: Op, p: Path, t: Time)
    requires !op.Purge? && 0 < t && op.at.cleanNow <= t && (p in s.table ==> NodeOk(s.table[p]))
    ensures CachedDir(Swept(cfg, s, op), p, t) ==
            if op.PutDir? && Stores(op, p) then Until(op.names, op.at.now + cfg.dirTimeout, t) else CachedDir(s, p, t)
    ensures CachedLink(Swept(cfg, s, op), p, t) ==
            if op.PutLink? && Stores(op, p) then Until(op.text, op.at.now + cfg.linkTimeout, t) else CachedLink(s, p, t)
  {
  }

  /** The same for attributes, except that storing a listing or a link unmarks a path that was known
      not to exist. */
  lemma StoringKeepsAttrs(cfg: Config, s: State, op: Op, p: Path, t: Time)
    requires !op.Purge? && 0 < t && op.at.cleanNow <= t && (p in s.table ==> NodeOk(s.table[p]))
    ensures CachedAttr(Swept(cfg, s, op), p, t) ==
            if op.PutAttr? && Stores(op, p) then
              Until(match op.stat case Some(st) => Found(st) case None => NoEntry, op.at.now + cfg.statTimeout, t)
            else if Stores(op, p) && LiveNegative(s, p, t) then Some(Found(s.table[p].stat))
            else CachedAttr(s, p, t)
  {
  }

  /** A sweep is due more than a minute after the last one, or more than five seconds after it if the
      table is large; it keeps exactly the keys that are still valid. */
  lemma SweptExactlyWhen(s: State, now: Time, p: Path)
    ensures
      var due := now - s.lastCleaned > 60 || (now - s.lastCleaned > 5 && |s.table| > 10000);
      && (p in Cleaned(s, now).table <==> p in s.table && (due ==> now <= s.table[p].valid))
      && Cleaned(s, now).lastCleaned == if due then now else s.lastCleaned
  {
  }

  /** What a live part of the table answers to a request. */
  function Remembered(s: State, r: Request): Option<Answer>
    requires r.Readlink? ==> r.size > 0
  {
    match r
    case Getattr(path, at, _, _) =>
      (match CachedAttr(s, path, at) case None => None case Some(reply) => Some(AttrAnswer(reply)))
    case Readlink(path, size, at, _, _) =>
      (match CachedLink(s, path, at)
       case None => None
       case Some(text) => Some(LinkAnswer(LinkText(Take(text, size - 1)))))
    case Getdir(path, _, at, _, _) =>
      (match CachedDir(s, path, at) case None => None case Some(names) => Some(DirAnswer(0, names)))
    case Change(_, _, _) => None
  }

  /** What is remembered is answered whatever the server has become, and leaves the table as it is;
      anything else is answered by the server. */
  lemma AnsweredFromMemory(cfg: Config, s: State, srv: Server, r: Request)
    requires r.Readlink? ==> r.size > 0
    ensures Remembered(s, r).Some? ==> Cached(cfg, s, srv, r) == (s, Remembered(s, r).value)
    ensures Remembered(s, r).None? ==> Cached(cfg, s, srv, r).1 == Uncached(srv, r)
  {
  }

  predicate SameQuestion(r: Request, again: Request) {
    match r
    case Getattr(path, _, _, _) => again.Getattr? && again.path == path
    case Readlink(path, size, _, _, _) => again.Readlink? && again.path == path && 0 < again.size <= size
    case Getdir(path, _, _, _, _) => again.Getdir? && again.path == path
    case Change(_, _, _) => false
  }

  /** The request that asks again comes after the first and within its timeout. */
  predicate InTimeout(cfg: Config, r: Request, again: Request)
    requires !r.Change? && !again.Change?
  {
    && r.add.cleanNow <= again.at
    && again.at <= r.add.now + (if r.Getattr? then cfg.statTimeout else if r.Readlink? then cfg.linkTimeout
                                else cfg.dirTimeout)
  }

  /** What a server's answer teaches the cache to answer to the same question. */
  function Learned(srv: Server, r: Request, again: Request): Option<Answer>
    requires SameQuestion(r, again) && (r.Readlink? ==> r.size > 0)
  {
    match r
    case Getattr(path, _, _, _) => if srv.attr(path).AttrError? then None else Some(AttrAnswer(srv.attr(path)))
    case Readlink(path, _, _, _, _) =>
      if srv.link(path).LinkError? then None else Some(LinkAnswer(ServedLink(srv.link(path), again.size)))
    case Getdir(path, filler, _, _, _) =>
      if srv.dir(path).err != 0 then None else Some(DirAnswer(0, Accepted(filler, srv.dir(path).entries)))
  }

  /** An answer of the server is remembered: asked again within the timeout the cache gives it, even
      if the server has changed by itself.  (A link that was cut is remembered as it was cut.) */
  lemma AskedOnceAnsweredAgain(cfg: Config, s: State, srv: Server, r: Request, srv': Server, again: Request)
    requires SameQuestion(r, again) && InTimeout(cfg, r, again)
    requires r.Readlink? ==> r.size > 0
    requires Remembered(s, r).None? && Learned(srv, r, again).Some?
    ensures
      var s' := Cached(cfg, s, srv, r).0;
      Cached(cfg, s', srv', again) == (s', Learned(srv, r, again).value)
  {
    if r.Readlink? {
      var text := srv.link(r.path).text;
      var kept := Take(text, r.size - 1);
      assert Take(kept, r.size - 1) == kept && Take(kept, again.size - 1) == Take(text, again.size - 1);
      assert CachedLink(Cached(cfg, s, srv, r).0, r.path, again.at) == Some(kept);
    }
  }
}
