/** The caching proxy of cache.c: a table of nodes whose three parts expire separately. */
module Cache {
  import opened Wrappers

  type Path = string
  type Time = int

  const MAX_CACHE_SIZE := 10000
  const MIN_CACHE_CLEAN_INTERVAL := 5
  const CACHE_CLEAN_INTERVAL := 60

  datatype Stat = Stat(mode: nat, nlink: nat, size: nat, mtime: int)

  const ZERO_STAT := Stat(0, 0, 0, 0)

  datatype Config = Config(statTimeout: nat, dirTimeout: nat, linkTimeout: nat)

  datatype Node = Node(
    stat: Stat, notFound: bool, statValid: Time,
    dir: Option<seq<string>>, dirValid: Time,
    link: Option<string>, linkValid: Time,
    valid: Time)

  /** What `g_new0` returns. */
  const NEW_NODE := Node(ZERO_STAT, false, 0, None, 0, None, 0, 0)

  datatype State = State(table: map<Path, Node>, lastCleaned: Time)

  /** The two readings of the clock while an entry is added: for its expiry and for the cleaning. */
  datatype Tick = Tick(now: Time, cleanNow: Time)

  // ---------------------------------------------------------------- the table

  function Later(a: Time, b: Time): Time {
    if a > b then a else b
  }

  function NodeAt(s: State, path: Path): Node {
    if path in s.table then s.table[path] else NEW_NODE
  }

  function Put(s: State, path: Path, node: Node): State {
    s.(table := s.table[path := node])
  }

  predicate CleaningDue(s: State, now: Time) {
    now > s.lastCleaned + MIN_CACHE_CLEAN_INTERVAL &&
    (|s.table| > MAX_CACHE_SIZE || now > s.lastCleaned + CACHE_CLEAN_INTERVAL)
  }

  function Cleaned(s: State, now: Time): State {
    if CleaningDue(s, now)
    then State(map p | p in s.table && now <= s.table[p].valid :: s.table[p], now)
    else s
  }

  /** Put an entry into the table without the cleaning that follows. */
  function WithAttr(cfg: Config, n: Node, stat: Option<Stat>, now: Time): Node {
    var until := now + cfg.statTimeout;
    match stat
    case Some(st) => n.(stat := st, notFound := false, statValid := until, valid := Later(until, n.valid))
    case None => n.(notFound := true, statValid := until, valid := Later(until, n.valid))
  }

  function WithDir(cfg: Config, n: Node, names: seq<string>, now: Time): Node {
    var until := now + cfg.dirTimeout;
    n.(dir := Some(names), notFound := false, dirValid := until, valid := Later(until, n.valid))
  }

  function WithLink(cfg: Config, n: Node, text: string, now: Time): Node {
    var until := now + cfg.linkTimeout;
    n.(link := Some(text), notFound := false, linkValid := until, valid := Later(until, n.valid))
  }

  function AddedAttr(cfg: Config, s: State, path: Path, stat: Option<Stat>, at: Tick): State {
    Cleaned(Put(s, path, WithAttr(cfg, NodeAt(s, path), stat, at.now)), at.cleanNow)
  }

  function AddedDir(cfg: Config, s: State, path: Path, names: seq<string>, at: Tick): State {
    Cleaned(Put(s, path, WithDir(cfg, NodeAt(s, path), names, at.now)), at.cleanNow)
  }

  /** At most `n` characters. */
  function Take(text: string, n: nat): string {
    text[..Min(n, |text|)]
  }

  function AddedLink(cfg: Config, s: State, path: Path, text: string, size: nat, at: Tick): State
    requires size > 0
  {
    Cleaned(Put(s, path, WithLink(cfg, NodeAt(s, path), Take(text, size - 1), at.now)), at.cleanNow)
  }

  // ---------------------------------------------------------------- invalidation

  /** The index of the last slash, as `strrchr` finds it. */
  function LastSlash(path: Path): (r: Option<nat>)
    ensures r.Some? ==> r.value < |path| && path[r.value] == '/' && '/' !in path[r.value + 1..]
    ensures r.None? ==> '/' !in path
  {
    if path == [] then None
    else if path[|path| - 1] == '/' then Some(|path| - 1)
    else
      assert path == path[..|path| - 1] + [path[|path| - 1]];
      var r := LastSlash(path[..|path| - 1]);
      assert r.Some? ==> path[r.value + 1..] == path[..|path| - 1][r.value + 1..] + [path[|path| - 1]];
      r
  }

  /** The key that `cache_purge_parent` removes. */
  function Parent(path: Path): set<Path> {
    match LastSlash(path)
    case None => {}
    case Some(0) => {"/"}
    case Some(i) => {path[..i]}
  }

  lemma LastSlashIs(path: Path, i: nat)
    requires i < |path| && path[i] == '/' && '/' !in path[i + 1..]
    ensures LastSlash(path) == Some(i)
  {
    var r := LastSlash(path).value;
    forall j | r < j < |path| ensures path[j] != '/' { assert path[j] == path[r + 1..][j - r - 1]; }
    forall j | i < j < |path| ensures path[j] != '/' { assert path[j] == path[i + 1..][j - i - 1]; }
  }

  function Purged(s: State, paths: set<Path>): State {
    s.(table := s.table - paths)
  }

  datatype Mutation =
    | Entry(path: Path)             // mknod, mkdir, symlink, unlink, rmdir, create
    | Inode(path: Path)             // chmod, chown, truncate, ftruncate, utime, write
    | Rename(from: Path, to: Path)
    | Link(from: Path, to: Path)

  /** The paths whose entries a successful change removes from the table. */
  function Affected(m: Mutation): set<Path> {
    match m
    case Entry(path) => {path} + Parent(path)
    case Inode(path) => {path}
    case Rename(from, to) => {from, to} + Parent(from) + Parent(to)
    case Link(from, to) => {from, to} + Parent(to)
  }

  // ---------------------------------------------------------------- the server behind the proxy

  datatype AttrReply = Found(stat: Stat) | NoEntry | AttrError(err: int)
  datatype LinkReply = LinkText(text: string) | LinkError(err: int)
  datatype DirEntry = DirEntry(name: string, stat: Stat)
  datatype DirReply = DirReply(err: int, entries: seq<DirEntry>)

  datatype Server = Server(attr: Path -> AttrReply, link: Path -> LinkReply, dir: Path -> DirReply)

  /** What a request to the server does to the cache on the way: attributes and links of the
      entries it happened to list, and the entries it hands to the directory filler. */
  datatype Effect =
    | SetAttr(path: Path, stat: Stat, at: Tick)
    | SetLink(path: Path, text: string, at: Tick)
    | Fill(name: string, stat: Stat, at: Tick)

  /** `cache_dirfill` joins the directory and the name. */
  function ChildKey(dir: Path, name: string): Path {
    (if |dir| <= 1 then "" else dir) + "/" + name
  }

  predicate DirOk(dir: Path) {
    dir != "" && dir[0] == '/'
  }

  /** Purging the parent of a child purges exactly the directory that lists it. */
  lemma ParentOfChild(dir: Path, name: string)
    requires DirOk(dir) && '/' !in name
    ensures Parent(ChildKey(dir, name)) == {dir}
  {
    var path := ChildKey(dir, name);
    if |dir| > 1 {
      assert path == dir + "/" + name;
      assert path[|dir| + 1..] == name;
      LastSlashIs(path, |dir|);
      assert path[..|dir|] == dir;
    } else {
      assert dir == "/" && path == "/" + name && path[1..] == name;
      LastSlashIs(path, 0);
    }
  }

  // ---------------------------------------------------------------- what a change touches

  /** A listing of the directory shows the path. */
  ghost predicate Lists(dir: Path, path: Path) {
    DirOk(dir) && exists name: string :: '/' !in name && path == ChildKey(dir, name)
  }

  /** The paths whose attributes, link or listing a change is about: what is made, removed or renamed
      and the directories that list it, and what is modified. */
  ghost predicate Touches(m: Mutation, p: Path) {
    match m
    case Entry(path) => p == path || Lists(p, path)
    case Inode(path) => p == path
    case Rename(from, to) => p == from || p == to || Lists(p, from) || Lists(p, to)
    case Link(from, to) => p == from || p == to || Lists(p, to)
  }

  lemma ListingIsParent(dir: Path, path: Path)
    requires Lists(dir, path)
    ensures Parent(path) == {dir}
  {
    var name: string :| '/' !in name && path == ChildKey(dir, name);
    ParentOfChild(dir, name);
  }

  /** A path that starts with one slash, not two. */
  predicate Plainly(path: Path) {
    path != "" && path[0] == '/' && LastSlash(path) != Some(1)
  }

  lemma ParentLists(path: Path, dir: Path)
    requires Plainly(path) && dir in Parent(path)
    ensures Lists(dir, path)
  {
    var i := LastSlash(path).value;
    var name := path[i + 1..];
    if i == 0 {
      assert path == "/" + name;
      assert dir == "/" && ChildKey("/", name) == path;
    } else {
      assert path == path[..i] + "/" + name;
      assert dir == path[..i] && ChildKey(dir, name) == path;
    }
  }

  /** Whatever a change touches is purged. */
  lemma TouchedIsPurged(m: Mutation, p: Path)
    requires Touches(m, p)
    ensures p in Affected(m)
  {
    match m
    case Entry(path) => if Lists(p, path) { ListingIsParent(p, path); }
    case Inode(_) =>
    case Rename(from, to) =>
      if Lists(p, from) { ListingIsParent(p, from); }
      if Lists(p, to) { ListingIsParent(p, to); }
    case Link(_, to) => if Lists(p, to) { ListingIsParent(p, to); }
  }

  predicate PlainPaths(m: Mutation) {
    match m
    case Entry(path) => Plainly(path)
    case Inode(path) => Plainly(path)
    case Rename(from, to) => Plainly(from) && Plainly(to)
    case Link(from, to) => Plainly(from) && Plainly(to)
  }

  /** And for plain paths nothing else is. */
  lemma PurgedIsTouched(m: Mutation, p: Path)
    requires PlainPaths(m) && p in Affected(m)
    ensures Touches(m, p)
  {
    match m
    case Entry(path) => if p in Parent(path) { ParentLists(path, p); }
    case Inode(_) =>
    case Rename(from, to) =>
      if p in Parent(from) { ParentLists(from, p); }
      if p in Parent(to) { ParentLists(to, p); }
    case Link(_, to) => if p in Parent(to) { ParentLists(to, p); }
  }

  function Fills(effects: seq<Effect>): seq<DirEntry> {
    if effects == [] then []
    else (if effects[0].Fill? then [DirEntry(effects[0].name, effects[0].stat)] else []) + Fills(effects[1..])
  }

  function Names(entries: seq<DirEntry>): seq<string> {
    seq(|entries|, i requires 0 <= i < |entries| => entries[i].name)
  }

  /** The names the caller's filler accepts: only these are remembered. */
  function Accepted(filler: string -> bool, entries: seq<DirEntry>): seq<string> {
    if entries == [] then []
    else (if filler(entries[0].name) then [entries[0].name] else []) + Accepted(filler, entries[1..])
  }

  function AfterEffect(cfg: Config, s: State, dir: Path, filler: string -> bool, e: Effect): State {
    match e
    case SetAttr(path, stat, at) => AddedAttr(cfg, s, path, Some(stat), at)
    case SetLink(path, text, at) => AddedLink(cfg, s, path, text, |text| + 1, at)
    case Fill(name, stat, at) =>
      if filler(name) then AddedAttr(cfg, s, ChildKey(dir, name), Some(stat), at) else s
  }

  function AfterEffects(cfg: Config, s: State, dir: Path, filler: string -> bool, effects: seq<Effect>): State
    decreases |effects|
  {
    if effects == [] then s
    else AfterEffects(cfg, AfterEffect(cfg, s, dir, filler, effects[0]), dir, filler, effects[1..])
  }

  function NoFiller(name: string): bool { false }

  // ---------------------------------------------------------------- requests

  datatype Answer =
    | AttrAnswer(attr: AttrReply)
    | LinkAnswer(link: LinkReply)
    | DirAnswer(err: int, names: seq<string>)
    | ChangeAnswer(err: int)

  datatype Request =
    | Getattr(path: Path, at: Time, effects: seq<Effect>, add: Tick)
    | Readlink(path: Path, size: nat, at: Time, effects: seq<Effect>, add: Tick)
    | Getdir(path: Path, filler: string -> bool, at: Time, effects: seq<Effect>, add: Tick)
    | Change(m: Mutation, err: int, after: Server)

  /** A live attribute: the remembered answer. */
  function CachedAttr(s: State, path: Path, now: Time): Option<AttrReply> {
    if path in s.table && s.table[path].statValid - now >= 0
    then Some(if s.table[path].notFound then NoEntry else Found(s.table[path].stat))
    else None
  }

  function CachedLink(s: State, path: Path, now: Time): Option<string> {
    if path in s.table && s.table[path].linkValid - now >= 0 then s.table[path].link else None
  }

  function CachedDir(s: State, path: Path, now: Time): Option<seq<string>> {
    if path in s.table && s.table[path].dir.Some? && s.table[path].dirValid - now >= 0
    then s.table[path].dir else None
  }

  function ServedLink(reply: LinkReply, size: nat): LinkReply
    requires size > 0
  {
    match reply
    case LinkText(text) => LinkText(Take(text, size - 1))
    case LinkError(_) => reply
  }

  /** The proxy with the cache switched off. */
  function Uncached(srv: Server, r: Request): Answer
    requires r.Readlink? ==> r.size > 0
  {
    match r
    case Getattr(path, _, _, _) => AttrAnswer(srv.attr(path))
    case Readlink(path, size, _, _, _) => LinkAnswer(ServedLink(srv.link(path), size))
    case Getdir(path, _, _, _, _) => DirAnswer(srv.dir(path).err, Names(srv.dir(path).entries))
    case Change(_, err, _) => ChangeAnswer(err)
  }

  /** The proxy with the cache switched on. */
  function Cached(cfg: Config, s: State, srv: Server, r: Request): (State, Answer)
    requires r.Readlink? ==> r.size > 0
  {
    match r
    case Getattr(path, at, effects, add) =>
      (match CachedAttr(s, path, at)
       case Some(reply) => (s, AttrAnswer(reply))
       case None =>
         var s1 := AfterEffects(cfg, s, path, NoFiller, effects);
         var s2 := match srv.attr(path)
                   case Found(stat) => AddedAttr(cfg, s1, path, Some(stat), add)
                   case NoEntry => AddedAttr(cfg, s1, path, None, add)
                   case AttrError(_) => s1;
         (s2, AttrAnswer(srv.attr(path))))
    case Readlink(path, size, at, effects, add) =>
      (match CachedLink(s, path, at)
       case Some(text) => (s, LinkAnswer(LinkText(Take(text, size - 1))))
       case None =>
         var s1 := AfterEffects(cfg, s, path, NoFiller, effects);
         var reply := ServedLink(srv.link(path), size);
         var s2 := match reply
                   case LinkText(text) => AddedLink(cfg, s1, path, text, size, add)
                   case LinkError(_) => s1;
         (s2, LinkAnswer(reply)))
    case Getdir(path, filler, at, effects, add) =>
      (match CachedDir(s, path, at)
       case Some(names) => (s, DirAnswer(0, names))
       case None =>
         var s1 := AfterEffects(cfg, s, path, filler, effects);
         var reply := srv.dir(path);
         var s2 := if reply.err == 0 then AddedDir(cfg, s1, path, Accepted(filler, reply.entries), add) else s1;
         (s2, DirAnswer(reply.err, Names(reply.entries))))
    case Change(m, err, _) =>
      (if err == 0 then Purged(s, Affected(m)) else s, ChangeAnswer(err))
  }

  function ServerAfter(srv: Server, r: Request): Server {
    if r.Change? then r.after else srv
  }
}
