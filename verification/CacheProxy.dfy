/** The proxy itself: the table that the operations of cache.c update in place. */
module CacheProxy {
  import opened Wrappers
  import opened Cache

  function Taken(filler: string -> bool, e: Effect): seq<string> {
    if e.Fill? && filler(e.name) then [e.name] else []
  }

  lemma {:induction false} AcceptedStep(filler: string -> bool, effects: seq<Effect>, before: seq<string>)
    requires effects != []
    ensures before + Accepted(filler, Fills(effects)) ==
            (before + Taken(filler, effects[0])) + Accepted(filler, Fills(effects[1..]))
  {
    if effects[0].Fill? {
      assert Fills(effects)[1..] == Fills(effects[1..]);
    } else {
      assert Fills(effects) == Fills(effects[1..]);
    }
    assert Accepted(filler, Fills(effects)) == Taken(filler, effects[0]) + Accepted(filler, Fills(effects[1..]));
  }

  lemma EffectsStep(cfg: Config, s: State, dir: Path, filler: string -> bool, effects: seq<Effect>)
    requires effects != []
    ensures AfterEffects(cfg, s, dir, filler, effects) ==
            AfterEffects(cfg, AfterEffect(cfg, s, dir, filler, effects[0]), dir, filler, effects[1..])
  {
  }

  lemma PutTwice(s: State, path: Path, first: Node, second: Node)
    ensures Put(Put(s, path, first), path, second) == Put(s, path, second)
  {
    assert s.table[path := first][path := second] == s.table[path := second];
  }

  class Proxy {
    const config: Config
    var table: map<Path, Node>
    var lastCleaned: Time

    constructor (config: Config)
      ensures this.config == config && Table() == State(map[], 0)
    {
      this.config := config;
      table := map[];
      lastCleaned := 0;
    }

    ghost function Table(): State
      reads this
    {
      State(table, lastCleaned)
    }

    // -------------------------------------------------------------- entries

    /** `cache_clean`. */
    method Clean(now: Time)
      modifies this
      ensures Table() == Cleaned(old(Table()), now)
      ensures forall p :: p in table <==>
                p in old(table) && (CleaningDue(old(Table()), now) ==> now <= old(table)[p].valid)
      ensures forall p :: p in table ==> table[p] == old(table)[p]
    {
      if now > lastCleaned + MIN_CACHE_CLEAN_INTERVAL &&
         (|table| > MAX_CACHE_SIZE || now > lastCleaned + CACHE_CLEAN_INTERVAL) {
        table := map p | p in table && now <= table[p].valid :: table[p];
        lastCleaned := now;
      }
    }

    /** `cache_get`: the node of a path, made if it is missing. */
    method Get(path: Path) returns (node: Node)
      modifies this`table
      ensures node == NodeAt(old(Table()), path) && Table() == Put(old(Table()), path, node)
    {
      if path !in table {
        table := table[path := NEW_NODE];
      }
      node := table[path];
    }

    /** Write a node back and sweep, as every addition does. */
    method Set(path: Path, node: Node, now: Time)
      modifies this
      ensures Table() == Cleaned(Put(old(Table()), path, node), now)
    {
      table := table[path := node];
      Clean(now);
    }

    /** `cache_add_attr`; no attribute means that the path was not found. */
    method AddAttr(path: Path, stat: Option<Stat>, at: Tick)
      modifies this
      ensures Table() == AddedAttr(config, old(Table()), path, stat, at)
    {
      var node := Get(path);
      ghost var found := node;
      match stat {
        case Some(st) => node := node.(stat := st, notFound := false);
        case None => node := node.(notFound := true);
      }
      node := node.(statValid := at.now + config.statTimeout);
      if node.statValid > node.valid {
        node := node.(valid := node.statValid);
      }
      PutTwice(old(Table()), path, found, node);
      Set(path, node, at.cleanNow);
    }

    /** `cache_add_dir`. */
    method AddDir(path: Path, names: seq<string>, at: Tick)
      modifies this
      ensures Table() == AddedDir(config, old(Table()), path, names, at)
    {
      var node := Get(path);
      ghost var found := node;
      node := node.(dir := Some(names), notFound := false, dirValid := at.now + config.dirTimeout);
      if node.dirValid > node.valid {
        node := node.(valid := node.dirValid);
      }
      PutTwice(old(Table()), path, found, node);
      Set(path, node, at.cleanNow);
    }

    /** `cache_add_link`. */
    method AddLink(path: Path, text: string, size: nat, at: Tick)
      requires size > 0
      modifies this
      ensures Table() == AddedLink(config, old(Table()), path, text, size, at)
    {
      var node := Get(path);
      ghost var found := node;
      node := node.(link := Some(Take(text, size - 1)), notFound := false, linkValid := at.now + config.linkTimeout);
      if node.linkValid > node.valid {
        node := node.(valid := node.linkValid);
      }
      PutTwice(old(Table()), path, found, node);
      Set(path, node, at.cleanNow);
    }

    // -------------------------------------------------------------- invalidation

    /** `cache_purge_parent`. */
    method PurgeParent(path: Path)
      modifies this`table
      ensures Table() == Purged(old(Table()), Parent(path))
    {
      var slash := LastSlash(path);
      if slash.Some? {
        if slash.value == 0 {
          table := table - {"/"};
        } else {
          table := table - {path[..slash.value]};
        }
      }
    }

    /** `cache_invalidate`, `cache_invalidate_dir`, `cache_do_rename` and the pair that `cache_link`
        calls, for a change that succeeded. */
    method Invalidate(m: Mutation)
      modifies this`table
      ensures Table() == Purged(old(Table()), Affected(m))
    {
      match m {
        case Entry(path) =>
          table := table - {path};
          PurgeParent(path);
        case Inode(path) =>
          table := table - {path};
        case Rename(from, to) =>
          table := table - {from};
          table := table - {to};
          PurgeParent(from);
          PurgeParent(to);
        case Link(from, to) =>
          table := table - {from};
          table := table - {to};
          PurgeParent(to);
      }
    }

    /** Every mutating wrapper: change the server, and purge only when that succeeded. */
    method Mutate(m: Mutation, err: int) returns (answer: int)
      modifies this`table
      ensures answer == err
      ensures Table() == if err == 0 then Purged(old(Table()), Affected(m)) else old(Table())
      ensures forall p :: p in table ==> p in old(table) && table[p] == old(table)[p] && (err == 0 ==> !Touches(m, p))
      ensures PlainPaths(m) ==>
                forall p :: p in old(table) && p !in table ==> err == 0 && Touches(m, p)
    {
      forall p | Touches(m, p) ensures p in Affected(m) { TouchedIsPurged(m, p); }
      forall p | PlainPaths(m) && p in Affected(m) ensures Touches(m, p) { PurgedIsTouched(m, p); }
      if err == 0 {
        Invalidate(m);
      }
      answer := err;
    }

    // -------------------------------------------------------------- queries

    /** One thing the server reports on the way; a filled name is remembered if the filler takes it. */
    method ReceiveOne(dir: Path, filler: string -> bool, e: Effect) returns (names: seq<string>)
      modifies this
      ensures Table() == AfterEffect(config, old(Table()), dir, filler, e)
      ensures names == Taken(filler, e)
    {
      names := [];
      match e {
        case SetAttr(path, stat, at) => AddAttr(path, Some(stat), at);
        case SetLink(path, text, at) => AddLink(path, text, |text| + 1, at);
        case Fill(name, stat, at) =>
          if filler(name) {
            names := [name];
            AddAttr(ChildKey(dir, name), Some(stat), at);
          }
      }
    }

    /** What a request to the server leaves in the cache, and the names the filler accepted. */
    method Receive(dir: Path, filler: string -> bool, effects: seq<Effect>) returns (names: seq<string>)
      modifies this
      ensures Table() == AfterEffects(config, old(Table()), dir, filler, effects)
      ensures names == Accepted(filler, Fills(effects))
    {
      names := [];
      var rest := effects;
      ghost var end := AfterEffects(config, Table(), dir, filler, effects);
      ghost var all := Accepted(filler, Fills(effects));
      while rest != []
        invariant AfterEffects(config, Table(), dir, filler, rest) == end
        invariant names + Accepted(filler, Fills(rest)) == all
        decreases |rest|
      {
        AcceptedStep(filler, rest, names);
        EffectsStep(config, Table(), dir, filler, rest);
        var got := ReceiveOne(dir, filler, rest[0]);
        names := names + got;
        rest := rest[1..];
      }
    }

    /** `cache_get_attr`. */
    method GetAttr(path: Path, now: Time) returns (reply: Option<AttrReply>)
      ensures reply == CachedAttr(Table(), path, now)
      ensures reply.Some? <==> path in table && now <= table[path].statValid
      ensures reply.Some? ==> (reply.value == NoEntry <==> table[path].notFound)
    {
      reply := None;
      if path in table {
        var node := table[path];
        if node.statValid - now >= 0 {
          reply := Some(if node.notFound then NoEntry else Found(node.stat));
        }
      }
    }

    /** `cache_getattr` and `cache_fgetattr`. */
    method Getattr(path: Path, srv: Server, at: Time, effects: seq<Effect>, add: Tick) returns (reply: AttrReply)
      modifies this
      ensures (Table(), AttrAnswer(reply)) == Cached(config, old(Table()), srv, Request.Getattr(path, at, effects, add))
    {
      var cached := GetAttr(path, at);
      match cached {
        case Some(known) => return known;
        case None =>
          var _ := Receive(path, NoFiller, effects);
          reply := srv.attr(path);
          match reply {
            case Found(stat) => AddAttr(path, Some(stat), add);
            case NoEntry => AddAttr(path, None, add);
            case AttrError(_) =>
          }
      }
    }

    /** `cache_readlink`. */
    method Readlink(path: Path, size: nat, srv: Server, at: Time, effects: seq<Effect>, add: Tick)
      returns (reply: LinkReply)
      requires size > 0
      modifies this
      ensures (Table(), LinkAnswer(reply)) ==
              Cached(config, old(Table()), srv, Request.Readlink(path, size, at, effects, add))
    {
      var text := CachedLink(State(table, lastCleaned), path, at);
      if text.Some? {
        return LinkText(Take(text.value, size - 1));
      }
      var _ := Receive(path, NoFiller, effects);
      reply := ServedLink(srv.link(path), size);
      if reply.LinkText? {
        AddLink(path, reply.text, size, add);
      }
    }

    /** `cache_getdir`: from the table the names are handed to the filler one by one. */
    method Getdir(path: Path, filler: string -> bool, srv: Server, at: Time, effects: seq<Effect>, add: Tick)
      returns (err: int, names: seq<string>)
      requires Fills(effects) == srv.dir(path).entries
      modifies this
      ensures (Table(), DirAnswer(err, names)) ==
              Cached(config, old(Table()), srv, Request.Getdir(path, filler, at, effects, add))
    {
      if path in table && table[path].dir.Some? && table[path].dirValid - at >= 0 {
        var dir := table[path].dir.value;
        names := [];
        for i := 0 to |dir|
          invariant names == dir[..i]
        {
          names := names + [dir[i]];
        }
        assert dir[..|dir|] == dir;
        return 0, names;
      }
      var accepted := Receive(path, filler, effects);
      err := srv.dir(path).err;
      names := Names(srv.dir(path).entries);
      if err == 0 {
        AddDir(path, accepted, add);
      }
    }
  }
}
