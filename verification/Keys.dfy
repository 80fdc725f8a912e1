/** The cache keys that the different parts of the program build for one file. */
module Keys {
  import opened Wrappers
  import opened Cache
  import opened Listing
  import opened Prefetch
  import opened Paths

  /** The directory text that is handed to `parse_dir`: the URL from the last character of the host on. */
  function DirText(host: string, url: string): string
    requires 0 < |host| <= |url| + 1
  {
    url[|host| - 1..]
  }

  /** `ftpfs_getdir` lists `path`. */
  function GetdirText(host: string, path: Path): string
    requires host != "" && path != ""
  {
    UrlLongEnough(host, path[1..] + (if |path| > 1 then "/" else ""));
    assert host + path[1..] + (if |path| > 1 then "/" else "") == host + (path[1..] + (if |path| > 1 then "/" else ""));
    DirText(host, FulldirPath(host, path))
  }

  /** `ftpfs_getattr` lists the directory of `path`. */
  function GetattrText(host: string, path: Path): string
    requires host != "" && path != ""
  {
    var rest := path[1..];
    var off := match LastSlash(rest) case None => 0 case Some(i) => i;
    UrlLongEnough(host, rest[..off] + (if off > 0 then "/" else ""));
    assert host + rest[..off] + (if off > 0 then "/" else "") == host + (rest[..off] + (if off > 0 then "/" else ""));
    DirText(host, DirPath(host, path))
  }

  lemma UrlLongEnough(host: string, rest: string)
    ensures |host| <= |Encode(host + rest)|
  {
    EncodeLength(host + rest);
  }

  /** The host is put together with a slash at its end; its characters are as the user gave them. */
  predicate HostOk(host: string) {
    host != "" && host[|host| - 1] == '/'
  }

  /** The key `parse_dir` builds is cut out of the encoded URL at the length of the host as it was
      given: it has the right length exactly when nothing needed encoding. */
  lemma TextLength(host: string, rest: string)
    requires HostOk(host)
    ensures |host| <= |Encode(host + rest)|
    ensures |DirText(host, Encode(host + rest))| >= 1 + |rest|
    ensures |DirText(host, Encode(host + rest))| == 1 + |rest| <==> IsPlain(host) && IsPlain(rest)
  {
    UrlLongEnough(host, rest);
    EncodeAppend(host, rest);
    EncodeLength(host);
    EncodeLength(rest);
  }

  lemma FromTheSlash(host: string, rest: string)
    requires HostOk(host)
    ensures (host + rest)[|host| - 1..] == "/" + rest
  {
    assert host == host[..|host| - 1] + "/";
    assert host + rest == host[..|host| - 1] + ("/" + rest);
  }

  /** Below a plain host the text is the path with the slash in front. */
  lemma TextOfPlain(host: string, rest: string)
    requires HostOk(host) && IsPlain(host) && IsPlain(rest)
    ensures |host| <= |Encode(host + rest)| && DirText(host, Encode(host + rest)) == "/" + rest
  {
    UrlLongEnough(host, rest);
    EncodeAppend(host, rest);
    EncodeLength(host);
    EncodeLength(rest);
    FromTheSlash(host, rest);
  }

  /** What follows the host in the URL of a directory. */
  function Rest(dir: Path): string
    requires DirOk(dir)
  {
    dir[1..] + (if |dir| > 1 then "/" else "")
  }

  lemma RestIsPlain(dir: Path)
    requires DirOk(dir)
    ensures IsPlain(Rest(dir)) <==> IsPlain(dir)
  {
    assert dir == [dir[0]] + dir[1..];
    if |dir| > 1 { assert Rest(dir) == dir[1..] + "/"; }
    assert forall c :: c in dir ==> c == '/' || c in dir[1..];
    assert forall c :: c in dir[1..] ==> c in Rest(dir);
  }

  lemma GetdirTextIs(host: string, dir: Path)
    requires HostOk(host) && DirOk(dir)
    ensures |host| <= |Encode(host + Rest(dir))| && GetdirText(host, dir) == DirText(host, Encode(host + Rest(dir)))
  {
    UrlLongEnough(host, Rest(dir));
    assert host + dir[1..] + (if |dir| > 1 then "/" else "") == host + Rest(dir);
  }

  /** The key the directory filler uses. */
  lemma ChildKeyIs(dir: Path, name: string)
    requires DirOk(dir)
    ensures ChildKey(dir, name) == "/" + Rest(dir) + name && ChildKey(dir, name)[0] == '/'
  {
    if |dir| > 1 {
      assert dir + "/" + name == "/" + (dir[1..] + "/") + name;
    } else {
      assert dir == "/";
    }
  }

  /** The directory filler and `parse_dir` under `ftpfs_getdir` agree on the key of every entry
      exactly when neither the host nor the directory needs encoding. */
  lemma GetdirKeyAgreesExactlyWhen(host: string, dir: Path, name: string)
    requires HostOk(host) && DirOk(dir)
    ensures GetdirText(host, dir) + name == ChildKey(dir, name) <==> IsPlain(host) && IsPlain(dir)
  {
    GetdirTextIs(host, dir);
    ChildKeyIs(dir, name);
    RestIsPlain(dir);
    TextLength(host, Rest(dir));
    if IsPlain(host) && IsPlain(dir) {
      TextOfPlain(host, Rest(dir));
    } else {
      assert |GetdirText(host, dir) + name| > |ChildKey(dir, name)|;
    }
  }

  /** The listing that `ftpfs_getattr` reads for a child is that of its directory. */
  lemma GetattrTextIsGetdirText(host: string, dir: Path, name: string)
    requires HostOk(host) && DirOk(dir) && '/' !in name
    ensures GetattrText(host, ChildKey(dir, name)) == GetdirText(host, dir)
  {
    var path := ChildKey(dir, name);
    ChildKeyIs(dir, name);
    if |dir| > 1 {
      var rest := path[1..];
      assert rest == dir[1..] + "/" + name;
      assert rest[|dir|..] == name;
      LastSlashIs(rest, |dir| - 1);
      assert rest[..|dir| - 1] == dir[1..];
    } else {
      assert path[1..] == name;
      assert LastSlash(name) == None;
      assert host + name[..0] + "" == host + dir[1..] + "";
    }
  }

  /** Key agreement: the directory filler, `parse_dir` under `ftpfs_getdir` and `parse_dir` under
      `ftpfs_getattr` use one key for an entry exactly when host and directory are plain; purging
      the parent of the filler's key purges the directory. */
  lemma KeysAgree(host: string, dir: Path, name: string)
    requires HostOk(host) && DirOk(dir) && '/' !in name
    ensures GetattrText(host, ChildKey(dir, name)) + name == GetdirText(host, dir) + name
    ensures GetdirText(host, dir) + name == ChildKey(dir, name) <==> IsPlain(host) && IsPlain(dir)
    ensures Parent(ChildKey(dir, name)) == {dir}
  {
    GetdirKeyAgreesExactlyWhen(host, dir, name);
    GetattrTextIsGetdirText(host, dir, name);
    ParentOfChild(dir, name);
  }

  /** The query of `ftpfs_getattr(path)`: list the directory of the path and look for its name. */
  function GetattrQuery(host: string, dir: Path, name: string, prefix: string): Query
    requires host != "" && DirOk(dir)
  {
    ChildKeyIs(dir, name);
    Query(GetattrText(host, ChildKey(dir, name)), Some(name), true, 0, prefix, false, ChildKey(dir, name), NoFiller)
  }

  /** When `ftpfs_getattr` finds the entry in the listing, the cache answers with its attributes until
      the stat timeout, under the key that `parse_dir` builds.  That key is the path of the file
      exactly when host and directory are plain. */
  lemma GetattrFillsCache(cfg: Config, s: State, host: string, dir: Path, name: string, prefix: string,
                          list: string, parse: LineParser, clock: nat -> Tick, t: Time)
    requires HostOk(host) && DirOk(dir) && '/' !in name && name != ""
    requires ClockWithin(cfg, clock, 0, |Lines(list)|, t)
    requires GetattrResult(host, dir, name, prefix, list, parse).found
    ensures
      var q := GetattrQuery(host, dir, name, prefix);
      var after := AfterEffects(cfg, s, q.path, q.filler, Effects(q, parse, Lines(list), 0, clock));
      && CachedAttr(after, q.dir + name, t) ==
           Some(AttrReply.Found(GetattrResult(host, dir, name, prefix, list, parse).sbuf))
      && (q.dir + name == ChildKey(dir, name) <==> IsPlain(host) && IsPlain(dir))
  {
    var q := GetattrQuery(host, dir, name, prefix);
    KeysAgree(host, dir, name);
    ResultIsLookup(q, Outcome(false, ZERO_STAT, "", []), Entries(parse, Lines(list)), name);
    PrefetchIsExact(cfg, s, q, q, list, parse, clock, name, t);
  }

  /** What `ftpfs_getattr` gets from `parse_dir` for an entry of a directory. */
  function GetattrResult(host: string, dir: Path, name: string, prefix: string, list: string,
                         parse: LineParser): Outcome
    requires host != "" && DirOk(dir)
  {
    Result(GetattrQuery(host, dir, name, prefix), Outcome(false, ZERO_STAT, "", []), Entries(parse, Lines(list)))
  }
}
