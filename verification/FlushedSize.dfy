/** A flush and the cache: the size check of `ftpfs_flush` reads a listing, which fills the cache. */
module FlushedSize {
  import opened Wrappers
  import opened Cache
  import opened Listing
  import opened Prefetch
  import opened Paths
  import opened Keys
  import Upload
  import UploadCalls
  import UploadTheorems

  /** After a flush that closed an upload and succeeded, under every schedule of the two threads, the
      cache answers for the file with size `pos`, until the stat timeout.  The listing that the size
      check reads shows the file as the server has it.  The key of the answer is the path of the file
      exactly when host and directory are plain. */
  lemma FlushLeavesSizeInCache(cfg: Config, s: State, host: string, dir: Path, name: string, prefix: string,
                               list: string, parse: LineParser, clock: nat -> Tick, t: Time,
                               u0: Upload.State, acts: seq<Upload.Action>, u: Upload.State)
    requires Upload.Reachable(u0) && u0.c.Idle? && u0.writeConn && UploadTheorems.AllWork(acts)
    requires Upload.Exec(Upload.Step(u0, Upload.CallFlush).value, acts) == Some(u) && u.c == Upload.Idle(Upload.Done)
    requires HostOk(host) && DirOk(dir) && '/' !in name && name != ""
    requires ClockWithin(cfg, clock, 0, |Lines(list)|, t)
    requires
      var r := GetattrResult(host, dir, name, prefix, list, parse);
      r.found && r.sbuf.size == |u.remote|
    ensures
      var q := GetattrQuery(host, dir, name, prefix);
      var after := AfterEffects(cfg, s, q.path, q.filler, Effects(q, parse, Lines(list), 0, clock));
      var answer := CachedAttr(after, q.dir + name, t);
      && answer.Some? && answer.value.Found? && answer.value.stat.size == u.pos
      && (q.dir + name == ChildKey(dir, name) <==> IsPlain(host) && IsPlain(dir))
    ensures !u0.tampered ==> u.remote == u0.accepted
  {
    UploadCalls.FlushCall(u0, acts, u);
    GetattrFillsCache(cfg, s, host, dir, name, prefix, list, parse, clock, t);
  }
}
