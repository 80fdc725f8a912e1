/**
 Reading: many open handles, each with a sliding window into its file, share one libcurl
 connection (`ftpfs_read_chunk` and its callers).  A transfer delivers the bytes of one file in
 order, from the offset it was started at; metadata operations take the connection away.
 */
module ReadWindow {
  import opened Wrappers
  import opened Buffers

  const MAX_BUFFER_LEN: nat := 300 * 1024

  /** Unsigned 64-bit arithmetic (`size_t`). */
  function Wrap(x: int): nat {
    x % 0x1_0000_0000_0000_0000
  }

  lemma WrapSmall(x: int)
    requires 0 <= x < 0x1_0000_0000_0000_0000
    ensures Wrap(x) == x
  {
  }

  /** Offsets whose text fits the range buffer, and a bound on the other lengths. */
  const OFFSET_LIMIT: nat := 10_000_000_000_000
  const LENGTH_LIMIT: nat := 0x4000_0000_0000_0000

  /** The bytes of `file` in `[offset, offset + size)`, fewer at the end of the file. */
  function Slice(file: seq<Byte>, offset: nat, size: nat): seq<Byte> {
    if offset >= |file| then [] else file[offset..Min(offset + size, |file|)]
  }

  lemma SliceLength(file: seq<Byte>, offset: nat, size: nat)
    ensures |Slice(file, offset, size)| == if offset >= |file| then 0 else Min(size, |file| - offset)
  {
  }

  /** A window that ends where the stream stands grows by what the stream delivers. */
  lemma SliceExtends(file: seq<Byte>, offset: nat, size: nat, more: nat)
    requires |Slice(file, offset, size)| == size
    ensures Slice(file, offset, size) + Slice(file, offset + size, more)
         == Slice(file, offset, size + |Slice(file, offset + size, more)|)
  {
  }

  /** Part of an answer, and when it is the whole. */
  lemma SlicePrefix(file: seq<Byte>, offset: nat, size: nat, n: nat)
    requires n <= size && |Slice(file, offset, n)| == n
    ensures Slice(file, offset, n) <= Slice(file, offset, size)
    ensures n == size || offset + n >= |file| ==> Slice(file, offset, n) == Slice(file, offset, size)
  {
  }

  /** A part of a window is the slice at that part's offset. */
  lemma SliceOfSlice(file: seq<Byte>, offset: nat, size: nat, skip: nat, n: nat)
    requires |Slice(file, offset, size)| == size && skip + n <= size
    ensures Slice(file, offset, size)[skip..skip + n] == Slice(file, offset + skip, n)
  {
  }

  /** What is left of a file behind its first `n` bytes. */
  function Rest(file: seq<Byte>, n: nat): seq<Byte> {
    if n >= |file| then [] else file[n..]
  }

  lemma SliceOfRest(file: seq<Byte>, n: nat, offset: nat, size: nat)
    ensures Slice(Rest(file, n), offset, size) == Slice(file, offset + n, size)
  {
  }

  /** Two files answer every request alike exactly when they are the same. */
  lemma SlicesTellFiles(a: seq<Byte>, b: seq<Byte>)
    ensures (forall offset: nat, size: nat :: Slice(a, offset, size) == Slice(b, offset, size)) <==> a == b
  {
    if forall offset: nat, size: nat :: Slice(a, offset, size) == Slice(b, offset, size) {
      assert Slice(a, 0, |a| + |b|) == Slice(b, 0, |a| + |b|);
      assert Slice(a, 0, |a| + |b|) == a && Slice(b, 0, |a| + |b|) == b;
    }
  }

  /** What one batch of `curl_multi_perform` calls brings. */
  datatype End = Continues | EndsWell | EndsBadly
  datatype Batch = Batch(bytes: nat, end: End)
  datatype Poll = SelectFails | Polled(batch: Batch)

  /** Everything the network does during one read: the batch inside `check_running`, the first
      batch, and the batches of the polling loop.  A call that outlives its polls is one whose
      `select` fails. */
  datatype Network = Network(check: Batch, first: Batch, polls: seq<Poll>)

  /** A running transfer: the file it reads, whether that exists, and the position of its next byte. */
  datatype Stream = Stream(file: seq<Byte>, isFile: bool, pos: nat)

  function After(s: Stream, bytes: nat): Stream {
    s.(pos := s.pos + |Slice(s.file, s.pos, bytes)|)
  }

  /** The transfer ends well after this batch: libcurl says so, and nothing of the file is left. */
  predicate EndsAt(s: Stream, b: Batch) {
    b.end == EndsWell && s.isFile && After(s, b.bytes).pos >= |s.file|
  }

  /** The transfer is over after this batch. */
  predicate Stops(s: Stream, b: Batch) {
    b.end == EndsBadly || EndsAt(s, b)
  }

  /** From `s` on, the batch and what the polls bring reach `want` or the end of the file. */
  predicate Brings(s: Stream, want: nat, first: Batch, polls: seq<Poll>)
    decreases |polls|, 1
  {
    first.end != EndsBadly && (EndsAt(s, first) || Reaches(After(s, first.bytes), want, polls))
  }

  predicate Reaches(s: Stream, want: nat, polls: seq<Poll>)
    decreases |polls|, 0
  {
    s.pos >= want ||
    (polls != [] && polls[0].Polled? && Brings(s, want, polls[0].batch, polls[1..]))
  }

  lemma ReachesStep(s: Stream, want: nat, polls: seq<Poll>, i: nat)
    requires i <= |polls| && s.pos < want
    ensures Reaches(s, want, polls[i..]) <==>
              i < |polls| && polls[i].Polled? && Brings(s, want, polls[i].batch, polls[i + 1..])
  {
    if i < |polls| { assert polls[i..][0] == polls[i] && polls[i..][1..] == polls[i + 1..]; }
  }

  /** No `select` fails and no batch ends badly. */
  predicate Smooth(polls: seq<Poll>) {
    forall i :: 0 <= i < |polls| ==> polls[i].Polled? && polls[i].batch.end != EndsBadly
  }

  function Total(polls: seq<Poll>): nat
    requires Smooth(polls)
  {
    if polls == [] then 0 else polls[0].batch.bytes + Total(polls[1..])
  }

  /** After the first `n` polls nothing of the file is left, and the last of them ends the transfer well. */
  predicate EndsBy(s: Stream, polls: seq<Poll>, n: nat)
    requires Smooth(polls)
  {
    0 < n <= |polls| && polls[n - 1].batch.end == EndsWell && s.isFile && After(s, Total(polls[..n])).pos >= |s.file|
  }

  lemma AfterTwice(s: Stream, a: nat, b: nat)
    ensures After(After(s, a), b) == After(s, a + b)
  {
  }

  lemma EndsByStep(s: Stream, polls: seq<Poll>, n: nat)
    requires Smooth(polls) && 1 < n <= |polls|
    ensures EndsBy(s, polls, n) <==> EndsBy(After(s, polls[0].batch.bytes), polls[1..], n - 1)
  {
    assert polls[..n][0] == polls[0] && polls[..n][1..] == polls[1..][..n - 1];
    AfterTwice(s, polls[0].batch.bytes, Total(polls[1..][..n - 1]));
  }

  lemma EndsByFirst(s: Stream, polls: seq<Poll>)
    requires Smooth(polls) && polls != []
    ensures EndsBy(s, polls, 1) <==> EndsAt(s, polls[0].batch)
  {
    assert polls[..1] == [polls[0]] && [polls[0]][1..] == [];
    assert Total(polls[..1]) == polls[0].batch.bytes;
  }

  /** The same for the batch that is always awaited, and the polls after it. */
  lemma BringsExactlyWhen(s: Stream, want: nat, first: Batch, polls: seq<Poll>)
    requires Smooth([Polled(first)] + polls)
    ensures
      var all := [Polled(first)] + polls;
      Brings(s, want, first, polls) <==> After(s, Total(all)).pos >= want || exists n: nat :: EndsBy(s, all, n)
  {
    var all := [Polled(first)] + polls;
    assert all[0] == Polled(first) && all[1..] == polls;
    assert forall i :: 0 <= i < |polls| ==> polls[i] == all[i + 1];
    ReachesExactlyWhen(s, want, all);
    if s.pos >= want && !EndsAt(s, first) {
      assert After(s, first.bytes).pos >= want;
    }
  }

  /** When the network is smooth, what is wanted is reached exactly when all batches together bring it,
      or one of them ends the transfer well at the end of the file. */
  lemma {:induction false} ReachesExactlyWhen(s: Stream, want: nat, polls: seq<Poll>)
    requires Smooth(polls)
    ensures Reaches(s, want, polls) <==>
              After(s, Total(polls)).pos >= want || exists n: nat :: EndsBy(s, polls, n)
    decreases |polls|
  {
    if polls != [] {
      var s', rest := After(s, polls[0].batch.bytes), polls[1..];
      ReachesExactlyWhen(s', want, rest);
      AfterTwice(s, polls[0].batch.bytes, Total(rest));
      EndsByFirst(s, polls);
      if n: nat :| EndsBy(s, polls, n) && n > 1 { EndsByStep(s, polls, n); }
      if n: nat :| EndsBy(s', rest, n) { EndsByStep(s, polls, n + 1); }
    }
  }

  predicate WithinBatch(net: Network, most: nat) {
    && net.check.bytes <= most && net.first.bytes <= most
    && forall i :: 0 <= i < |net.polls| && net.polls[i].Polled? ==> net.polls[i].batch.bytes <= most
  }

  function Max(a: nat, b: nat): nat {
    if a < b then b else a
  }

  /** A file from its byte `shift` on. */
  datatype Source = Source(file: seq<Byte>, shift: nat)

  function Part(source: Source, offset: nat, size: nat): seq<Byte> {
    Slice(source.file, offset + source.shift, size)
  }

  lemma PartLength(source: Source, offset: nat, size: nat)
    ensures
      var n := |Part(source, offset, size)|;
      && n <= size && (n == size || offset + n + source.shift >= |source.file|)
      && (n == size > 0 ==> offset + size + source.shift <= |source.file|)
  {
    SliceLength(source.file, offset + source.shift, size);
  }

  lemma PartExtends(source: Source, offset: nat, size: nat, more: nat)
    requires |Part(source, offset, size)| == size
    ensures Part(source, offset, size) + Part(source, offset + size, more)
         == Part(source, offset, size + |Part(source, offset + size, more)|)
  {
    SliceExtends(source.file, offset + source.shift, size, more);
  }

  /** A window to which the next part was appended shows the longer part. */
  lemma WindowGrows(source: Source, begin: nat, len: nat, before: seq<Byte>, more: nat, window: seq<Byte>)
    requires |before| == len && before == Part(source, begin, len)
    requires window == before + Part(source, begin + len, more)
    ensures window == Part(source, begin, |window|) && |window| <= len + more
  {
    PartLength(source, begin + len, more);
    PartExtends(source, begin, len, more);
  }

  lemma PartOfPart(source: Source, offset: nat, size: nat, skip: nat, n: nat)
    requires |Part(source, offset, size)| == size && skip + n <= size
    ensures Part(source, offset, size)[skip..skip + n] == Part(source, offset + skip, n)
  {
    SliceOfSlice(source.file, offset + source.shift, size, skip, n);
  }

  /** A window that lost its front shows the rest. */
  lemma WindowShrinks(source: Source, begin: nat, window: seq<Byte>, skip: nat)
    requires window == Part(source, begin, |window|) && skip <= |window|
    ensures window[skip..] == Part(source, begin + skip, |window| - skip)
    ensures window != [] ==> begin + |window| <= |source.file|
  {
    PartLength(source, begin, |window|);
    PartOfPart(source, begin, |window|, skip, |window| - skip);
    assert window[skip..] == window[skip..skip + (|window| - skip)];
  }

  /** A part that is long enough, or reaches the end, is the whole answer. */
  lemma PartAnswers(source: Source, offset: nat, size: nat, n: nat)
    requires n <= size && |Part(source, offset, n)| == n
    ensures Part(source, offset, n) <= Part(source, offset, size)
    ensures n == size || offset + n + source.shift >= |source.file| ==>
              Part(source, offset, n) == Part(source, offset, size)
  {
    SlicePrefix(source.file, offset + source.shift, size, n);
  }

  /** What a window has from `skip` on, up to `size` bytes, is a prefix of the answer, and the whole of
      it if the window reaches far enough or to the end. */
  lemma WindowAnswers(source: Source, begin: nat, window: seq<Byte>, skip: nat, size: nat, n: nat)
    requires window == Part(source, begin, |window|) && skip <= |window| && n == Min(size, |window| - skip)
    ensures window[skip..skip + n] <= Part(source, begin + skip, size)
    ensures n == size || begin + |window| + source.shift >= |source.file| ==>
              window[skip..skip + n] == Part(source, begin + skip, size)
  {
    PartOfPart(source, begin, |window|, skip, n);
    PartAnswers(source, begin + skip, size, n);
  }

  /** `struct ftpfs_file`.  The block of a handle that was freed can become the next handle, so its
      fields change; the window is part of the block.  `source` tells what the window and the stream
      of the handle are taken from. */
  class FileHandle {
    var path: string
    var canShrink: bool
    const buf: Buffer
    var lastOffset: nat
    ghost var source: Source

    constructor (path: string, canShrink: bool, ghost source: Source)
      ensures this.path == path && this.canShrink == canShrink && this.source == source
      ensures fresh(buf) && buf.Valid() && buf.len == 0 && buf.beginOffset == 0 && fresh(buf.p)
      ensures buf.Contents() == []
    {
      this.path := path;
      this.canShrink := canShrink;
      buf := new Buffer();
      lastOffset := 0;
      this.source := source;
    }
  }

  class FtpFs {
    const files: map<string, seq<Byte>>
    ghost var handles: set<FileHandle>
    var currentFh: FileHandle?
    var attached: bool
    // the options of the shared connection and the state of its transfer
    var range: Option<nat>
    var streamPath: string
    var streamPos: nat
    var target: Buffer?
    var running: bool
    var message: Option<bool>

    function Content(path: string): seq<Byte> {
      if path in files then files[path] else []
    }

    /** The window reaches to the end of its source. */
    ghost predicate Ended(h: FileHandle)
      reads h`source, h.buf
    {
      h.buf.End() + h.source.shift >= |h.source.file|
    }

    /** What a handle reads is what its file has. */
    ghost predicate Faithful(h: FileHandle)
      reads h`source, h`path
    {
      Rest(h.source.file, h.source.shift) == Content(h.path)
    }

    /** Its source is simply its own file. */
    ghost predicate Right(h: FileHandle)
      reads h`source, h`path
    {
      h.source == Source(Content(h.path), 0)
    }

    /** The window of a handle shows its source. */
    ghost predicate WindowOk(h: FileHandle)
      reads h`source, h.buf, h.buf.p
    {
      && h.buf.Valid()
      && h.buf.Contents() == Part(h.source, h.buf.beginOffset, h.buf.len)
      && h.buf.beginOffset <= Max(OFFSET_LIMIT, |h.source.file|) && |h.source.file| < LENGTH_LIMIT
    }

    /** The stream that is delivering goes to the block of the current handle, and if that handle is
        open it continues its window. */
    ghost predicate StreamOk()
      reads this, handles, set h | h in handles :: h.buf
    {
      && (running && currentFh != null ==> target == currentFh.buf)
      && (currentFh in handles && running ==>
            Content(streamPath) == currentFh.source.file && streamPos == currentFh.buf.End() + currentFh.source.shift)
    }

    ghost predicate Separate()
      reads this, handles, set h | h in handles :: h.buf
    {
      forall g, h :: g in handles && h in handles && g != h ==> g.buf != h.buf && g.buf.p != h.buf.p
    }

    ghost predicate Valid()
      reads this, handles, set h | h in handles :: h.buf, set h | h in handles :: h.buf.p
    {
      && (forall path :: path in files ==> |files[path]| < LENGTH_LIMIT)
      && (forall h :: h in handles ==> WindowOk(h))
      && Separate()
      && StreamOk()
      && range == None && message == None
      && (running ==> attached)
    }

    ghost predicate Bounded(most: nat)
      reads this, handles, set h | h in handles :: h.buf
    {
      forall h :: h in handles && h.canShrink ==> h.buf.len <= Max(MAX_BUFFER_LEN, 2 * most)
    }

    constructor (files: map<string, seq<Byte>>)
      requires forall path :: path in files ==> |files[path]| < LENGTH_LIMIT
      ensures Valid() && handles == {} && this.files == files
    {
      this.files := files;
      handles := {};
      currentFh := null;
      attached, running := false, false;
      range, message := None, None;
      streamPath, streamPos := "", 0;
      target := null;
    }

    /** `cancel_previous_multi`. */
    method CancelPreviousMulti()
      requires running ==> attached
      modifies this`attached, this`running, this`message
      ensures !attached && !running
      ensures message == if old(attached) then None else old(message)
    {
      if !attached {
        return;
      }
      attached := false;
      running := false;
      message := None;
    }

    /** One batch of `curl_multi_perform`: the transfer hands its next bytes to `read_data`.  It
        reports success only after the last byte of an existing file. */
    method MultiPerform(batch: Batch) returns (handlesRunning: bool)
      requires running ==> target != null && target.Valid()
      modifies this`streamPos, this`running, this`message, target, if target == null then {} else {target.p}
      ensures handlesRunning == running && (running ==> old(running))
      ensures old(running) ==> (running <==> !Stops(old(Now()), batch))
      ensures old(running) && !running ==> message == Some(batch.end != EndsBadly)
      ensures !old(running) ==>
                unchanged(this) && (target != null ==> unchanged(target) && unchanged(target.p))
      ensures old(running) ==>
                var arrived := Slice(Content(streamPath), old(streamPos), batch.bytes);
                && target.Valid() && target.Contents() == old(target.Contents()) + arrived
                && target.len == old(target.len) + |arrived| && target.beginOffset == old(target.beginOffset)
                && (target.p == old(target.p) || fresh(target.p))
                && streamPos == old(streamPos) + |arrived|
                && (running ==> message == old(message))
                && (!running ==> message.Some?)
                && (message == Some(true) && !running ==> streamPos >= |Content(streamPath)|)
    {
      if !running {
        return false;
      }
      var arrived := Slice(Content(streamPath), streamPos, batch.bytes);
      target.AddMem(arrived);
      streamPos := streamPos + |arrived|;
      if batch.end == EndsBadly {
        running := false;
        message := Some(false);
      } else if batch.end == EndsWell && streamPath in files && streamPos >= |Content(streamPath)| {
        running := false;
        message := Some(true);
      }
      return running;
    }

    /** The transfer as it stands. */
    ghost function Now(): Stream
      reads this
    {
      Stream(Content(streamPath), streamPath in files, streamPos)
    }

    /** The window of `fh` and the stream that feeds it, while one read is in progress. */
    ghost predicate Feeding(fh: FileHandle)
      reads this, fh`source, fh.buf, fh.buf.p
    {
      && WindowOk(fh)
      && (running ==> attached && message == None)
      && (running ==> target == fh.buf && Content(streamPath) == fh.source.file)
      && (running ==> streamPos == fh.buf.End() + fh.source.shift)
      && (!running && message == Some(true) ==> Ended(fh))
    }

    /** A batch delivers to the window of the current handle. */
    method Feed(fh: FileHandle, batch: Batch) returns (handlesRunning: bool)
      requires Feeding(fh)
      modifies this`streamPos, this`running, this`message, fh.buf, fh.buf.p
      ensures Feeding(fh) && handlesRunning == running
      ensures fh.buf.beginOffset == old(fh.buf.beginOffset)
      ensures old(fh.buf.len) <= fh.buf.len <= old(fh.buf.len) + batch.bytes
      ensures old(running) ==> fh.buf.len == old(fh.buf.len + |Part(fh.source, fh.buf.End(), batch.bytes)|)
      ensures fh.buf.p == old(fh.buf.p) || fresh(fh.buf.p)
      ensures old(running) && !running ==> message.Some?
      ensures old(running) ==> Now() == After(old(Now()), batch.bytes) && (running <==> !Stops(old(Now()), batch))
      ensures old(running) && !running ==> message == Some(batch.end != EndsBadly)
      ensures !old(running) ==> !running && message == old(message)
    {
      if running {
        ghost var before, len := fh.buf.Contents(), fh.buf.len;
        handlesRunning := MultiPerform(batch);
        WindowGrows(fh.source, fh.buf.beginOffset, len, before, batch.bytes, fh.buf.Contents());
      } else {
        handlesRunning := false;
      }
    }

    /** An empty window at `offset` of the own file. */
    method EmptyWindow(fh: FileHandle, offset: nat)
      requires offset < OFFSET_LIMIT && |Content(fh.path)| < LENGTH_LIMIT
      modifies fh.buf, fh`source
      ensures WindowOk(fh) && fh.buf.beginOffset == offset && fh.buf.len == 0 && fresh(fh.buf.p)
      ensures Right(fh)
    {
      fh.source := Source(Content(fh.path), 0);
      fh.buf.Clear();
      fh.buf.beginOffset := offset;
      assert fh.buf.Contents() == [] && Part(fh.source, offset, 0) == [];
    }

    /** Hand the connection to `fh` and start a transfer at `offset`. */
    method Attach(fh: FileHandle, offset: nat)
      requires (running ==> attached) && range == None
      modifies this
      ensures attached && running && message == None && currentFh == fh && handles == old(handles)
      ensures target == fh.buf && streamPath == fh.path && streamPos == offset
      ensures range == if offset == 0 then None else Some(offset)
    {
      currentFh := fh;
      CancelPreviousMulti();
      streamPath := fh.path;
      target := fh.buf;
      if offset != 0 {
        range := Some(offset);
      }
      attached, running, message := true, true, None;
      streamPos := match range case None => 0 case Some(at) => at;
    }

    /** One batch, which does not end the transfer, and then `select` fails. */
    predicate OneBatch(net: Network) {
      net.first.end.Continues? && net.polls == []
    }

    /** Neither `select` nor the transfer has failed. */
    predicate Fine(failed: bool)
      reads this`running, this`message
    {
      !failed && (running || message == Some(true))
    }

    /** Whether the polls to come lead to what is wanted, or the transfer has ended well. */
    ghost predicate Prospect(want: nat, polls: seq<Poll>)
      reads this
    {
      if running then Reaches(Now(), want, polls) else message == Some(true)
    }

    /** One batch of the polling loop. */
    method PollOnce(fh: FileHandle, batch: Batch, ghost want: nat, ghost rest: seq<Poll>) returns (stillRunning: bool)
      requires Feeding(fh) && running
      modifies this`streamPos, this`running, this`message, fh.buf, fh.buf.p
      ensures Feeding(fh) && stillRunning == running && (running || message.Some?)
      ensures fh.buf.beginOffset == old(fh.buf.beginOffset)
      ensures old(fh.buf.len) <= fh.buf.len <= old(fh.buf.len) + batch.bytes
      ensures fh.buf.p == old(fh.buf.p) || fresh(fh.buf.p)
      ensures Prospect(want, rest) <==> Brings(old(Now()), want, batch, rest)
    {
      stillRunning := Feed(fh, batch);
    }

    /** The polling loop: wait until the window reaches `offset + size` or the transfer ends. */
    method PollUntil(fh: FileHandle, size: nat, offset: nat, handlesRunning: bool, polls: seq<Poll>, ghost most: nat)
      returns (failed: bool, stillRunning: bool)
      requires Feeding(fh) && handlesRunning == running && offset < OFFSET_LIMIT && size < LENGTH_LIMIT
      requires fh.buf.beginOffset <= offset <= fh.buf.End() <= offset + size + 2 * most
      requires forall i :: 0 <= i < |polls| && polls[i].Polled? ==> polls[i].batch.bytes <= most
      requires running || message.Some?
      modifies this`streamPos, this`running, this`message, fh.buf, fh.buf.p
      ensures Feeding(fh) && stillRunning == running && (running || message.Some?)
      ensures fh.buf.beginOffset == old(fh.buf.beginOffset)
      ensures offset <= fh.buf.End() <= offset + size + 2 * most
      ensures fh.buf.p == old(fh.buf.p) || fresh(fh.buf.p)
      ensures !failed && running ==> fh.buf.End() >= offset + size
      ensures polls == [] ==> running == old(running) && streamPos == old(streamPos)
      ensures Fine(failed) <==> old(Prospect(offset + size + fh.source.shift, polls))
    {
      failed := false;
      stillRunning := handlesRunning;
      var i := 0;
      ghost var want, begin := offset + size + fh.source.shift, fh.buf.beginOffset;
      ghost var prospect, pos := Prospect(want, polls), streamPos;
      WrapSmall(size + offset - fh.buf.beginOffset);
      while fh.buf.len < Wrap(size + offset - fh.buf.beginOffset) && stillRunning
        invariant 0 <= i <= |polls|
        invariant Feeding(fh) && stillRunning == running && (running || message.Some?)
        invariant fh.buf.beginOffset == begin
        invariant offset <= fh.buf.End() <= offset + size + 2 * most
        invariant fh.buf.p == old(fh.buf.p) || fresh(fh.buf.p)
        invariant i == 0 ==> running == handlesRunning && streamPos == pos
        invariant Prospect(want, polls[i..]) == prospect
        decreases |polls| - i
      {
        if i == |polls| || polls[i].SelectFails? {
          failed := true;
          break;
        }
        ReachesStep(Now(), want, polls, i);
        stillRunning := PollOnce(fh, polls[i].batch, want, polls[i + 1..]);
        i := i + 1;
      }
    }

    /** The window cannot answer the request. */
    predicate Misses(fh: FileHandle, size: nat, offset: nat)
      reads fh.buf
    {
      !(fh.buf.beginOffset <= offset && offset + size <= fh.buf.End())
    }

    /** The running stream of the handle goes on: the batch in `check_running` does not end it. */
    ghost predicate GoesOn(fh: FileHandle, offset: nat, net: Network)
      reads this, fh.buf
    {
      currentFh == fh && running && fh.buf.beginOffset <= offset <= fh.buf.End() && !Stops(Now(), net.check)
    }

    /** The stream that is asked: the one that goes on, or a new one from `offset` of the own file. */
    ghost function Asked(fh: FileHandle, offset: nat, net: Network): Stream
      reads this, fh`path, fh.buf
    {
      if GoesOn(fh, offset, net) then After(Now(), net.check.bytes)
      else Stream(Content(fh.path), fh.path in files, offset)
    }

    /** The network answers a request that the window cannot answer. */
    ghost predicate Answers(fh: FileHandle, size: nat, offset: nat, net: Network)
      reads this, fh`source, fh`path, fh.buf
    {
      var shift := if GoesOn(fh, offset, net) then fh.source.shift else 0;
      Brings(Asked(fh, offset, net), offset + size + shift, net.first, net.polls)
    }

    /** A request is answered: from the window or by the network. */
    ghost predicate Succeeds(fh: FileHandle, size: nat, offset: nat, net: Network)
      reads this, fh`source, fh`path, fh.buf
    {
      !Misses(fh, size, offset) || Answers(fh, size, offset, net)
    }

    /** Lines 232-263: keep the running stream if it continues this window, else start a new one. */
    method EnsureStream(fh: FileHandle, size: nat, offset: nat, net: Network, ghost most: nat)
      requires Valid() && fh in handles && offset < OFFSET_LIMIT && net.check.bytes <= most && Misses(fh, size, offset)
      modifies this, fh.buf, fh.buf.p, fh`source
      ensures Feeding(fh) && running && currentFh == fh && handles == old(handles)
      ensures fh.buf.beginOffset <= offset <= fh.buf.End() <= offset + size + most
      ensures fh.buf.p == old(fh.buf.p) || fresh(fh.buf.p)
      ensures fh.source == old(fh.source) || Right(fh)
      ensures old(GoesOn(fh, offset, net)) ==>
                fh.source == old(fh.source) &&
                fh.buf.End() == old(fh.buf.End() + |Part(fh.source, fh.buf.End(), net.check.bytes)|)
      ensures old(!GoesOn(fh, offset, net)) ==> Right(fh) && fh.buf.End() == offset && streamPath == fh.path
      ensures Now() == old(Asked(fh, offset, net))
    {
      var restart := currentFh != fh || offset < fh.buf.beginOffset || offset > fh.buf.End();
      if !restart {
        var handlesRunning := Feed(fh, net.check);
        restart := !handlesRunning;
      }
      if restart {
        EmptyWindow(fh, offset);
        Attach(fh, offset);
      }
    }

    /** Lines 265-312: wait for the stream and see how it fared. */
    method Await(fh: FileHandle, size: nat, offset: nat, net: Network, ghost most: nat) returns (err: bool)
      requires Feeding(fh) && running && offset < OFFSET_LIMIT && size < LENGTH_LIMIT && WithinBatch(net, most)
      requires fh.buf.beginOffset <= offset <= fh.buf.End() <= offset + size + most
      modifies this`range, this`streamPos, this`running, this`message, fh.buf, fh.buf.p
      ensures Feeding(fh) && range == None && message == None
      ensures fh.buf.beginOffset <= offset <= fh.buf.End() <= offset + size + 2 * most
      ensures fh.buf.p == old(fh.buf.p) || fresh(fh.buf.p)
      ensures !err ==> fh.buf.End() >= offset + size || Ended(fh)
      ensures OneBatch(net) ==> running && Now() == After(old(Now()), net.first.bytes)
      ensures !err <==> Brings(old(Now()), offset + size + fh.source.shift, net.first, net.polls)
    {
      var stillRunning := Feed(fh, net.first);
      range := None;
      err, stillRunning := PollUntil(fh, size, offset, stillRunning, net.polls, most);
      err := TakeMessage(fh, err, stillRunning);
    }

    /** The part of `ftpfs_read_chunk` that runs when the window cannot answer. */
    method Fetch(fh: FileHandle, size: nat, offset: nat, net: Network, ghost most: nat) returns (err: bool)
      requires Valid() && fh in handles && offset < OFFSET_LIMIT && size < LENGTH_LIMIT
      requires WithinBatch(net, most) && Misses(fh, size, offset)
      modifies this, fh.buf, fh.buf.p, fh`source
      ensures Feeding(fh) && currentFh == fh && handles == old(handles) && range == None && message == None
      ensures fh.buf.beginOffset <= offset <= fh.buf.End() <= offset + size + 2 * most
      ensures fh.buf.p == old(fh.buf.p) || fresh(fh.buf.p)
      ensures !err ==> fh.buf.End() >= offset + size || Ended(fh)
      ensures fh.source == old(fh.source) || Right(fh)
      ensures old(GoesOn(fh, offset, net)) ==> fh.source == old(fh.source)
      ensures !err <==> old(Answers(fh, size, offset, net))
      ensures OneBatch(net) ==> running && Now() == After(old(Asked(fh, offset, net)), net.first.bytes)
    {
      EnsureStream(fh, size, offset, net, most);
      err := Await(fh, size, offset, net, most);
    }

    /** Lines 300-312: a transfer that has ended says how. */
    method TakeMessage(fh: FileHandle, failed: bool, stillRunning: bool) returns (err: bool)
      requires Feeding(fh) && stillRunning == running && (running || message.Some?)
      modifies this`message
      ensures Feeding(fh) && message == None
      ensures running ==> err == failed
      ensures !running ==> err == (failed || old(message) != Some(true))
    {
      err := failed;
      if !stillRunning {
        if message != Some(true) {
          err := true;
        }
        message := None;
      }
    }

    /** Lines 314-318: the bytes the window can give for this request. */
    method CopyOut(fh: FileHandle, size: nat, offset: nat) returns (bytes: seq<Byte>, toCopy: nat)
      requires WindowOk(fh) && fh.buf.beginOffset <= offset <= fh.buf.End() && offset < OFFSET_LIMIT
      requires size < LENGTH_LIMIT
      ensures toCopy == fh.buf.End() - offset && |bytes| == Min(size, toCopy)
      ensures bytes <= Part(fh.source, offset, size)
      ensures fh.buf.End() >= offset + size || Ended(fh) ==> bytes == Part(fh.source, offset, size)
    {
      assert fh.buf.len < LENGTH_LIMIT by { PartLength(fh.source, fh.buf.beginOffset, fh.buf.len); }
      toCopy := Wrap(fh.buf.len + fh.buf.beginOffset - offset);
      WrapSmall(fh.buf.len + fh.buf.beginOffset - offset);
      var n := if size > toCopy then toCopy else size;
      var skip := offset - fh.buf.beginOffset;
      bytes := fh.buf.Copy(skip, n);
      WindowAnswers(fh.source, fh.buf.beginOffset, fh.buf.Contents(), skip, size, n);
    }

    /** The window without its first bytes. */
    method DropRead(fh: FileHandle, skip: nat)
      requires WindowOk(fh) && 0 < fh.buf.len && skip <= fh.buf.len
      modifies fh.buf, fh.buf.p
      ensures WindowOk(fh) && fh.buf.p == old(fh.buf.p)
      ensures fh.buf.beginOffset == old(fh.buf.beginOffset) + skip && fh.buf.len == old(fh.buf.len) - skip
    {
      ghost var shown := fh.buf.Contents();
      WindowShrinks(fh.source, fh.buf.beginOffset, shown, skip);
      fh.buf.DropFront(skip);
      assert fh.buf.Contents() == shown[skip..];
    }

    /** Lines 324-333: drop what has been read from a window that has become too long. */
    method Shrink(fh: FileHandle, offset: nat, n: nat)
      requires WindowOk(fh) && fh.buf.beginOffset <= offset && offset + n <= fh.buf.End()
      requires offset < OFFSET_LIMIT
      modifies fh.buf, fh.buf.p
      ensures WindowOk(fh) && fh.buf.End() == old(fh.buf.End()) && fh.buf.p == old(fh.buf.p)
      ensures if fh.canShrink && old(fh.buf.len) > MAX_BUFFER_LEN
              then fh.buf.beginOffset == offset + n else unchanged(fh.buf)
    {
      if fh.canShrink && fh.buf.len > MAX_BUFFER_LEN {
        DropRead(fh, offset - fh.buf.beginOffset + n);
      }
    }

    /** An operation that touches one handle's window and the connection leaves the rest intact. */
    twostate lemma OneHandleChanged(fh: FileHandle)
      requires old(Valid()) && fh in old(handles) && handles == old(handles)
      requires forall h :: h in handles && h != fh ==> unchanged(h) && unchanged(h.buf) && unchanged(h.buf.p)
      requires WindowOk(fh) && (fh.buf.p == old(fh.buf.p) || fresh(fh.buf.p))
      requires StreamOk() && range == None && message == None && (running ==> attached)
      ensures Valid()
    {
      forall h | h in handles ensures WindowOk(h) {
        if h != fh { assert old(WindowOk(h)); }
      }
      forall g, h | g in handles && h in handles && g != h ensures g.buf != h.buf && g.buf.p != h.buf.p {
        assert old(g.buf.p != h.buf.p);
        assert g == fh || unchanged(g.buf);
        assert h == fh || unchanged(h.buf);
      }
    }

    /** Lines 224-312: make the window answer, as far as the file and the network allow. */
    method Fill(fh: FileHandle, size: nat, offset: nat, net: Network, ghost most: nat) returns (err: bool)
      requires Valid() && fh in handles && offset < OFFSET_LIMIT && size < LENGTH_LIMIT
      requires WithinBatch(net, most) && Bounded(most)
      modifies this, fh.buf, fh.buf.p, fh`source
      ensures Valid() && handles == old(handles)
      ensures fh.buf.beginOffset <= offset <= fh.buf.End()
      ensures OthersBounded(fh, most)
      ensures fh.canShrink && fh.buf.len > Max(MAX_BUFFER_LEN, 2 * most) ==>
                fh.buf.End() <= offset + size + 2 * most
      ensures !err ==> fh.buf.End() >= offset + size || Ended(fh)
      ensures fh.buf.p == old(fh.buf.p) || fresh(fh.buf.p)
      ensures fh.source == old(fh.source) || Right(fh)
      ensures old(GoesOn(fh, offset, net) || !Misses(fh, size, offset)) ==> fh.source == old(fh.source)
      ensures old(Misses(fh, size, offset)) ==> currentFh == fh
      ensures !err <==> old(Succeeds(fh, size, offset, net))
      ensures old(Misses(fh, size, offset)) && OneBatch(net) ==>
                running && Now() == After(old(Asked(fh, offset, net)), net.first.bytes)
    {
      err := false;
      if fh.buf.len < Wrap(size + offset - fh.buf.beginOffset) ||
         offset < fh.buf.beginOffset || offset > fh.buf.End() {
        err := Fetch(fh, size, offset, net, most);
        OneHandleChanged(fh);
      }
    }

    /** The bound on the windows of the other handles. */
    ghost predicate OthersBounded(fh: FileHandle, most: nat)
      reads this, handles, set h | h in handles :: h.buf
    {
      forall h :: h in handles && h != fh && h.canShrink ==> h.buf.len <= Max(MAX_BUFFER_LEN, 2 * most)
    }

    /** Lines 314-333: copy the answer out and shrink the window. */
    method Deliver(fh: FileHandle, size: nat, offset: nat, updateOffset: bool, ghost most: nat)
      returns (bytes: seq<Byte>)
      requires Valid() && fh in handles && offset < OFFSET_LIMIT && size < LENGTH_LIMIT
      requires fh.buf.beginOffset <= offset <= fh.buf.End() && OthersBounded(fh, most)
      requires fh.canShrink && fh.buf.len > Max(MAX_BUFFER_LEN, 2 * most) ==>
                 fh.buf.End() <= offset + size + 2 * most
      modifies fh`lastOffset, fh.buf, fh.buf.p
      ensures Valid() && fh.buf.End() == old(fh.buf.End()) && fh.buf.p == old(fh.buf.p)
      ensures Bounded(most) && fh.buf.beginOffset <= offset + |bytes| <= fh.buf.End()
      ensures bytes <= Part(fh.source, offset, size)
      ensures fh.buf.End() >= offset + size || Ended(fh) ==> bytes == Part(fh.source, offset, size)
      ensures fh.lastOffset == if updateOffset then offset + |bytes| else old(fh.lastOffset)
    {
      var toCopy;
      bytes, toCopy := CopyOut(fh, size, offset);
      if updateOffset {
        fh.lastOffset := offset + |bytes|;
      }
      Shrink(fh, offset, |bytes|);
      OneHandleChanged(fh);
    }

    /** `ftpfs_read_chunk`.  A read that does not fail returns the bytes of the handle's source from
        `offset`, all of them up to the end; a read that fails has copied a prefix.  The source is
        the own file, and stays it; a source that is another file stays only as long as its stream
        goes on or the window answers. */
    method ReadChunk(fh: FileHandle, size: nat, offset: nat, updateOffset: bool, net: Network, ghost most: nat)
      returns (bytes: seq<Byte>, err: bool)
      requires Valid() && fh in handles && offset < OFFSET_LIMIT && size < LENGTH_LIMIT
      requires WithinBatch(net, most) && Bounded(most)
      modifies this, fh`lastOffset, fh`source, fh.buf, fh.buf.p
      ensures Valid() && handles == old(handles) && Bounded(most)
      ensures bytes <= Part(fh.source, offset, size)
      ensures !err ==> bytes == Part(fh.source, offset, size)
      ensures updateOffset ==> fh.lastOffset == offset + |bytes|
      ensures fh.buf.p == old(fh.buf.p) || fresh(fh.buf.p)
      ensures old(Faithful(fh)) ==> Faithful(fh)
      ensures fh.source == old(fh.source) || Right(fh)
      ensures old(GoesOn(fh, offset, net) || !Misses(fh, size, offset)) ==> fh.source == old(fh.source)
      ensures fh.buf.beginOffset <= offset + |bytes| <= fh.buf.End()
      ensures old(Misses(fh, size, offset)) ==> currentFh == fh
      ensures !err <==> old(Succeeds(fh, size, offset, net))
      ensures old(Misses(fh, size, offset)) && OneBatch(net) ==>
                running && Now() == After(old(Asked(fh, offset, net)), net.first.bytes)
    {
      err := Fill(fh, size, offset, net, most);
      assert Right(fh) ==> Faithful(fh);
      label filled:
      bytes := Deliver(fh, size, offset, updateOffset, most);
      assert Now() == old@filled(Now()) && currentFh == old@filled(currentFh);
    }

    // ---------------------------------------------------------------- the operations, in any order

    /** A block that is not in use and does not overlap one that is. */
    ghost predicate Free(block: FileHandle)
      reads this
    {
      block !in handles && forall g :: g in handles ==> g.buf != block.buf
    }

    /** One more handle, with an empty window of its own, fits beside the others. */
    twostate lemma HandleAdded(new h: FileHandle)
      requires old(Valid()) && handles == old(handles) + {h} && h !in old(handles)
      requires unchanged(`currentFh, `attached, `range, `streamPath, `streamPos, `target, `running, `message)
      requires forall g :: g in old(handles) ==> unchanged(g) && unchanged(g.buf) && unchanged(g.buf.p)
      requires forall g :: g in old(handles) ==> g.buf != h.buf
      requires WindowOk(h) && fresh(h.buf.p)
      requires running && currentFh == h ==> h.source.file == Content(streamPath)
      requires running && currentFh == h ==> streamPos == h.buf.End() + h.source.shift
      ensures Valid()
    {
      forall g | g in handles ensures WindowOk(g) {
        if g != h { assert old(WindowOk(g)); }
      }
      forall f, g | f in handles && g in handles && f != g ensures f.buf != g.buf && f.buf.p != g.buf.p {
        if f != h && g != h { assert old(f.buf.p != g.buf.p); }
      }
    }

    /** The transfer that runs was started for a handle that used this block and was freed. */
    predicate Haunted(block: FileHandle)
      reads this
    {
      running && currentFh == block
    }

    /** A new handle with an empty window, in new memory. */
    method NewHandle(path: string, canShrink: bool, ghost most: nat) returns (h: FileHandle)
      requires Valid() && Bounded(most)
      modifies this`handles
      ensures Valid() && Bounded(most) && fresh(h) && fresh(h.buf) && fresh(h.buf.p) && Right(h)
      ensures h.path == path && h.canShrink == canShrink && handles == old(handles) + {h}
      ensures h.buf.len == 0 && h.buf.beginOffset == 0
    {
      h := new FileHandle(path, canShrink, Source(Content(path), 0));
      assert WindowOk(h) by { assert Part(h.source, 0, 0) == []; }
      handles := handles + {h};
      HandleAdded(h);
    }

    /** A new handle with an empty window, in the block of one that was freed.  It is right exactly
        when no stream runs for the block, or what that stream has yet to deliver is the file that is
        opened. */
    method Reuse(h: FileHandle, path: string, canShrink: bool, ghost most: nat)
      requires Valid() && Bounded(most) && Free(h)
      modifies this`handles, h, h.buf
      ensures Valid() && Bounded(most) && fresh(h.buf.p) && handles == old(handles) + {h}
      ensures h.path == path && h.canShrink == canShrink && h.buf.len == 0 && h.buf.beginOffset == 0
      ensures Faithful(h) <==> !Haunted(h) || Rest(Content(streamPath), streamPos) == Content(path)
      ensures h.source == if Haunted(h) then Source(Content(streamPath), streamPos) else Source(Content(path), 0)
    {
      h.path, h.canShrink, h.lastOffset := path, canShrink, 0;
      h.source := if Haunted(h) then Source(Content(streamPath), streamPos) else Source(Content(path), 0);
      h.buf.Clear();
      assert WindowOk(h) by { assert Part(h.source, 0, 0) == []; }
      handles := handles + {h};
      HandleAdded(h);
    }

    /** The probe of an open: one byte.  A failed probe frees the handle but leaves `currentFh`
        pointing at it. */
    method Probe(h: FileHandle, net: Network, ghost most: nat) returns (fh: Option<FileHandle>)
      requires Valid() && h in handles && h.buf.len == 0 && h.buf.beginOffset == 0
      requires WithinBatch(net, most) && Bounded(most)
      modifies this, h`lastOffset, h`source, h.buf, h.buf.p
      ensures Valid() && Bounded(most)
      ensures fh == None ==> handles == old(handles) - {h} && currentFh == h && Free(h)
      ensures fh.Some? ==> fh == Some(h) && handles == old(handles)
      ensures old(Faithful(h)) ==> Faithful(h)
      ensures old(GoesOn(h, 0, net)) ==> h.source == old(h.source)
      ensures h.buf.p == old(h.buf.p) || fresh(h.buf.p)
      ensures fh.Some? ==> h.buf.beginOffset <= |Part(h.source, 0, 1)| <= h.buf.End()
      ensures currentFh == h && (fh.Some? <==> old(Answers(h, 1, 0, net)))
      ensures OneBatch(net) ==> running && Now() == After(old(Asked(h, 0, net)), net.first.bytes)
    {
      var _, err := ReadChunk(h, 1, 0, false, net, most);
      if err {
        handles := handles - {h};
        return None;
      }
      return Some(h);
    }

    /** The stream that the probe of an open asks: one that still runs for the block and goes on, or a
        new one from the start of the file. */
    ghost function OpenAsked(path: string, block: FileHandle?, net: Network): Stream
      reads this
    {
      if block != null && Haunted(block) && !Stops(Now(), net.check) then After(Now(), net.check.bytes)
      else Stream(Content(path), path in files, 0)
    }

    /** The network answers the probe of an open. */
    ghost predicate OpenAnswers(path: string, block: FileHandle?, net: Network)
      reads this
    {
      var shift := if block != null && Haunted(block) && !Stops(Now(), net.check) then streamPos else 0;
      Brings(OpenAsked(path, block, net), 1 + shift, net.first, net.polls)
    }

    /** `ftpfs_open_common` for O_RDONLY without O_CREAT.  The new handle is right unless its block is
        one for which a stream still runs. */
    method OpenReadOnly(path: string, block: FileHandle?, net: Network, ghost most: nat)
      returns (fh: Option<FileHandle>)
      requires Valid() && WithinBatch(net, most) && Bounded(most) && (block != null ==> Free(block))
      modifies this, if block == null then {} else {block, block.buf}
      ensures Valid() && Bounded(most)
      ensures match fh
              case Some(h) =>
                h !in old(handles) && (if block == null then fresh(h) else h == block) &&
                h.path == path && h.canShrink && handles == old(handles) + {h}
              case None =>
                handles == old(handles) && currentFh != null && Free(currentFh) &&
                (if block == null then fresh(currentFh) && fresh(currentFh.buf) else currentFh == block)
      ensures fh.Some? ==> fresh(fh.value.buf.p) && (block == null ==> fresh(fh.value.buf))
      ensures fh.Some? && (block == null || !old(Haunted(block))) ==> Faithful(fh.value)
      ensures fh.Some? && old(Rest(Content(streamPath), streamPos)) == Content(path) ==> Faithful(fh.value)
      ensures fh.Some? && block != null && old(Haunted(block)) && net.check.end.Continues? ==>
                fh.value.source == old(Source(Content(streamPath), streamPos))
      ensures fh.Some? ==> fh.value.buf.beginOffset <= |Part(fh.value.source, 0, 1)| <= fh.value.buf.End()
      ensures fh.Some? <==> old(OpenAnswers(path, block, net))
      ensures fh.Some? ==> currentFh == fh.value
      ensures OneBatch(net) ==> running && Now() == After(old(OpenAsked(path, block, net)), net.first.bytes)
    {
      var h := block;
      if block == null {
        h := NewHandle(path, true, most);
      } else {
        Reuse(block, path, true, most);
      }
      fh := Probe(h, net, most);
    }

    /** `ftpfs_read` on a handle that was never written: the answer or EIO.  As long as the handle is
        right the answer is what its own file has. */
    method Read(fh: FileHandle, size: nat, offset: nat, net: Network, ghost most: nat)
      returns (reply: Option<seq<Byte>>)
      requires Valid() && fh in handles && offset < OFFSET_LIMIT && size < LENGTH_LIMIT
      requires WithinBatch(net, most) && Bounded(most)
      modifies this, fh`lastOffset, fh`source, fh.buf, fh.buf.p
      ensures Valid() && handles == old(handles) && Bounded(most)
      ensures reply.Some? ==> reply.value == Part(fh.source, offset, size)
      ensures old(Faithful(fh)) ==> Faithful(fh)
      ensures reply.Some? && Faithful(fh) ==> reply.value == Slice(Content(fh.path), offset, size)
      ensures reply.Some? && Faithful(fh) && offset < |Content(fh.path)| ==>
                |reply.value| == Min(size, |Content(fh.path)| - offset)
      ensures old(GoesOn(fh, offset, net) || !Misses(fh, size, offset)) ==> fh.source == old(fh.source)
      ensures reply.Some? <==> old(Succeeds(fh, size, offset, net))
    {
      var bytes, err := ReadChunk(fh, size, offset, true, net, most);
      if !err && Faithful(fh) {
        FaithfulAnswers(fh, offset, size);
        SliceLength(Content(fh.path), offset, size);
      }
      return if err then None else Some(bytes);
    }

    lemma FaithfulAnswers(h: FileHandle, offset: nat, size: nat)
      requires Faithful(h)
      ensures Part(h.source, offset, size) == Slice(Content(h.path), offset, size)
    {
      SliceOfRest(h.source.file, h.source.shift, offset, size);
    }

    /** A handle is faithful exactly when its source answers every request as its own file would. */
    lemma FaithfulExactlyWhen(h: FileHandle)
      ensures Faithful(h) <==> forall offset: nat, size: nat ::
                                 Part(h.source, offset, size) == Slice(Content(h.path), offset, size)
    {
      var rest := Rest(h.source.file, h.source.shift);
      forall offset: nat, size: nat ensures Part(h.source, offset, size) == Slice(rest, offset, size) {
        SliceOfRest(h.source.file, h.source.shift, offset, size);
      }
      SlicesTellFiles(rest, Content(h.path));
    }

    /** `ftpfs_release`. */
    method Release(fh: FileHandle, ghost most: nat)
      requires Valid() && fh in handles && Bounded(most)
      modifies this
      ensures Valid() && handles == old(handles) - {fh} && Bounded(most)
      ensures currentFh != fh && Free(fh)
    {
      if currentFh == fh {
        currentFh := null;
      }
      handles := handles - {fh};
    }

    /** Every metadata operation cancels the running transfer and uses the connection itself; the
        handle that was reading stays recorded as the current one. */
    method UseConnection(ghost most: nat)
      requires Valid() && Bounded(most)
      modifies this`attached, this`running, this`message
      ensures Valid() && handles == old(handles) && Bounded(most) && !running
    {
      CancelPreviousMulti();
    }
  }

  /** `select` fails while `a` is opened, and the block of that handle becomes the handle of `b`: the
      stream of `a` goes on in it. */
  method ReusedBlockIsFed(fs: FtpFs, a: string, b: string) returns (h: FileHandle)
    requires fs.Valid() && fs.handles == {} && |fs.Content(a)| > 1
    modifies fs
    ensures fs.Valid() && fs.Bounded(1) && fs.handles == {h} && h.path == b
    ensures fresh(h) && fresh(h.buf) && fresh(h.buf.p)
    ensures fs.running && fs.currentFh == h && fs.Now() == Stream(fs.Content(a), a in fs.files, 1)
    ensures h.source == Source(fs.Content(a), 0) && h.buf.beginOffset <= 1 <= h.buf.End()
  {
    var silence, byte := Batch(0, Continues), Batch(1, Continues);
    OneByte(fs.Content(a), 0);
    var _ := fs.OpenReadOnly(a, null, Network(silence, silence, []), 1);
    var block := fs.currentFh;
    assert fs.Now() == Stream(fs.Content(a), a in fs.files, 0) && fs.Haunted(block);
    var second := fs.OpenReadOnly(b, block, Network(byte, silence, []), 1);
    h := second.value;
  }

  /** The reads can go wrong: then reading the second byte of `b` gives the second byte of `a`. */
  method ReusedBlockReadsOtherFile(fs: FtpFs, a: string, b: string) returns (h: FileHandle, reply: Option<seq<Byte>>)
    requires fs.Valid() && fs.handles == {} && |fs.Content(a)| > 1
    modifies fs
    ensures fs.Valid() && h in fs.handles && h.path == b
    ensures reply == Some([fs.Content(a)[1]])
  {
    h := ReusedBlockIsFed(fs, a, b);
    OneByte(fs.Content(a), 1);
    reply := fs.Read(h, 1, 1, Network(Batch(1, Continues), Batch(0, Continues), []), 1);
    assert reply == Some(Part(h.source, 1, 1));
  }

  lemma OneByte(file: seq<Byte>, at: nat)
    requires at < |file|
    ensures Slice(file, at, 1) == [file[at]] && Slice(file, at, 0) == []
  {
  }
}
