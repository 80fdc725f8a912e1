/** What one whole call does, and what a history of calls leaves on the server. */
module UploadCalls {
  import opened Wrappers
  import opened Upload
  import opened UploadInvariant
  import opened UploadTheorems

  // ---------------------------------------------------------------- one write

  /** Where a `write(data, offset)` that was issued in `s0` has got to in `s`. */
  predicate WriteProgress(s0: State, data: seq<Byte>, offset: nat, s: State) {
    && s.tampered == s0.tampered
    && (s0.writeConn || offset == s0.pos || s.c.WriteEntry? || s.c.Idle?)
    && match s.c
       case WriteEntry(d, o) =>
         d == data && o == offset && s.accepted == s0.accepted && s.writeConn == s0.writeConn &&
         (s0.writeConn || Untouched(s0, s))
       case WriteWaitReady(d, o) => d == data && o == offset && s.accepted == s0.accepted
       case WritePostNeed(d, o) => d == data && o == offset && s.accepted == s0.accepted
       case WriteWaitNeed(d, o) => d == data && o == offset && s.accepted == s0.accepted
       case WriteHold(d, o) => d == data && o == offset && s.accepted == s0.accepted
       case WritePostAvail(n) => n == |data| && offset == s0.pos && s.accepted == s0.accepted + data
       case WriteWaitWritten(n) => n == |data| && offset == s0.pos && s.accepted == s0.accepted + data
       case WriteClearFlag(n) => n == |data| && offset == s0.pos && s.accepted == s0.accepted + data
       case WriteCheckFail(n) => n == |data| && offset == s0.pos && s.accepted == s0.accepted + data
       case RejectPostAvail => Rejected(s0, offset, s)
       case FinTest(who) => who.ByBadOffset? && Rejected(s0, offset, s)
       case FinWaitNeed(who) => who.ByBadOffset? && Rejected(s0, offset, s)
       case FinPostAvail(who) => who.ByBadOffset? && Rejected(s0, offset, s)
       case FinSetEof(who) => who.ByBadOffset? && Rejected(s0, offset, s)
       case FinJoin(who) => who.ByBadOffset? && Rejected(s0, offset, s)
       case Idle(reply) => WriteOutcome(s0, data, offset, reply, s)
       case _ => false
  }

  predicate Rejected(s0: State, offset: nat, s: State) {
    offset != s0.pos && s.accepted == s0.accepted
  }

  /** Neither the bytes nor the server file changed. */
  predicate Untouched(s0: State, s: State) {
    s.accepted == s0.accepted && s.handed == s0.handed && s.remote == s0.remote && s.u == s0.u
  }

  /** The answers a write can give.  A write that returns its size has either been appended and
      handed to libcurl completely, or, with no session open and the offset not at `pos`, it has
      been dropped.  An error leaves the accepted bytes alone unless the transfer failed. */
  predicate WriteOutcome(s0: State, data: seq<Byte>, offset: nat, reply: Reply, s: State) {
    match reply
    case Wrote(n) =>
      n == |data| &&
      (if s0.writeConn || offset == s0.pos then
         offset == s0.pos && s.accepted == s0.accepted + data && s.writeConn
       else
         Untouched(s0, s) && !s.writeConn)
    case IoError => Failed(s) || (s.accepted == s0.accepted && (s0.writeConn ==> !s.writeConn))
    case _ => false
  }

  lemma LiveEntryProgress(s0: State, data: seq<Byte>, offset: nat, s: State, statOk: bool)
    requires SessionInv(s0) && BytesInv(s0) && SessionInv(s) && BytesInv(s) && WriteProgress(s0, data, offset, s)
    requires ClientStep(s, statOk).Some? && s.c.WriteEntry? && s0.writeConn
    ensures WriteProgress(s0, data, offset, ClientStep(s, statOk).value)
  {
  }

  lemma StartProgress(s0: State, data: seq<Byte>, offset: nat, s: State, statOk: bool)
    requires SessionInv(s0) && BytesInv(s0) && SessionInv(s) && BytesInv(s) && WriteProgress(s0, data, offset, s)
    requires s.c.WriteEntry? && !s0.writeConn && offset == s0.pos
    ensures WriteProgress(s0, data, offset, WriteBegins(s, data, offset, statOk))
  {
  }

  lemma DropProgress(s0: State, data: seq<Byte>, offset: nat, s: State, statOk: bool)
    requires SessionInv(s0) && BytesInv(s0) && SessionInv(s) && BytesInv(s) && WriteProgress(s0, data, offset, s)
    requires s.c.WriteEntry? && !s0.writeConn && offset != s0.pos
    ensures WriteProgress(s0, data, offset, WriteBegins(s, data, offset, statOk))
  {
  }

  lemma QueueProgress(s0: State, data: seq<Byte>, offset: nat, s: State, statOk: bool)
    requires SessionInv(s0) && BytesInv(s0) && SessionInv(s) && BytesInv(s) && WriteProgress(s0, data, offset, s)
    requires ClientStep(s, statOk).Some? && (s.c.WriteWaitReady? || s.c.WritePostNeed? || s.c.WriteWaitNeed?)
    ensures WriteProgress(s0, data, offset, ClientStep(s, statOk).value)
  {
  }

  lemma HoldProgress(s0: State, data: seq<Byte>, offset: nat, s: State, statOk: bool)
    requires SessionInv(s0) && BytesInv(s0) && SessionInv(s) && BytesInv(s) && WriteProgress(s0, data, offset, s)
    requires ClientStep(s, statOk).Some? && (s.c.WriteHold?)
    ensures WriteProgress(s0, data, offset, ClientStep(s, statOk).value)
  {
  }

  lemma SentProgress(s0: State, data: seq<Byte>, offset: nat, s: State, statOk: bool)
    requires SessionInv(s0) && BytesInv(s0) && SessionInv(s) && BytesInv(s) && WriteProgress(s0, data, offset, s)
    requires s.c.WritePostAvail? || s.c.WriteWaitWritten? || s.c.WriteClearFlag? || s.c.WriteCheckFail?
    requires ClientStep(s, statOk).Some?
    ensures WriteProgress(s0, data, offset, ClientStep(s, statOk).value)
  {
  }

  lemma RejectProgress(s0: State, data: seq<Byte>, offset: nat, s: State, statOk: bool)
    requires SessionInv(s0) && BytesInv(s0) && SessionInv(s) && BytesInv(s) && WriteProgress(s0, data, offset, s)
    requires s.c.RejectPostAvail? || s.c.FinTest? || s.c.FinWaitNeed? || s.c.FinPostAvail? || s.c.FinSetEof? ||
             s.c.FinJoin?
    requires ClientStep(s, statOk).Some?
    ensures WriteProgress(s0, data, offset, ClientStep(s, statOk).value)
  {
  }

  lemma UploaderWriteProgress(s0: State, data: seq<Byte>, offset: nat, s: State, s': State)
    requires SessionInv(s0) && SessionInv(s) && WriteProgress(s0, data, offset, s)
    requires UploaderMove(s, s') && !s.u.NoThread?
    ensures WriteProgress(s0, data, offset, s')
  {
  }

  lemma ClientWriteProgress(s0: State, data: seq<Byte>, offset: nat, s: State, statOk: bool)
    requires Inv(s0) && Inv(s) && WriteProgress(s0, data, offset, s)
    requires ClientStep(s, statOk).Some?
    ensures WriteProgress(s0, data, offset, ClientStep(s, statOk).value)
  {
    match s.c
    case WriteEntry(_, _) =>
      if s0.writeConn {
        LiveEntryProgress(s0, data, offset, s, statOk);
      } else if offset == s0.pos {
        StartProgress(s0, data, offset, s, statOk);
      } else {
        DropProgress(s0, data, offset, s, statOk);
      }
    case WriteWaitReady(_, _) => QueueProgress(s0, data, offset, s, statOk);
    case WritePostNeed(_, _) => QueueProgress(s0, data, offset, s, statOk);
    case WriteWaitNeed(_, _) => QueueProgress(s0, data, offset, s, statOk);
    case WriteHold(_, _) => HoldProgress(s0, data, offset, s, statOk);
    case WritePostAvail(_) => SentProgress(s0, data, offset, s, statOk);
    case WriteWaitWritten(_) => SentProgress(s0, data, offset, s, statOk);
    case WriteClearFlag(_) => SentProgress(s0, data, offset, s, statOk);
    case WriteCheckFail(_) => SentProgress(s0, data, offset, s, statOk);
    case _ => RejectProgress(s0, data, offset, s, statOk);
  }

  lemma {:induction false} WriteRuns(s0: State, data: seq<Byte>, offset: nat, s: State, acts: seq<Action>)
    requires Inv(s0) && Inv(s) && WriteProgress(s0, data, offset, s)
    requires AllWork(acts) && Exec(s, acts).Some?
    ensures Inv(Exec(s, acts).value) && WriteProgress(s0, data, offset, Exec(s, acts).value)
    decreases |acts|
  {
    if acts != [] {
      assert Work(acts[0]);
      StepKeepsInv(s, acts[0]);
      match acts[0] {
        case Client(statOk) => ClientWriteProgress(s0, data, offset, s, statOk);
        case Uploader(e) =>
          UploaderSound(s, e);
          UploaderWriteProgress(s0, data, offset, s, UploaderStep(s, e).value);
      }
      WriteRuns(s0, data, offset, Step(s, acts[0]).value, acts[1..]);
    }
  }

  /** One whole write call, under every schedule of the two threads. */
  lemma WriteCall(s0: State, data: seq<Byte>, offset: nat, acts: seq<Action>, s: State)
    requires Reachable(s0) && s0.c.Idle? && data != []
    requires AllWork(acts) && Exec(Step(s0, CallWrite(data, offset)).value, acts) == Some(s) && s.c.Idle?
    ensures WriteOutcome(s0, data, offset, s.c.last, s)
  {
    ReachableInv(s0);
    CallWriteKeepsInv(s0, data, offset);
    WriteRuns(s0, data, offset, s0.(c := WriteEntry(data, offset)), acts);
  }

  /** A write that returns its size loses its bytes exactly when no session is open and the offset
      is not `pos`. */
  lemma DroppedExactlyWhen(s0: State, data: seq<Byte>, offset: nat, acts: seq<Action>, s: State)
    requires Reachable(s0) && s0.c.Idle? && data != []
    requires AllWork(acts) && Exec(Step(s0, CallWrite(data, offset)).value, acts) == Some(s)
    requires s.c.Idle? && s.c.last.Wrote?
    ensures s.accepted != s0.accepted + data <==> !s0.writeConn && offset != s0.pos
  {
    WriteCall(s0, data, offset, acts, s);
    assert |s0.accepted + data| > |s0.accepted|;
  }

  /** It does happen: on a handle whose upload has not started, a write beyond the start answers its
      size and nothing is stored. */
  lemma WriteIsDropped(remote: seq<Byte>, data: seq<Byte>, offset: nat)
    requires data != [] && offset > 0
    ensures
      var s0 := Opened(false, remote);
      var end := Exec(Step(s0, CallWrite(data, offset)).value, [Client(true)]);
      && Reachable(s0) && end.Some? && end.value.c == Idle(Wrote(|data|))
      && end.value.accepted == [] && end.value.remote == remote
  {
    var s0 := Opened(false, remote);
    assert AllSane([]) && Exec(s0, []) == Some(s0);
    assert [Client(true)][1..] == [];
  }

  // ---------------------------------------------------------------- a write that succeeds

  /** A session is open, or a write at `pos` may open one. */
  predicate MayWrite(s: State) {
    s.writeConn || s.pos > 0 || s.mayStart
  }

  /** Where a write at `pos` has got to when nothing failed. */
  predicate GoesThrough(data: seq<Byte>, s: State) {
    match s.c
    case WriteEntry(d, o) => d == data && o == s.pos && MayWrite(s)
    case WriteWaitReady(d, o) => d == data && o == s.pos && s.writeConn
    case WritePostNeed(d, o) => d == data && o == s.pos && s.writeConn
    case WriteWaitNeed(d, o) => d == data && o == s.pos && s.writeConn
    case WriteHold(d, o) => d == data && o == s.pos && s.writeConn
    case WritePostAvail(n) => n == |data|
    case WriteWaitWritten(n) => n == |data|
    case WriteClearFlag(n) => n == |data|
    case WriteCheckFail(n) => n == |data|
    case Idle(reply) => reply == Wrote(|data|)
    case _ => false
  }

  lemma EntryGoesThrough(data: seq<Byte>, s: State, statOk: bool)
    requires GoesThrough(data, s) && s.c.WriteEntry? && s.cause == 0
    ensures GoesThrough(data, ClientStep(s, statOk).value)
  {
  }

  lemma QueueGoesThrough(data: seq<Byte>, s: State, statOk: bool)
    requires GoesThrough(data, s) && ClientStep(s, statOk).Some?
    requires s.c.WriteWaitReady? || s.c.WritePostNeed? || s.c.WriteWaitNeed? || s.c.WriteHold?
    ensures GoesThrough(data, ClientStep(s, statOk).value)
  {
  }

  lemma SentGoesThrough(data: seq<Byte>, s: State, statOk: bool)
    requires GoesThrough(data, s) && ClientStep(s, statOk).Some? && s.cause == 0
    requires s.c.WritePostAvail? || s.c.WriteWaitWritten? || s.c.WriteClearFlag? || s.c.WriteCheckFail?
    ensures GoesThrough(data, ClientStep(s, statOk).value)
  {
  }

  lemma ClientGoesThrough(data: seq<Byte>, s: State, statOk: bool)
    requires GoesThrough(data, s) && ClientStep(s, statOk).Some? && s.cause == 0
    ensures GoesThrough(data, ClientStep(s, statOk).value)
  {
    match s.c
    case WriteEntry(_, _) => EntryGoesThrough(data, s, statOk);
    case WriteWaitReady(_, _) => QueueGoesThrough(data, s, statOk);
    case WritePostNeed(_, _) => QueueGoesThrough(data, s, statOk);
    case WriteWaitNeed(_, _) => QueueGoesThrough(data, s, statOk);
    case WriteHold(_, _) => QueueGoesThrough(data, s, statOk);
    case WritePostAvail(_) => SentGoesThrough(data, s, statOk);
    case WriteWaitWritten(_) => SentGoesThrough(data, s, statOk);
    case WriteClearFlag(_) => SentGoesThrough(data, s, statOk);
    case WriteCheckFail(_) => SentGoesThrough(data, s, statOk);
  }

  lemma UploaderGoesThrough(data: seq<Byte>, s: State, s': State)
    requires GoesThrough(data, s) && UploaderMove(s, s')
    ensures GoesThrough(data, s')
  {
  }

  lemma {:induction false} RunsThrough(data: seq<Byte>, s: State, acts: seq<Action>)
    requires Inv(s) && GoesThrough(data, s) && AllWork(acts) && Exec(s, acts).Some?
    requires !Failed(Exec(s, acts).value)
    ensures GoesThrough(data, Exec(s, acts).value)
    decreases |acts|
  {
    if acts != [] {
      assert Work(acts[0]);
      var s' := Step(s, acts[0]).value;
      StepKeepsInv(s, acts[0]);
      if Failed(s) { FailureSticksForever(s, acts); }
      match acts[0] {
        case Client(statOk) => ClientGoesThrough(data, s, statOk);
        case Uploader(e) =>
          UploaderSound(s, e);
          UploaderGoesThrough(data, s, s');
      }
      RunsThrough(data, s', acts[1..]);
    }
  }

  /** A write at `pos` succeeds: with a session open, or after earlier ones, or when the upload may
      start, it answers its size under every schedule unless libcurl fails. */
  lemma WriteSucceeds(s0: State, data: seq<Byte>, acts: seq<Action>, s: State)
    requires Reachable(s0) && s0.c.Idle? && data != [] && MayWrite(s0)
    requires AllWork(acts) && Exec(Step(s0, CallWrite(data, s0.pos)).value, acts) == Some(s) && s.c.Idle?
    requires !Failed(s)
    ensures s.c.last == Wrote(|data|) && s.accepted == s0.accepted + data && s.writeConn
  {
    ReachableInv(s0);
    CallWriteKeepsInv(s0, data, s0.pos);
    RunsThrough(data, s0.(c := WriteEntry(data, s0.pos)), acts);
    WriteCall(s0, data, s0.pos, acts, s);
  }

  /** The handle was truncated before anything was written. */
  predicate TruncatedAtStart(s: State, acts: seq<Action>)
    requires Exec(s, acts).Some?
    decreases |acts|
  {
    acts != [] &&
    ((acts[0].CallTruncate? && s.pos == 0) || TruncatedAtStart(Step(s, acts[0]).value, acts[1..]))
  }

  lemma MayStartStep(s: State, a: Action)
    requires Inv(s) && Step(s, a).Some?
    ensures Step(s, a).value.mayStart <==> s.mayStart || (a.CallTruncate? && s.pos == 0)
  {
    match a
    case Client(statOk) => ClientSound(s, statOk);
    case Uploader(e) => UploaderSound(s, e);
    case CallTruncate(_) =>
    case CallWrite(_, _) =>
    case CallFlush =>
    case Outsider(_) =>
  }

  lemma {:induction false} MayStartOver(s: State, acts: seq<Action>)
    requires Inv(s) && AllSane(acts) && Exec(s, acts).Some?
    ensures Exec(s, acts).value.mayStart <==> s.mayStart || TruncatedAtStart(s, acts)
    decreases |acts|
  {
    if acts != [] {
      assert Sane(acts[0]);
      StepKeepsInv(s, acts[0]);
      MayStartStep(s, acts[0]);
      MayStartOver(Step(s, acts[0]).value, acts[1..]);
    }
  }

  /** The upload of a handle may start exactly when it was opened with O_CREAT or O_TRUNC, or was
      truncated before anything was written. */
  lemma MayStartExactlyWhen(starts: bool, remote: seq<Byte>, acts: seq<Action>)
    requires AllSane(acts) && Exec(Opened(starts, remote), acts).Some?
    ensures
      var s := Exec(Opened(starts, remote), acts).value;
      s.mayStart <==> starts || TruncatedAtStart(Opened(starts, remote), acts)
  {
    InvInit(starts, remote);
    MayStartOver(Opened(starts, remote), acts);
  }

  /** Truncating a handle whose upload has not started lets it start. */
  lemma TruncatedWriteSucceeds(s0: State, created: bool, data: seq<Byte>, acts: seq<Action>, s: State)
    requires Reachable(s0) && s0.c.Idle? && s0.pos == 0 && data != []
    requires
      var s1 := Step(s0, CallTruncate(created)).value;
      AllWork(acts) && Exec(Step(s1, CallWrite(data, 0)).value, acts) == Some(s) && s.c.Idle?
    requires !Failed(s)
    ensures s.c.last == Wrote(|data|) && s.accepted == s0.accepted + data
  {
    var s1 := Step(s0, CallTruncate(created)).value;
    assert [CallTruncate(created)][1..] == [] && Exec(s1, []) == Some(s1);
    ReachableExtends(s0, [CallTruncate(created)]);
    WriteSucceeds(s1, data, acts, s);
  }

  /** On a handle that was opened without O_CREAT or O_TRUNC and not truncated, the first write is
      refused, and nothing changes, exactly when the size check fails or finds a non-empty file. */
  lemma DeferredWriteRefusedExactlyWhen(s0: State, data: seq<Byte>, acts: seq<Action>, s: State)
    requires Reachable(s0) && s0.c.Idle? && data != []
    requires s0.pos == 0 && !s0.writeConn && !s0.mayStart && s0.cause == 0
    requires AllWork(acts) && Exec(Step(s0, CallWrite(data, 0)).value, acts) == Some(s) && s.c.Idle?
    ensures acts != [] && acts[0].Client?
    ensures s == s0.(c := Idle(IoError)) <==> !acts[0].statOk || s0.remote != []
    ensures acts[0].statOk && s0.remote == [] && !Failed(s) ==> s.c.last == Wrote(|data|) && s.accepted == data
  {
    ReachableInv(s0);
    CallWriteKeepsInv(s0, data, 0);
    var s1 := s0.(c := WriteEntry(data, 0));
    assert Work(acts[0]);
    var s2 := Step(s1, acts[0]).value;
    if !acts[0].statOk || s0.remote != [] {
      assert s2 == s0.(c := Idle(IoError));
      NothingRuns(s2, acts[1..]);
    } else {
      DeferredWriteStarts(s1, data, acts, s);
      if !Failed(s) { WriteCall(s0, data, 0, acts, s); }
    }
  }

  lemma DeferredWriteStarts(s1: State, data: seq<Byte>, acts: seq<Action>, s: State)
    requires Inv(s1) && s1.c == WriteEntry(data, 0) && s1.pos == 0 && !s1.writeConn && s1.cause == 0 && s1.remote == []
    requires AllWork(acts) && acts != [] && acts[0] == Client(true) && Exec(s1, acts) == Some(s) && s.c.Idle?
    ensures Failed(s) || s.c.last == Wrote(|data|)
  {
    var s2 := Step(s1, acts[0]).value;
    StepKeepsInv(s1, acts[0]);
    assert GoesThrough(data, s2);
    if !Failed(s) { RunsThrough(data, s2, acts[1..]); }
  }

  // ---------------------------------------------------------------- one flush

  /** The flush is in `finish_write_thread`. */
  predicate FlushCloses(c: ClientPc) {
    (c.FinTest? || c.FinWaitNeed? || c.FinPostAvail? || c.FinSetEof? || c.FinJoin?) && c.who.ByFlush?
  }

  predicate FlushOutcome(reply: Reply, s: State) {
    !s.writeConn && (reply == Done || reply == IoError || reply == NoEntry) &&
    (reply == NoEntry ==> s.cause == 0) &&
    (reply == Done ==> s.cause == 0 && |s.remote| == s.pos && (!s.tampered ==> s.remote == s.accepted))
  }

  /** Where a flush that was issued in `s0` with a session open has got to. */
  predicate FlushProgress(s0: State, s: State) {
    && s.accepted == s0.accepted && s.tampered == s0.tampered
    && (FlushCloses(s.c) || s.c.FlushCheckSize? || (s.c.Idle? && FlushOutcome(s.c.last, s)))
  }

  lemma TakingFlushProgress(s0: State, s: State, statOk: bool)
    requires FlushProgress(s0, s) && (s.c.FinTest? || s.c.FinWaitNeed?) && ClientStep(s, statOk).Some?
    ensures FlushProgress(s0, ClientStep(s, statOk).value)
  {
  }

  lemma GivingFlushProgress(s0: State, s: State, statOk: bool)
    requires FlushProgress(s0, s) && (s.c.FinPostAvail? || s.c.FinSetEof?) && ClientStep(s, statOk).Some?
    ensures FlushProgress(s0, ClientStep(s, statOk).value)
  {
  }

  lemma JoiningFlushProgress(s0: State, s: State, statOk: bool)
    requires FlushProgress(s0, s) && s.c.FinJoin? && s.u.UExited?
    ensures FlushProgress(s0, ClientStep(s, statOk).value)
  {
  }

  lemma CheckingFlushProgress(s0: State, s: State, statOk: bool)
    requires SessionInv(s) && RemoteInv(s) && FlushProgress(s0, s) && s.c.FlushCheckSize?
    ensures FlushProgress(s0, ClientStep(s, statOk).value)
  {
  }

  lemma {:induction false} FlushRuns(s0: State, s: State, acts: seq<Action>)
    requires Inv(s) && FlushProgress(s0, s) && AllWork(acts) && Exec(s, acts).Some?
    ensures Inv(Exec(s, acts).value) && FlushProgress(s0, Exec(s, acts).value)
    decreases |acts|
  {
    if acts != [] {
      assert Work(acts[0]);
      StepKeepsInv(s, acts[0]);
      match acts[0] {
        case Client(statOk) =>
          match s.c {
            case FinJoin(_) => JoiningFlushProgress(s0, s, statOk);
            case FlushCheckSize => CheckingFlushProgress(s0, s, statOk);
            case FinTest(_) => TakingFlushProgress(s0, s, statOk);
            case FinWaitNeed(_) => TakingFlushProgress(s0, s, statOk);
            case _ => GivingFlushProgress(s0, s, statOk);
          }
        case Uploader(e) => UploaderSound(s, e);
      }
      FlushRuns(s0, Step(s, acts[0]).value, acts[1..]);
    }
  }

  /** A flush that closes a session and reports success leaves exactly the accepted bytes on the
      server, unless somebody else wrote the file. */
  lemma FlushCall(s0: State, acts: seq<Action>, s: State)
    requires Reachable(s0) && s0.c.Idle? && s0.writeConn
    requires AllWork(acts) && Exec(Step(s0, CallFlush).value, acts) == Some(s) && s.c.Idle?
    ensures !s.writeConn && s.accepted == s0.accepted
    ensures s.c.last == Done || s.c.last == IoError || s.c.last == NoEntry
    ensures s.c.last == Done ==> |s.remote| == s.pos
    ensures s.c.last == Done && !s0.tampered ==> s.remote == s.accepted
    ensures Failed(s0) ==> s.c.last == IoError
  {
    ReachableInv(s0);
    CallFlushKeepsInv(s0);
    var s1 := Step(s0, CallFlush).value;
    FlushRuns(s0, s1, acts);
    if Failed(s0) {
      FailureSticksForever(s1, acts);
    }
  }

  lemma {:induction false} LastStep(s: State, acts: seq<Action>)
    requires acts != [] && Exec(s, acts).Some?
    ensures
      var before := Exec(s, acts[..|acts| - 1]);
      before.Some? && Step(before.value, acts[|acts| - 1]) == Exec(s, acts)
    decreases |acts|
  {
    if |acts| == 1 {
      assert acts[..0] == [] && acts[1..] == [];
    } else {
      assert acts[..|acts| - 1][0] == acts[0] && acts[..|acts| - 1][1..] == acts[1..][..|acts| - 2];
      LastStep(Step(s, acts[0]).value, acts[1..]);
    }
  }

  lemma StillTaking(s: State, statOk: bool)
    requires (s.c.FinTest? || s.c.FinWaitNeed?) && ClientStep(s, statOk).Some?
    ensures !ClientStep(s, statOk).value.c.Idle?
  {
  }

  lemma StillGiving(s: State, statOk: bool)
    requires (s.c.FinPostAvail? || s.c.FinSetEof?) && ClientStep(s, statOk).Some?
    ensures !ClientStep(s, statOk).value.c.Idle?
  {
  }

  lemma JoinEnds(s: State, statOk: bool)
    requires s.c == FinJoin(ByFlush) && ClientStep(s, statOk).Some? && ClientStep(s, statOk).value.c.Idle?
    ensures s.cause != 0
  {
  }

  lemma FlushEnds(s0: State, before: State, last: Action, s: State)
    requires Inv(before) && FlushProgress(s0, before) && Work(last) && Step(before, last) == Some(s) && s.c.Idle?
    ensures last.Client? && (before.c.FlushCheckSize? || (before.c.FinJoin? && before.cause != 0))
  {
    match last
    case Uploader(e) => UploaderSound(before, e);
    case Client(statOk) =>
      match before.c {
        case FlushCheckSize =>
        case FinJoin(_) => JoinEnds(before, statOk);
        case FinTest(_) => StillTaking(before, statOk);
        case FinWaitNeed(_) => StillTaking(before, statOk);
        case _ => StillGiving(before, statOk);
      }
  }

  /** A flush that closes a session succeeds exactly when no failure is on record after the uploader
      has gone, the attributes can be read and the file has the length `pos`; with nobody else
      writing the file it has.  It answers that there is no such file exactly when nothing failed but
      the attributes cannot be read, and EIO exactly when that is on record from then on. */
  lemma FlushSucceedsExactlyWhen(s0: State, acts: seq<Action>, s: State)
    requires Reachable(s0) && s0.c.Idle? && s0.writeConn
    requires AllWork(acts) && Exec(Step(s0, CallFlush).value, acts) == Some(s) && s.c.Idle?
    ensures acts != [] && Exec(Step(s0, CallFlush).value, acts[..|acts| - 1]).Some? && acts[|acts| - 1].Client?
    ensures
      var before, statOk := Exec(Step(s0, CallFlush).value, acts[..|acts| - 1]).value, acts[|acts| - 1].statOk;
      && (s.c.last == Done <==> !Failed(before) && statOk && |before.remote| == before.pos)
      && (s.c.last == NoEntry <==> !Failed(before) && !statOk)
      && (Failed(s) <==> Failed(before) || s.c.last == IoError)
      && (!Failed(before) && statOk && !s0.tampered ==> s.c.last == Done)
  {
    ReachableInv(s0);
    CallFlushKeepsInv(s0);
    var s1 := Step(s0, CallFlush).value;
    LastStep(s1, acts);
    var before, last := Exec(s1, acts[..|acts| - 1]).value, acts[|acts| - 1];
    assert AllWork(acts[..|acts| - 1]) && Work(last);
    FlushRuns(s0, s1, acts[..|acts| - 1]);
    FlushEnds(s0, before, last, s);
    FlushAnswer(s0, before, last.statOk, s);
  }

  lemma FlushAnswer(s0: State, before: State, statOk: bool, s: State)
    requires Inv(before) && FlushProgress(s0, before) && ClientStep(before, statOk) == Some(s)
    requires before.c.FlushCheckSize? || (before.c.FinJoin? && before.cause != 0)
    ensures s.c.Idle?
    ensures s.c.last == Done <==> !Failed(before) && statOk && |before.remote| == before.pos
    ensures s.c.last == NoEntry <==> !Failed(before) && !statOk
    ensures Failed(s) <==> Failed(before) || s.c.last == IoError
    ensures !Failed(before) && statOk && !s0.tampered ==> s.c.last == Done
  {
  }

  /** With no session open a flush succeeds, and a truncation before it has emptied the file exactly if
      nothing was written yet and the file could be created. */
  lemma TruncateThenFlush(s0: State, created: bool)
    requires s0.c.Idle? && !s0.writeConn
    ensures
      var end := Exec(s0, [CallTruncate(created), CallFlush]);
      && end.Some? && end.value.c == Idle(Done) && end.value.accepted == s0.accepted && end.value.pos == s0.pos
      && end.value.remote == if s0.pos == 0 && created then [] else s0.remote
  {
    var s1 := Step(s0, CallTruncate(created)).value;
    ExecTwo(s0, CallTruncate(created), CallFlush, s1);
  }

  lemma ExecTwo(s0: State, a: Action, b: Action, s1: State)
    requires Step(s0, a) == Some(s1)
    ensures Exec(s0, [a, b]) == Step(s1, b)
  {
    assert [a, b][1..] == [b] && [b][1..] == [];
    var end := Step(s1, b);
    assert end.Some? ==> Exec(end.value, []) == end;
    assert Exec(s1, [b]) == end;
  }

  /** A write at another offset, with a session open, answers EIO and closes the session; what was
      accepted is then on the server. */
  lemma RejectedWriteCloses(s0: State, data: seq<Byte>, offset: nat, acts: seq<Action>, s: State)
    requires Reachable(s0) && s0.c.Idle? && data != [] && s0.writeConn && offset != s0.pos
    requires AllWork(acts) && Exec(Step(s0, CallWrite(data, offset)).value, acts) == Some(s) && s.c.Idle?
    ensures s.c.last == IoError
    ensures !Failed(s) ==> !s.writeConn && s.accepted == s0.accepted
    ensures !Failed(s) && !s0.tampered && s0.pos > 0 ==> s.remote == s0.accepted
  {
    ReachableInv(s0);
    CallWriteKeepsInv(s0, data, offset);
    WriteCall(s0, data, offset, acts, s);
    WriteRuns(s0, data, offset, s0.(c := WriteEntry(data, offset)), acts);
  }

  // ---------------------------------------------------------------- histories of calls

  datatype Request = WriteReq(data: seq<Byte>, offset: nat) | FlushReq

  /** A call together with the schedule under which it ran to its answer. */
  datatype Call = Call(req: Request, acts: seq<Action>)

  function Issue(r: Request): Action {
    match r
    case WriteReq(data, offset) => CallWrite(data, offset)
    case FlushReq => CallFlush
  }

  predicate WellFormed(call: Call) {
    AllWork(call.acts) && Sane(Issue(call.req))
  }

  function Serve(s: State, call: Call): (r: Option<State>)
    ensures r.Some? ==> s.c.Idle? && r.value.c.Idle? && Exec(s, [Issue(call.req)] + call.acts) == r
  {
    var acts := [Issue(call.req)] + call.acts;
    assert acts[0] == Issue(call.req) && acts[1..] == call.acts;
    match Exec(s, acts)
    case None => None
    case Some(s') => if s'.c.Idle? then Some(s') else None
  }

  function ServeAll(s: State, calls: seq<Call>): Option<State>
    decreases |calls|
  {
    if calls == [] then Some(s)
    else match Serve(s, calls[0])
         case None => None
         case Some(s') => ServeAll(s', calls[1..])
  }

  /** The bytes of the writes that were answered with their size and were issued at `pos`. */
  function Stored(s: State, calls: seq<Call>): seq<Byte>
    requires ServeAll(s, calls).Some?
    decreases |calls|
  {
    if calls == [] then []
    else
      var s' := Serve(s, calls[0]).value;
      (match calls[0].req
       case WriteReq(data, offset) => if s'.c.last.Wrote? && offset == s.pos then data else []
       case FlushReq => [])
      + Stored(s', calls[1..])
  }

  lemma {:induction false} ExecAppend(s: State, first: seq<Action>, second: seq<Action>)
    requires Exec(s, first).Some?
    ensures Exec(s, first + second) == Exec(Exec(s, first).value, second)
    decreases |first|
  {
    if first == [] {
      assert first + second == second;
    } else {
      assert (first + second)[0] == first[0] && (first + second)[1..] == first[1..] + second;
      ExecAppend(Step(s, first[0]).value, first[1..], second);
    }
  }

  lemma ReachableExtends(s: State, acts: seq<Action>)
    requires Reachable(s) && AllSane(acts) && Exec(s, acts).Some?
    ensures Reachable(Exec(s, acts).value)
  {
    var starts, remote, before :| AllSane(before) && Exec(Opened(starts, remote), before) == Some(s);
    ExecAppend(Opened(starts, remote), before, acts);
    assert AllSane(before + acts);
  }

  lemma ServeKeeps(s: State, call: Call)
    requires Reachable(s) && WellFormed(call) && Serve(s, call).Some?
    ensures Reachable(Serve(s, call).value)
    ensures Serve(s, call).value.tampered == s.tampered
    ensures Failed(s) ==> Failed(Serve(s, call).value)
    ensures !Failed(Serve(s, call).value) ==>
              match call.req
              case WriteReq(data, offset) =>
                Serve(s, call).value.accepted ==
                s.accepted + (if Serve(s, call).value.c.last.Wrote? && offset == s.pos then data else [])
              case FlushReq => Serve(s, call).value.accepted == s.accepted
  {
    var acts := [Issue(call.req)] + call.acts;
    assert acts[1..] == call.acts;
    assert AllSane(acts);
    ReachableInv(s);
    ReachableExtends(s, acts);
    if Failed(s) { FailureSticksForever(s, acts); }
    var s' := Serve(s, call).value;
    match call.req
    case WriteReq(data, offset) =>
      WriteCall(s, data, offset, call.acts, s');
      CallWriteKeepsInv(s, data, offset);
      WriteRuns(s, data, offset, s.(c := WriteEntry(data, offset)), call.acts);
    case FlushReq =>
      CallFlushKeepsInv(s);
      var s1 := Step(s, CallFlush).value;
      if s.writeConn { FlushRuns(s, s1, call.acts); } else { NothingRuns(s1, call.acts); }
  }

  /** With no call and no session there is nothing to run. */
  lemma NothingRuns(s: State, acts: seq<Action>)
    requires s.c.Idle? && s.u.NoThread? && AllWork(acts)
    ensures acts != [] ==> Exec(s, acts).None?
  {
    if acts != [] { assert Work(acts[0]); }
  }

  lemma {:induction false} History(s: State, calls: seq<Call>)
    requires Reachable(s) && ServeAll(s, calls).Some?
    requires forall i :: 0 <= i < |calls| ==> WellFormed(calls[i])
    requires !Failed(ServeAll(s, calls).value)
    ensures !Failed(s) && Reachable(ServeAll(s, calls).value)
    ensures ServeAll(s, calls).value.tampered == s.tampered
    ensures ServeAll(s, calls).value.accepted == s.accepted + Stored(s, calls)
    decreases |calls|
  {
    if calls != [] {
      assert WellFormed(calls[0]);
      ServeKeeps(s, calls[0]);
      History(Serve(s, calls[0]).value, calls[1..]);
    }
  }

  // ---------------------------------------------------------------- the empty file

  /** As long as nothing was accepted, a closed session has left the empty file. */
  predicate NothingLeft(s: State) {
    !s.tampered && !Failed(s) && s.accepted == [] && !s.writeConn ==> s.remote == []
  }

  lemma EntryOnlyStarts(s: State, statOk: bool)
    requires s.c.WriteEntry?
    ensures
      var s' := WriteBegins(s, s.c.data, s.c.offset, statOk);
      s' == s.(c := s'.c) || s'.writeConn
  {
  }

  lemma EntryLeavesNothing(s: State, s': State)
    requires NothingLeft(s) && (s' == s.(c := s'.c) || s'.writeConn)
    ensures NothingLeft(s')
  {
  }

  lemma CheckLeavesNothing(s: State, statOk: bool)
    requires NothingLeft(s) && s.c.FlushCheckSize?
    ensures NothingLeft(ClientStep(s, statOk).value)
  {
    var s' := ClientStep(s, statOk).value;
    assert s' == s.(c := s'.c, cause := s'.cause) && (s'.cause == s.cause || s'.cause != 0);
  }

  lemma JoinLeavesNothing(s: State, statOk: bool)
    requires Inv(s) && s.c.FinJoin? && ClientStep(s, statOk).Some?
    ensures NothingLeft(ClientStep(s, statOk).value)
  {
  }

  lemma CallLeavesNothing(s: State, a: Action)
    requires NothingLeft(s) && !Work(a) && Step(s, a).Some?
    ensures NothingLeft(Step(s, a).value)
  {
    match a
    case CallWrite(_, _) =>
    case CallFlush =>
    case CallTruncate(_) =>
    case Outsider(_) =>
  }

  lemma StepLeavesNothing(s: State, a: Action)
    requires Inv(s) && NothingLeft(s) && Step(s, a).Some?
    ensures NothingLeft(Step(s, a).value)
  {
    match a
    case Client(statOk) =>
      if s.c.FinJoin? {
        JoinLeavesNothing(s, statOk);
      } else if s.writeConn {
        ClientSound(s, statOk);
      } else if s.c.WriteEntry? {
        EntryOnlyStarts(s, statOk);
        EntryLeavesNothing(s, ClientStep(s, statOk).value);
      } else {
        CheckLeavesNothing(s, statOk);
      }
    case Uploader(e) => UploaderSound(s, e);
    case _ => CallLeavesNothing(s, a);
  }

  lemma {:induction false} ExecLeavesNothing(s: State, acts: seq<Action>)
    requires Inv(s) && NothingLeft(s) && AllSane(acts) && Exec(s, acts).Some?
    ensures NothingLeft(Exec(s, acts).value)
    decreases |acts|
  {
    if acts != [] {
      assert Sane(acts[0]);
      StepLeavesNothing(s, acts[0]);
      StepKeepsInv(s, acts[0]);
      ExecLeavesNothing(Step(s, acts[0]).value, acts[1..]);
    }
  }

  lemma {:induction false} HistoryLeavesNothing(s: State, calls: seq<Call>)
    requires Reachable(s) && NothingLeft(s) && ServeAll(s, calls).Some?
    requires forall i :: 0 <= i < |calls| ==> WellFormed(calls[i])
    ensures NothingLeft(ServeAll(s, calls).value)
    decreases |calls|
  {
    if calls != [] {
      assert WellFormed(calls[0]);
      var acts := [Issue(calls[0].req)] + calls[0].acts;
      assert acts[1..] == calls[0].acts && AllSane(acts);
      ReachableInv(s);
      ExecLeavesNothing(s, acts);
      ReachableExtends(s, acts);
      HistoryLeavesNothing(Serve(s, calls[0]).value, calls[1..]);
    }
  }

  /** Uploads resume across flushes.  After any history of writes, rejected writes and flushes on
      a new handle in which no transfer failed and nobody else wrote the file, `pos` counts the
      stored bytes and, whenever no session is open, the server holds exactly their
      concatenation.  This is the empty file, too, when nothing was stored by a session that was
      started, or when the file was empty before. */
  lemma ResumeAcrossFlushes(s: State, calls: seq<Call>)
    requires Reachable(s) && s.accepted == [] && !s.tampered && ServeAll(s, calls).Some?
    requires forall i :: 0 <= i < |calls| ==> WellFormed(calls[i])
    requires !Failed(ServeAll(s, calls).value)
    ensures
      var end := ServeAll(s, calls).value;
      && end.pos == |Stored(s, calls)|
      && (!end.writeConn && (end.pos > 0 || s.writeConn || s.remote == []) ==> end.remote == Stored(s, calls))
  {
    History(s, calls);
    ReachableInv(ServeAll(s, calls).value);
    if s.writeConn || s.remote == [] { HistoryLeavesNothing(s, calls); }
  }

  /** The first session replaces the file and every later one appends to what it left. */
  lemma AppendsExactlyWhenResuming(s: State)
    requires Reachable(s) && s.writeConn && !s.u.UStart?
    ensures s.append <==> s.start > 0
    ensures s.append && (Live(s.u) || s.u.UEnding?) && s.cause == 0 && !s.tampered ==>
              s.start <= |s.accepted| && s.remote == s.accepted[..s.start] &&
              s.remote + SessionBytes(s) == s.handed
  {
    ReachableInv(s);
  }
}
