/** What the upload protocol guarantees, over every interleaving of the two threads. */
module UploadTheorems {
  import opened Wrappers
  import opened Upload
  import opened UploadInvariant

  // ---------------------------------------------------------------- the invariant over runs

  lemma ClientSound(s: State, statOk: bool)
    requires Inv(s) && ClientStep(s, statOk).Some?
    ensures ClientMove(s, ClientStep(s, statOk).value)
  {
    match s.c
    case OpenWaitReady => ClientOpenWaitReady(s, statOk);
    case OpenPostNeed => ClientOpenPostNeed(s, statOk);
    case WriteEntry(_, _) => ClientWriteEntry(s, statOk);
    case WriteWaitReady(_, _) => ClientWriteWaitReady(s, statOk);
    case WritePostNeed(_, _) => ClientWritePostNeed(s, statOk);
    case WriteWaitNeed(_, _) => ClientWriteWaitNeed(s, statOk);
    case WriteHold(_, offset) =>
      if offset == s.pos { ClientWriteAccepted(s, statOk); } else { ClientWriteRejected(s, statOk); }
    case WritePostAvail(_) => ClientWritePostAvail(s, statOk);
    case WriteWaitWritten(_) => ClientWriteWaitWritten(s, statOk);
    case WriteClearFlag(_) => ClientWriteClearFlag(s, statOk);
    case WriteCheckFail(_) => ClientWriteCheckFail(s, statOk);
    case RejectPostAvail => ClientRejectPostAvail(s, statOk);
    case FinTest(_) => if s.cause == 0 { ClientFinTestWaits(s, statOk); } else { ClientFinTestSkips(s, statOk); }
    case FinWaitNeed(_) => ClientFinWaitNeed(s, statOk);
    case FinPostAvail(_) => ClientFinPostAvail(s, statOk);
    case FinSetEof(_) => ClientFinSetEof(s, statOk);
    case FinJoin(who) => if who.ByBadOffset? || s.cause != 0 { JoinReports(s, who); } else { JoinChecks(s); }
    case FlushCheckSize => ClientFlushCheckSize(s, statOk);
  }

  lemma UploaderSound(s: State, e: CurlEvent)
    requires Inv(s) && UploaderStep(s, e).Some?
    ensures UploaderMove(s, UploaderStep(s, e).value)
  {
    match s.u
    case UStart => UploaderUStart(s, e);
    case UPerform =>
      match e {
        case Callback(room) => UploaderCalledBack(s, room);
        case Fails(code, stored) => UploaderFails(s, code, stored);
      }
    case CbReadyTest(_) => UploaderCbReadyTest(s, e);
    case CbReadyPost(_) => UploaderCbReadyPost(s, e);
    case CbReadySet(_) => UploaderCbReadySet(s, e);
    case CbLenTest(_) => UploaderCbLenTest(s, e);
    case CbFlagTest(_) => UploaderCbFlagTest(s, e);
    case CbPostWritten(_) => UploaderCbPostWritten(s, e);
    case CbWaitAvail(_) => UploaderCbWaitAvail(s, e);
    case CbEofTest(_) => UploaderCbEofTest(s, e);
    case CbCopy(asked) => if asked < |s.streamBuf| { UploaderCopiesSome(s, e); } else { UploaderCopiesAll(s, e); }
    case CbPostAvail(_) => UploaderCbPostAvail(s, e);
    case CbSetFlag(_) => UploaderCbSetFlag(s, e);
    case CbPostNeed(_) => UploaderCbPostNeed(s, e);
    case UEnding =>
      match e {
        case Completes => UploaderCompletes(s);
        case Fails(code, stored) => UploaderFailsEnding(s, code, stored);
      }
    case UReadyTest(_) => UploaderUReadyTest(s, e);
    case UReadyPost(_) => UploaderUReadyPost(s, e);
    case USetFail(_) => UploaderUSetFail(s, e);
    case UPostNeed(_) => UploaderUPostNeed(s, e);
    case UPostWritten(_) => UploaderUPostWritten(s, e);
  }

  lemma StepKeepsInv(s: State, a: Action)
    requires Inv(s) && Sane(a) && Step(s, a).Some?
    ensures Inv(Step(s, a).value)
  {
    match a
    case Client(statOk) => ClientSound(s, statOk);
    case Uploader(e) => UploaderSound(s, e);
    case CallWrite(data, offset) => CallWriteKeepsInv(s, data, offset);
    case CallFlush => CallFlushKeepsInv(s);
    case CallTruncate(created) => CallTruncateKeepsInv(s, created);
    case Outsider(content) => OutsiderKeepsInv(s, content);
  }

  lemma {:induction false} ExecKeepsInv(s: State, acts: seq<Action>)
    requires Inv(s) && AllSane(acts) && Exec(s, acts).Some?
    ensures Inv(Exec(s, acts).value)
    decreases |acts|
  {
    if acts != [] {
      assert Sane(acts[0]);
      StepKeepsInv(s, acts[0]);
      ExecKeepsInv(Step(s, acts[0]).value, acts[1..]);
    }
  }

  lemma ReachableInv(s: State)
    requires Reachable(s)
    ensures Inv(s)
  {
    var starts, remote, acts :| AllSane(acts) && Exec(Opened(starts, remote), acts) == Some(s);
    InvInit(starts, remote);
    ExecKeepsInv(Opened(starts, remote), acts);
  }

  // ---------------------------------------------------------------- the baton

  /** Inside `curl_easy_perform` at most one thread owns the buffer and no second owner is on its way. */
  lemma OneBaton(s: State)
    requires Reachable(s) && (Live(s.u) || s.u.UEnding?)
    ensures Batons(s) <= 1
    ensures !(CHolds(s.c) && UHolds(s.u))
  {
    ReachableInv(s);
  }

  lemma CallsLeaveBuffer(s: State, a: Action)
    requires !a.Client? && !a.Uploader? && Step(s, a).Some?
    ensures Step(s, a).value.streamBuf == s.streamBuf
  {
    match a
    case CallWrite(_, _) =>
    case CallFlush =>
    case CallTruncate(_) =>
    case Outsider(_) =>
  }

  /** Whoever changes the buffer holds the baton, and the other thread does not. */
  lemma OnlyTheHolderTouches(s: State, a: Action)
    requires Reachable(s) && Step(s, a).Some? && Step(s, a).value.streamBuf != s.streamBuf
    ensures a.Client? ==> CHolds(s.c) && !UHolds(s.u)
    ensures a.Uploader? ==> UHolds(s.u) && !CHolds(s.c)
    ensures a.Client? || a.Uploader?
  {
    ReachableInv(s);
    match a
    case Client(statOk) => ClientSound(s, statOk);
    case Uploader(e) => UploaderSound(s, e);
    case _ => CallsLeaveBuffer(s, a);
  }

  /** The test of the buffer length outside the baton never wakes the client too early: when the
      callback posts `data_written`, the client is waiting for it and everything was handed over. */
  lemma NoSpuriousWakeup(s: State)
    requires Reachable(s) && s.u.CbPostWritten?
    ensures s.c.WriteWaitWritten? && s.dataWritten == 0 && s.streamBuf == [] && s.handed == s.accepted
  {
    ReachableInv(s);
  }

  // ---------------------------------------------------------------- what is handed over

  /** libcurl has always been given a prefix of the accepted bytes, and the rest is in the buffer. */
  lemma HandedIsPrefix(s: State)
    requires Reachable(s)
    ensures s.handed <= s.accepted
    ensures s.accepted == s.handed + s.streamBuf
    ensures s.pos == |s.accepted|
  {
    ReachableInv(s);
  }

  /** When a write on a live connection returns its size, libcurl has been given every byte. */
  lemma WriteReturnsAfterHandOver(s: State, statOk: bool)
    requires Reachable(s) && s.c.WriteCheckFail?
    requires ClientStep(s, statOk).value.c.last.Wrote?
    ensures s.handed == s.accepted && s.streamBuf == []
    ensures s.start + |SessionBytes(s)| == s.pos
    ensures Live(s.u)
  {
    ReachableInv(s);
  }

  // ---------------------------------------------------------------- progress and termination

  /** libcurl's next move: it asks for a byte, or finishes after the callback returned 0. */
  function SomeEvent(u: UploaderPc): CurlEvent {
    if u.UPerform? then Callback(1) else Completes
  }

  /** While a call is in progress one of the threads can move. */
  lemma NoDeadlock(s: State)
    requires Inv(s) && !s.c.Idle?
    ensures ClientStep(s, true).Some? || UploaderStep(s, SomeEvent(s.u)).Some?
  {
  }

  /** A step of one of the two threads, as opposed to a new call or an outside write. */
  predicate Work(a: Action) {
    a.Client? || a.Uploader?
  }

  predicate AllWork(acts: seq<Action>) {
    forall i :: 0 <= i < |acts| ==> Work(acts[i])
  }

  /** However the threads are scheduled and whatever libcurl does, they cannot run for long. */
  lemma {:induction false} RunsAreShort(s: State, acts: seq<Action>)
    requires Inv(s) && AllWork(acts) && Exec(s, acts).Some?
    ensures Weight(Exec(s, acts).value) + |acts| <= Weight(s)
    decreases |acts|
  {
    if acts != [] {
      assert Work(acts[0]);
      match acts[0] {
        case Client(statOk) => ClientSound(s, statOk);
        case Uploader(e) => UploaderSound(s, e);
      }
      StepKeepsInv(s, acts[0]);
      RunsAreShort(Step(s, acts[0]).value, acts[1..]);
    }
  }

  /** Every call returns: a run of the two threads is bounded, and where it cannot be extended the
      client is idle. */
  lemma EveryCallReturns(s: State, acts: seq<Action>)
    requires Reachable(s) && AllWork(acts) && Exec(s, acts).Some?
    ensures |acts| <= Weight(s)
    ensures (forall a :: Work(a) ==> Step(Exec(s, acts).value, a).None?) ==> Exec(s, acts).value.c.Idle?
  {
    ReachableInv(s);
    RunsAreShort(s, acts);
    ExecKeepsInv(s, acts);
    var end := Exec(s, acts).value;
    if !end.c.Idle? {
      NoDeadlock(end);
      assert Step(end, Client(true)).Some? || Step(end, Uploader(SomeEvent(end.u))).Some?;
    }
  }

  // ---------------------------------------------------------------- failures

  lemma FailureSticks(s: State, a: Action)
    requires Inv(s) && Failed(s) && Step(s, a).Some?
    ensures Failed(Step(s, a).value)
  {
    match a
    case Client(statOk) => ClientSound(s, statOk);
    case Uploader(e) => UploaderSound(s, e);
    case _ =>
  }

  lemma {:induction false} FailureSticksForever(s: State, acts: seq<Action>)
    requires Inv(s) && Failed(s) && AllSane(acts) && Exec(s, acts).Some?
    ensures Failed(Exec(s, acts).value)
    decreases |acts|
  {
    if acts != [] {
      assert Sane(acts[0]);
      FailureSticks(s, acts[0]);
      StepKeepsInv(s, acts[0]);
      FailureSticksForever(Step(s, acts[0]).value, acts[1..]);
    }
  }

  /** No libcurl failure is lost: from the moment a transfer fails, every write that returns and
      every flush that closes a session answers EIO. */
  lemma NoFailureLost(s: State, acts: seq<Action>, statOk: bool)
    requires Reachable(s) && Failed(s) && AllSane(acts) && Exec(s, acts).Some?
    requires ClientStep(Exec(s, acts).value, statOk).Some?
    ensures
      var last := Exec(s, acts).value;
      var next := ClientStep(last, statOk).value;
      next.c.Idle? && !last.c.OpenPostNeed? ==> next.c.last == IoError
  {
    ReachableInv(s);
    ExecKeepsInv(s, acts);
    FailureSticksForever(s, acts);
    ClientSound(Exec(s, acts).value, statOk);
  }
}
