/**
 The invariant of the upload protocol.  The four semaphores pass one baton: whoever holds it may
 touch the stream buffer.  The clauses below say, for each place the client can be, where the
 baton is and what the uploader can be doing.
 */
module UploadInvariant {
  import opened Wrappers
  import opened Upload

  // ---------------------------------------------------------------- classes of program counters

  /** The transfer is starting or running and the callback has not ended it. */
  predicate Live(u: UploaderPc) {
    u.UStart? || u.UPerform? || u.CbReadyTest? || u.CbReadyPost? || u.CbReadySet? || u.CbLenTest? ||
    u.CbFlagTest? || u.CbPostWritten? || u.CbWaitAvail? || UHolds(u)
  }

  /** The uploader is between taking `data_avail` and passing the buffer on. */
  predicate UHolds(u: UploaderPc) {
    u.CbEofTest? || u.CbCopy? || u.CbPostAvail? || u.CbSetFlag? || u.CbPostNeed?
  }

  /** `curl_easy_perform` has returned. */
  predicate Over(u: UploaderPc) {
    u.UReadyTest? || u.UReadyPost? || u.USetFail? || u.UPostNeed? || u.UPostWritten? || u.UExited?
  }

  function Code(u: UploaderPc): int {
    match u
    case UReadyTest(x) => x
    case UReadyPost(x) => x
    case USetFail(x) => x
    case UPostNeed(x) => x
    case UPostWritten(x) => x
    case UExited(x) => x
    case _ => 0
  }

  /** A failed uploader that has not yet posted its `data_need`. */
  predicate NeedComing(u: UploaderPc) {
    (u.UReadyTest? || u.UReadyPost? || u.USetFail? || u.UPostNeed?) && Code(u) != 0
  }

  /** The uploader has not yet posted `ready`. */
  predicate ReadyComing(u: UploaderPc, isReady: bool) {
    u.UStart? || u.CbReadyPost? || u.UReadyPost? ||
    (!isReady && (u.UPerform? || u.CbReadyTest? || u.UReadyTest?))
  }

  /** The client owns the buffer: before it first posts `data_need`, and between waiting for
      `data_need` and posting `data_avail`. */
  predicate CHolds(c: ClientPc) {
    Starting(c) || Holding(c) || c.FinPostAvail?
  }

  predicate Starting(c: ClientPc) {
    c.OpenWaitReady? || c.OpenPostNeed? || c.WriteWaitReady? || c.WritePostNeed?
  }

  predicate Holding(c: ClientPc) {
    c.WriteHold? || c.WritePostAvail? || c.RejectPostAvail?
  }

  /** The baton rests in `data_need`. */
  predicate Home(c: ClientPc) {
    c.Idle? || c.WriteEntry? || c.WriteWaitNeed? || c.WriteClearFlag? || c.WriteCheckFail? ||
    ((c.FinTest? || c.FinWaitNeed?) && c.who.ByFlush?)
  }

  /** The client is closing the session and has given the empty buffer away. */
  predicate Closing(c: ClientPc) {
    Rejecting(c) || (c.FinPostAvail? && c.who.ByBadOffset?) || c.FinSetEof? || c.FinJoin?
  }

  predicate Rejecting(c: ClientPc) {
    (c.FinTest? || c.FinWaitNeed?) && c.who.ByBadOffset?
  }

  /** Inside the callback, before the copy. */
  predicate Asking(u: UploaderPc) {
    u.CbReadyTest? || u.CbReadyPost? || u.CbReadySet? || u.CbLenTest? || u.CbFlagTest? ||
    u.CbPostWritten? || u.CbWaitAvail? || u.CbEofTest? || u.CbCopy?
  }

  /** The client still carries the bytes of its write. */
  predicate Writing(c: ClientPc) {
    c.WriteEntry? || c.WriteWaitReady? || c.WritePostNeed? || c.WriteWaitNeed? || c.WriteHold?
  }

  /** The client has yet to wait for `data_written` in this call. */
  predicate BeforeWritten(c: ClientPc) {
    Starting(c) || c.WriteWaitNeed? || c.WriteHold? || c.WritePostAvail? || c.WriteWaitWritten?
  }

  predicate PastReady(u: UploaderPc) {
    u.CbLenTest? || u.CbFlagTest? || u.CbPostWritten? || u.CbWaitAvail? || UHolds(u) || u.UEnding? ||
    (Over(u) && Code(u) == 0)
  }

  function One(b: bool): nat {
    if b then 1 else 0
  }

  function Batons(s: State): nat {
    s.dataNeed + s.dataAvail + One(CHolds(s.c)) + One(UHolds(s.u))
  }

  // ---------------------------------------------------------------- the invariant

  predicate SessionInv(s: State) {
    && (s.writeConn <==> !s.u.NoThread?)
    && (!s.c.Idle? && !s.c.WriteEntry? && !s.c.FlushCheckSize? ==> s.writeConn)
    && (s.c.FlushCheckSize? ==> !s.writeConn && s.cause == 0)
    && (s.writeConn && !s.c.FinJoin? ==> !s.eof)
    && (s.c.FinJoin? ==> s.eof)
  }

  predicate BatonInv(s: State) {
    && (Live(s.u) ==> Batons(s) == 1)
    && (s.u.UEnding? ==> Batons(s) <= 1 && Closing(s.c))
    && (Over(s.u) && Code(s.u) == 0 ==> Closing(s.c))
  }

  /** Where the baton is when the uploader is running, and which posts are still to come when it
      is not. */
  predicate NeedInv(s: State) {
    && (Live(s.u) && Home(s.c) ==> s.dataNeed == 1)
    && (Live(s.u) && (s.c.FinSetEof? || s.c.FinJoin?) ==> s.dataNeed == 0)
    && (Over(s.u) && Home(s.c) ==> s.dataNeed >= 1)
    && (Over(s.u) && s.c.WriteWaitNeed? ==> s.dataNeed >= 2 || NeedComing(s.u))
    && ((Over(s.u) || s.u.UEnding?) && Rejecting(s.c) ==> s.dataNeed >= 1 || NeedComing(s.u))
    && (Over(s.u) && !Closing(s.c) && !s.c.FinPostAvail? ==> s.dataNeed >= 1 || NeedComing(s.u))
  }

  predicate ReadyInv(s: State) {
    && (s.c.OpenWaitReady? || s.c.WriteWaitReady? ==> s.ready > 0 || ReadyComing(s.u, s.isReady))
    && (s.u.UStart? ==> s.ready == 0 && !s.isReady && (s.c.OpenWaitReady? || s.c.WriteWaitReady?))
  }

  /** `data_written` and the flag that guards the read of the buffer length outside the baton. */
  predicate WrittenInv(s: State) {
    && (Live(s.u) && s.c.WriteWaitWritten? ==>
          if s.dataNeed == 0 then
            s.dataWritten == 0 && !s.u.CbPostWritten? && (s.writtenFlag <==> s.u.CbPostNeed?)
          else
            s.writtenFlag && s.dataWritten == One(s.u.CbWaitAvail?))
    && (Over(s.u) && !s.u.UExited? && !Closing(s.c) ==> s.dataWritten == 0)
    && (s.u.UExited? && BeforeWritten(s.c) ==> s.dataWritten == 1)
    && (Live(s.u) && !s.c.WriteWaitWritten? && !s.c.WriteClearFlag? && !Closing(s.c) ==>
          !s.writtenFlag && s.dataWritten == 0 && !s.u.CbPostWritten?)
    && (Live(s.u) && s.c.WriteClearFlag? ==> s.u.CbWaitAvail? && s.dataWritten == 0)
    && (Live(s.u) && s.c.WriteCheckFail? ==> s.u.CbWaitAvail?)
    && (Over(s.u) && (s.c.WriteClearFlag? || s.c.WriteCheckFail?) ==> s.u.UExited?)
    && (Live(s.u) && Closing(s.c) ==> !s.u.CbPostWritten? && (s.writtenFlag ==> s.u.CbPostNeed?))
  }

  /** What is in the stream buffer. */
  predicate BufferInv(s: State) {
    && (Live(s.u) && s.c.WritePostAvail? ==> s.streamBuf != [])
    && (Live(s.u) && s.c.WriteWaitWritten? ==>
          (s.streamBuf != [] <==> s.dataNeed == 0 && !s.u.CbSetFlag? && !s.u.CbPostNeed?))
    && (s.u.CbPostAvail? ==> s.c.WriteWaitWritten? && s.u.k > 0)
    && (s.u.CbSetFlag? || s.u.CbPostNeed? ==>
          if s.c.WriteWaitWritten? then s.u.k > 0 else Closing(s.c) && s.u.k == 0)
    && ((Live(s.u) || s.u.UEnding?) && !s.c.WritePostAvail? && !s.c.WriteWaitWritten? ==> s.streamBuf == [])
    && (Over(s.u) && Code(s.u) == 0 ==> s.streamBuf == [])
    && (s.u.NoThread? && s.cause == 0 ==> s.streamBuf == [])
    && (Asking(s.u) ==> s.u.asked > 0)
    && (Writing(s.c) ==> s.c.data != [])
  }

  predicate CauseInv(s: State) {
    && (s.writeConn && s.cause != 0 ==> s.u.UPostNeed? || s.u.UPostWritten? || s.u.UExited?)
    && (s.u.UPostNeed? || s.u.UPostWritten? || s.u.UExited? ==> s.cause == Code(s.u))
    && (s.u.USetFail? || s.u.UPostNeed? || s.u.UReadyPost? ==> Code(s.u) != 0)
    && (PastReady(s.u) ==> s.isReady)
  }

  /** Every accepted byte is either with libcurl or in the buffer, in order. */
  predicate BytesInv(s: State) {
    && s.accepted == s.handed + s.streamBuf
    && s.pos == |s.accepted|
    && (s.writeConn ==> s.start <= |s.handed|)
    && (s.u.UStart? ==> s.pos == s.start)
    && (s.writeConn && !s.u.UStart? ==> (s.append <==> s.start > 0))
    && (s.writeConn && Starting(s.c) ==> s.pos == s.start)
  }

  /** The file on the server, as long as nobody else writes it. */
  predicate RemoteInv(s: State) {
    s.cause == 0 && !s.tampered ==>
      && (!s.writeConn && s.pos > 0 ==> s.remote == s.accepted)
      && (s.writeConn && (Live(s.u) || s.u.UEnding?) && s.start > 0 ==>
            s.start <= |s.accepted| && s.remote == s.accepted[..s.start])
      && (Over(s.u) && Code(s.u) == 0 ==> s.remote == s.accepted)
      && (s.c.FlushCheckSize? ==> s.remote == s.accepted)
  }

  predicate Inv(s: State) {
    && SessionInv(s) && BatonInv(s) && NeedInv(s) && ReadyInv(s) && WrittenInv(s)
    && BufferInv(s) && CauseInv(s) && BytesInv(s) && RemoteInv(s)
  }

  // ---------------------------------------------------------------- a measure that every step lowers

  function ClientRank(c: ClientPc): nat {
    match c
    case Idle(_) => 0
    case OpenWaitReady => 2
    case OpenPostNeed => 1
    case WriteEntry(_, _) => 15
    case WriteWaitReady(_, _) => 14
    case WritePostNeed(_, _) => 13
    case WriteWaitNeed(_, _) => 12
    case WriteHold(_, _) => 11
    case WritePostAvail(_) => 4
    case WriteWaitWritten(_) => 3
    case WriteClearFlag(_) => 2
    case WriteCheckFail(_) => 1
    case RejectPostAvail => 10
    case FinTest(_) => 9
    case FinWaitNeed(_) => 8
    case FinPostAvail(_) => 7
    case FinSetEof(_) => 6
    case FinJoin(_) => 5
    case FlushCheckSize => 1
  }

  function UploaderRank(u: UploaderPc): nat {
    match u
    case NoThread => 0
    case UStart => 22
    case UPerform => 19
    case CbReadyTest(_) => 18
    case CbReadyPost(_) => 17
    case CbReadySet(_) => 16
    case CbLenTest(_) => 15
    case CbFlagTest(_) => 14
    case CbPostWritten(_) => 13
    case CbWaitAvail(_) => 12
    case CbEofTest(_) => 11
    case CbCopy(_) => 10
    case CbPostAvail(_) => 21
    case CbSetFlag(k) => if k == 0 then 8 else 21
    case CbPostNeed(k) => if k == 0 then 7 else 20
    case UEnding => 6
    case UReadyTest(_) => 5
    case UReadyPost(_) => 4
    case USetFail(_) => 3
    case UPostNeed(_) => 2
    case UPostWritten(_) => 1
    case UExited(_) => 0
  }

  /** Bytes the client still has to put into the buffer. */
  function Carried(c: ClientPc): nat {
    if Writing(c) then |c.data| else 0
  }

  function Weight(s: State): nat {
    30 * ClientRank(s.c) + 20 * (Carried(s.c) + |s.streamBuf|) + UploaderRank(s.u)
  }

  /** libcurl failed in this session, or an earlier failure is on record. */
  predicate Failed(s: State) {
    s.cause != 0 || (Over(s.u) && Code(s.u) != 0)
  }

  /** What every step of the client guarantees. */
  predicate ClientMove(s: State, s': State) {
    && Inv(s') && Weight(s') < Weight(s)
    && (Failed(s) ==> Failed(s'))
    && (Failed(s) && s'.c.Idle? && !s.c.OpenPostNeed? ==> s'.c.last == IoError)
    && (s'.streamBuf != s.streamBuf ==> s.c.WriteHold?)
    && (s.writeConn && !s.c.FinJoin? ==> s'.writeConn)
    && s'.mayStart == s.mayStart
  }

  /** What every step of the uploader guarantees. */
  predicate UploaderMove(s: State, s': State) {
    && Inv(s') && Weight(s') < Weight(s)
    && (Failed(s) ==> Failed(s'))
    && (s'.streamBuf != s.streamBuf ==> s.u.CbCopy?)
    && s'.c == s.c && s'.accepted == s.accepted && s'.pos == s.pos
    && s'.writeConn == s.writeConn && s'.tampered == s.tampered && s'.mayStart == s.mayStart
  }

  // ---------------------------------------------------------------- preservation, one program point at a time

  lemma InvInit(starts: bool, remote: seq<Byte>)
    ensures Inv(Opened(starts, remote))
  {
  }

  lemma CallWriteKeepsInv(s: State, data: seq<Byte>, offset: nat)
    requires Inv(s) && s.c.Idle? && data != []
    ensures Inv(s.(c := WriteEntry(data, offset)))
  {
  }

  lemma CallFlushKeepsInv(s: State)
    requires Inv(s) && s.c.Idle?
    ensures Inv(Step(s, CallFlush).value)
  {
  }

  lemma CallTruncateKeepsInv(s: State, created: bool)
    requires Inv(s) && s.c.Idle?
    ensures Inv(Step(s, CallTruncate(created)).value)
  {
  }

  lemma OutsiderKeepsInv(s: State, content: seq<Byte>)
    requires Inv(s)
    ensures Inv(s.(remote := content, tampered := true))
  {
  }

  lemma ClientOpenWaitReady(s: State, statOk: bool)
    requires Inv(s) && s.c.OpenWaitReady?
    requires ClientStep(s, statOk).Some?
    ensures ClientMove(s, ClientStep(s, statOk).value)
  {
  }

  lemma ClientOpenPostNeed(s: State, statOk: bool)
    requires Inv(s) && s.c.OpenPostNeed?
    requires ClientStep(s, statOk).Some?
    ensures ClientMove(s, ClientStep(s, statOk).value)
  {
  }

  lemma WriteAnswered(s: State, reply: Reply)
    requires Inv(s) && s.c.WriteEntry? && (Failed(s) ==> reply == IoError)
    ensures ClientMove(s, s.(c := Idle(reply)))
  {
  }

  lemma WriteStarts(s: State)
    requires Inv(s) && s.c.WriteEntry? && s.cause == 0 && !s.writeConn
    ensures ClientMove(s, StartThread(s).(c := WriteWaitReady(s.c.data, s.c.offset)))
  {
    assert s.accepted[..|s.accepted|] == s.accepted;
  }

  lemma WriteQueues(s: State)
    requires Inv(s) && s.c.WriteEntry? && s.cause == 0 && s.writeConn
    ensures ClientMove(s, s.(c := WriteWaitNeed(s.c.data, s.c.offset)))
  {
  }

  lemma ClientWriteEntry(s: State, statOk: bool)
    requires Inv(s) && s.c.WriteEntry?
    ensures ClientMove(s, WriteBegins(s, s.c.data, s.c.offset, statOk))
  {
    WriteAnswered(s, IoError);
    if s.cause == 0 {
      if s.writeConn { WriteQueues(s); } else { WriteAnswered(s, Wrote(|s.c.data|)); WriteStarts(s); }
    }
  }

  lemma ClientWriteWaitReady(s: State, statOk: bool)
    requires Inv(s) && s.c.WriteWaitReady?
    requires ClientStep(s, statOk).Some?
    ensures ClientMove(s, ClientStep(s, statOk).value)
  {
  }

  lemma ClientWritePostNeed(s: State, statOk: bool)
    requires Inv(s) && s.c.WritePostNeed?
    requires ClientStep(s, statOk).Some?
    ensures ClientMove(s, ClientStep(s, statOk).value)
  {
  }

  lemma ClientWriteWaitNeed(s: State, statOk: bool)
    requires Inv(s) && s.c.WriteWaitNeed?
    requires ClientStep(s, statOk).Some?
    ensures ClientMove(s, ClientStep(s, statOk).value)
  {
  }

  lemma ClientWriteAccepted(s: State, statOk: bool)
    requires Inv(s) && s.c.WriteHold? && s.c.offset == s.pos
    ensures ClientMove(s, ClientStep(s, statOk).value)
  {
    var s' := ClientStep(s, statOk).value;
    assert s'.accepted == s'.handed + s'.streamBuf by {
      assert s.handed + (s.streamBuf + s.c.data) == (s.handed + s.streamBuf) + s.c.data;
    }
    assert s.start <= |s.accepted| ==> s'.accepted[..s.start] == s.accepted[..s.start];
  }

  lemma ClientWriteRejected(s: State, statOk: bool)
    requires Inv(s) && s.c.WriteHold? && s.c.offset != s.pos
    ensures ClientMove(s, ClientStep(s, statOk).value)
  {
  }

  lemma ClientWritePostAvail(s: State, statOk: bool)
    requires Inv(s) && s.c.WritePostAvail?
    requires ClientStep(s, statOk).Some?
    ensures ClientMove(s, ClientStep(s, statOk).value)
  {
  }

  lemma ClientWriteWaitWritten(s: State, statOk: bool)
    requires Inv(s) && s.c.WriteWaitWritten?
    requires ClientStep(s, statOk).Some?
    ensures ClientMove(s, ClientStep(s, statOk).value)
  {
  }

  lemma ClientWriteClearFlag(s: State, statOk: bool)
    requires Inv(s) && s.c.WriteClearFlag?
    requires ClientStep(s, statOk).Some?
    ensures ClientMove(s, ClientStep(s, statOk).value)
  {
  }

  lemma ClientWriteCheckFail(s: State, statOk: bool)
    requires Inv(s) && s.c.WriteCheckFail?
    requires ClientStep(s, statOk).Some?
    ensures ClientMove(s, ClientStep(s, statOk).value)
  {
  }

  lemma ClientRejectPostAvail(s: State, statOk: bool)
    requires Inv(s) && s.c.RejectPostAvail?
    requires ClientStep(s, statOk).Some?
    ensures ClientMove(s, ClientStep(s, statOk).value)
  {
  }

  lemma ClientFinTestWaits(s: State, statOk: bool)
    requires Inv(s) && s.c.FinTest? && s.cause == 0
    ensures ClientMove(s, ClientStep(s, statOk).value)
  {
  }

  lemma ClientFinTestSkips(s: State, statOk: bool)
    requires Inv(s) && s.c.FinTest? && s.cause != 0
    ensures ClientMove(s, ClientStep(s, statOk).value)
  {
  }

  lemma ClientFinWaitNeed(s: State, statOk: bool)
    requires Inv(s) && s.c.FinWaitNeed?
    requires ClientStep(s, statOk).Some?
    ensures ClientMove(s, ClientStep(s, statOk).value)
  {
  }

  lemma ClientFinPostAvail(s: State, statOk: bool)
    requires Inv(s) && s.c.FinPostAvail?
    requires ClientStep(s, statOk).Some?
    ensures ClientMove(s, ClientStep(s, statOk).value)
  {
  }

  lemma ClientFinSetEof(s: State, statOk: bool)
    requires Inv(s) && s.c.FinSetEof?
    requires ClientStep(s, statOk).Some?
    ensures ClientMove(s, ClientStep(s, statOk).value)
  {
  }

  lemma JoinReports(s: State, who: Closer)
    requires Inv(s) && s.c == FinJoin(who) && s.u.UExited? && (who.ByBadOffset? || s.cause != 0)
    ensures ClientMove(s, Joined(s, who))
  {
  }

  lemma JoinChecks(s: State)
    requires Inv(s) && s.c == FinJoin(ByFlush) && s.u.UExited? && s.cause == 0
    ensures ClientMove(s, Joined(s, ByFlush))
  {
  }

  lemma ClientFlushCheckSize(s: State, statOk: bool)
    requires Inv(s) && s.c.FlushCheckSize?
    requires ClientStep(s, statOk).Some?
    ensures ClientMove(s, ClientStep(s, statOk).value)
  {
  }

  lemma UploaderUStart(s: State, e: CurlEvent)
    requires Inv(s) && s.u.UStart?
    requires UploaderStep(s, e).Some?
    ensures UploaderMove(s, UploaderStep(s, e).value)
  {
  }

  lemma UploaderCalledBack(s: State, room: nat)
    requires Inv(s) && s.u.UPerform? && room > 0
    ensures UploaderMove(s, UploaderStep(s, Callback(room)).value)
  {
  }

  lemma UploaderFails(s: State, code: int, stored: Option<nat>)
    requires Inv(s) && s.u.UPerform? && code != 0
    ensures UploaderMove(s, UploaderStep(s, Fails(code, stored)).value)
  {
  }

  lemma UploaderCbReadyTest(s: State, e: CurlEvent)
    requires Inv(s) && s.u.CbReadyTest?
    requires UploaderStep(s, e).Some?
    ensures UploaderMove(s, UploaderStep(s, e).value)
  {
  }

  lemma UploaderCbReadyPost(s: State, e: CurlEvent)
    requires Inv(s) && s.u.CbReadyPost?
    requires UploaderStep(s, e).Some?
    ensures UploaderMove(s, UploaderStep(s, e).value)
  {
  }

  lemma UploaderCbReadySet(s: State, e: CurlEvent)
    requires Inv(s) && s.u.CbReadySet?
    requires UploaderStep(s, e).Some?
    ensures UploaderMove(s, UploaderStep(s, e).value)
  {
  }

  lemma UploaderCbLenTest(s: State, e: CurlEvent)
    requires Inv(s) && s.u.CbLenTest?
    requires UploaderStep(s, e).Some?
    ensures UploaderMove(s, UploaderStep(s, e).value)
  {
  }

  lemma UploaderCbFlagTest(s: State, e: CurlEvent)
    requires Inv(s) && s.u.CbFlagTest?
    requires UploaderStep(s, e).Some?
    ensures UploaderMove(s, UploaderStep(s, e).value)
  {
  }

  lemma UploaderCbPostWritten(s: State, e: CurlEvent)
    requires Inv(s) && s.u.CbPostWritten?
    requires UploaderStep(s, e).Some?
    ensures UploaderMove(s, UploaderStep(s, e).value)
  {
  }

  lemma UploaderCbWaitAvail(s: State, e: CurlEvent)
    requires Inv(s) && s.u.CbWaitAvail?
    requires UploaderStep(s, e).Some?
    ensures UploaderMove(s, UploaderStep(s, e).value)
  {
  }

  lemma UploaderCbEofTest(s: State, e: CurlEvent)
    requires Inv(s) && s.u.CbEofTest?
    requires UploaderStep(s, e).Some?
    ensures UploaderMove(s, UploaderStep(s, e).value)
  {
  }

  lemma UploaderCopiesSome(s: State, e: CurlEvent)
    requires Inv(s) && s.u.CbCopy? && s.u.asked < |s.streamBuf|
    ensures UploaderMove(s, UploaderStep(s, e).value)
  {
    var k := s.u.asked;
    assert s.handed + s.streamBuf == (s.handed + s.streamBuf[..k]) + s.streamBuf[k..] by {
      assert s.streamBuf == s.streamBuf[..k] + s.streamBuf[k..];
    }
  }

  lemma UploaderCopiesAll(s: State, e: CurlEvent)
    requires Inv(s) && s.u.CbCopy? && s.u.asked >= |s.streamBuf|
    ensures UploaderMove(s, UploaderStep(s, e).value)
  {
    var k := |s.streamBuf|;
    assert s.streamBuf[..k] == s.streamBuf && s.streamBuf[k..] == [];
  }

  lemma UploaderCbPostAvail(s: State, e: CurlEvent)
    requires Inv(s) && s.u.CbPostAvail?
    requires UploaderStep(s, e).Some?
    ensures UploaderMove(s, UploaderStep(s, e).value)
  {
  }

  lemma UploaderCbSetFlag(s: State, e: CurlEvent)
    requires Inv(s) && s.u.CbSetFlag?
    requires UploaderStep(s, e).Some?
    ensures UploaderMove(s, UploaderStep(s, e).value)
  {
  }

  lemma UploaderCbPostNeed(s: State, e: CurlEvent)
    requires Inv(s) && s.u.CbPostNeed?
    requires UploaderStep(s, e).Some?
    ensures UploaderMove(s, UploaderStep(s, e).value)
  {
  }

  lemma UploaderCompletes(s: State)
    requires Inv(s) && s.u.UEnding?
    ensures UploaderMove(s, UploaderStep(s, Completes).value)
  {
  }

  lemma UploaderFailsEnding(s: State, code: int, stored: Option<nat>)
    requires Inv(s) && s.u.UEnding? && code != 0
    ensures UploaderMove(s, UploaderStep(s, Fails(code, stored)).value)
  {
  }

  lemma UploaderUReadyTest(s: State, e: CurlEvent)
    requires Inv(s) && s.u.UReadyTest?
    requires UploaderStep(s, e).Some?
    ensures UploaderMove(s, UploaderStep(s, e).value)
  {
  }

  lemma UploaderUReadyPost(s: State, e: CurlEvent)
    requires Inv(s) && s.u.UReadyPost?
    requires UploaderStep(s, e).Some?
    ensures UploaderMove(s, UploaderStep(s, e).value)
  {
  }

  lemma UploaderUSetFail(s: State, e: CurlEvent)
    requires Inv(s) && s.u.USetFail?
    requires UploaderStep(s, e).Some?
    ensures UploaderMove(s, UploaderStep(s, e).value)
  {
  }

  lemma UploaderUPostNeed(s: State, e: CurlEvent)
    requires Inv(s) && s.u.UPostNeed?
    requires UploaderStep(s, e).Some?
    ensures UploaderMove(s, UploaderStep(s, e).value)
  {
  }

  lemma UploaderUPostWritten(s: State, e: CurlEvent)
    requires Inv(s) && s.u.UPostWritten?
    requires UploaderStep(s, e).Some?
    ensures UploaderMove(s, UploaderStep(s, e).value)
  {
  }

}
