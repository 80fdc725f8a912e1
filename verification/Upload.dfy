/**
 The streaming upload of one open file: `ftpfs_write`, `ftpfs_flush` and the two thread helpers
 on the client side, `ftpfs_write_thread` and its callback `write_data_bg` on the uploader side.

 The two threads share the fields of the file handle and hand the stream buffer to each other
 with four semaphores; no mutex is held.  Every access to shared state is one step of the
 transition system below, and a step is named who the program counter that is about to take it.
 */
module Upload {
  import opened Wrappers

  // ---------------------------------------------------------------- program counters

  datatype Reply = Wrote(n: nat) | Done | IoError | NoEntry | NotPermitted

  /** Who called `finish_write_thread`: a flush, or a write at an offset that is not `pos`. */
  datatype Closer = ByFlush | ByBadOffset

  datatype ClientPc =
    | Idle(last: Reply)
    | OpenWaitReady
    | OpenPostNeed
    | WriteEntry(data: seq<Byte>, offset: nat)
    | WriteWaitReady(data: seq<Byte>, offset: nat)
    | WritePostNeed(data: seq<Byte>, offset: nat)
    | WriteWaitNeed(data: seq<Byte>, offset: nat)
    | WriteHold(data: seq<Byte>, offset: nat)
    | WritePostAvail(n: nat)
    | WriteWaitWritten(n: nat)
    | WriteClearFlag(n: nat)
    | WriteCheckFail(n: nat)
    | RejectPostAvail
    | FinTest(who: Closer)
    | FinWaitNeed(who: Closer)
    | FinPostAvail(who: Closer)
    | FinSetEof(who: Closer)
    | FinJoin(who: Closer)
    | FlushCheckSize

  /** `asked` is the room libcurl offers to the callback, `k` what the callback is about to
      return, `code` the result of `curl_easy_perform` (0 is CURLE_OK). */
  datatype UploaderPc =
    | NoThread
    | UStart
    | UPerform
    | CbReadyTest(asked: nat)
    | CbReadyPost(asked: nat)
    | CbReadySet(asked: nat)
    | CbLenTest(asked: nat)
    | CbFlagTest(asked: nat)
    | CbPostWritten(asked: nat)
    | CbWaitAvail(asked: nat)
    | CbEofTest(asked: nat)
    | CbCopy(asked: nat)
    | CbPostAvail(k: nat)
    | CbSetFlag(k: nat)
    | CbPostNeed(k: nat)
    | UEnding
    | UReadyTest(code: int)
    | UReadyPost(code: int)
    | USetFail(code: int)
    | UPostNeed(code: int)
    | UPostWritten(code: int)
    | UExited(code: int)

  // ---------------------------------------------------------------- state

  datatype State = State(
    // struct ftpfs_file
    streamBuf: seq<Byte>,
    writtenFlag: bool,
    isReady: bool,
    eof: bool,
    cause: int,
    writeConn: bool,
    mayStart: bool,
    pos: nat,
    dataAvail: nat,
    dataNeed: nat,
    dataWritten: nat,
    ready: nat,
    // the two threads
    c: ClientPc,
    u: UploaderPc,
    // the running transfer and the file on the server
    append: bool,
    remote: seq<Byte>,
    // history: bytes put into the stream buffer, bytes handed to libcurl, |accepted| when the
    // running session began, and whether somebody else wrote the remote file
    accepted: seq<Byte>,
    handed: seq<Byte>,
    start: nat,
    tampered: bool)

  /** What libcurl does when it is not inside the callback. */
  datatype CurlEvent =
    | Callback(room: nat)
    | Completes
    | Fails(code: int, stored: Option<nat>)

  datatype Action =
    | CallWrite(data: seq<Byte>, offset: nat)
    | CallFlush
    | CallTruncate(created: bool)
    | Client(statOk: bool)
    | Uploader(event: CurlEvent)
    | Outsider(content: seq<Byte>)

  // ---------------------------------------------------------------- client steps

  /** `start_write_thread`. */
  function StartThread(s: State): State {
    s.(writtenFlag := false, isReady := false, eof := false,
       dataAvail := 0, dataNeed := 0, dataWritten := 0, ready := 0,
       writeConn := true, u := UStart, start := |s.accepted|)
  }

  /** `ftpfs_write` up to the first blocking operation. */
  function WriteBegins(s: State, data: seq<Byte>, offset: nat, statOk: bool): State {
    if s.cause != 0 then s.(c := Idle(IoError))
    else if !s.writeConn && s.pos == 0 && offset == 0 then
      if !s.mayStart && (!statOk || |s.remote| != 0) then s.(c := Idle(IoError))
      else StartThread(s).(c := WriteWaitReady(data, offset))
    else if !s.writeConn && s.pos > 0 && offset == s.pos then
      StartThread(s).(c := WriteWaitReady(data, offset))
    else if s.writeConn then s.(c := WriteWaitNeed(data, offset))
    else s.(c := Idle(Wrote(|data|)))
  }

  /** The rest of `finish_write_thread` once the uploader has exited, and what its caller does next. */
  function Joined(s: State, who: Closer): State {
    var closed := s.(writeConn := false, u := NoThread,
                     dataAvail := 0, dataNeed := 0, dataWritten := 0, ready := 0);
    match who
    case ByBadOffset => closed.(c := Idle(IoError))
    case ByFlush => if s.cause != 0 then closed.(c := Idle(IoError)) else closed.(c := FlushCheckSize)
  }

  function ClientStep(s: State, statOk: bool): Option<State> {
    match s.c
    case Idle(_) => None
    case OpenWaitReady =>
      if s.ready > 0 then Some(s.(ready := s.ready - 1, c := OpenPostNeed)) else None
    case OpenPostNeed => Some(s.(dataNeed := s.dataNeed + 1, c := Idle(Done)))
    case WriteEntry(data, offset) => Some(WriteBegins(s, data, offset, statOk))
    case WriteWaitReady(data, offset) =>
      if s.ready > 0 then Some(s.(ready := s.ready - 1, c := WritePostNeed(data, offset))) else None
    case WritePostNeed(data, offset) =>
      Some(s.(dataNeed := s.dataNeed + 1, c := WriteWaitNeed(data, offset)))
    case WriteWaitNeed(data, offset) =>
      if s.dataNeed > 0 then Some(s.(dataNeed := s.dataNeed - 1, c := WriteHold(data, offset))) else None
    case WriteHold(data, offset) =>
      if offset != s.pos then Some(s.(c := RejectPostAvail))
      else Some(s.(streamBuf := s.streamBuf + data, accepted := s.accepted + data,
                   pos := s.pos + |data|, c := WritePostAvail(|data|)))
    case WritePostAvail(n) => Some(s.(dataAvail := s.dataAvail + 1, c := WriteWaitWritten(n)))
    case WriteWaitWritten(n) =>
      if s.dataWritten > 0 then Some(s.(dataWritten := s.dataWritten - 1, c := WriteClearFlag(n))) else None
    case WriteClearFlag(n) => Some(s.(writtenFlag := false, c := WriteCheckFail(n)))
    case WriteCheckFail(n) => Some(s.(c := Idle(if s.cause != 0 then IoError else Wrote(n))))
    case RejectPostAvail => Some(s.(dataAvail := s.dataAvail + 1, c := FinTest(ByBadOffset)))
    case FinTest(who) => Some(s.(c := if s.cause == 0 then FinWaitNeed(who) else FinPostAvail(who)))
    case FinWaitNeed(who) =>
      if s.dataNeed > 0 then Some(s.(dataNeed := s.dataNeed - 1, c := FinPostAvail(who))) else None
    case FinPostAvail(who) => Some(s.(dataAvail := s.dataAvail + 1, c := FinSetEof(who)))
    case FinSetEof(who) => Some(s.(eof := true, c := FinJoin(who)))
    case FinJoin(who) => if s.u.UExited? then Some(Joined(s, who)) else None
    case FlushCheckSize =>
      if !statOk then Some(s.(c := Idle(NoEntry)))
      else if |s.remote| != s.pos then Some(s.(cause := -999, c := Idle(IoError)))
      else Some(s.(c := Idle(Done)))
  }

  // ---------------------------------------------------------------- uploader steps

  /** The bytes of the running session that libcurl has been given. */
  function SessionBytes(s: State): seq<Byte> {
    if s.start <= |s.handed| then s.handed[s.start..] else []
  }

  /** APPE keeps what the server has, STOR replaces it (section 4.1.3 of RFC 959). */
  function Kept(s: State): seq<Byte> {
    if s.append then s.remote else []
  }

  /** A failed transfer either never reached the file or stored a prefix of the session's bytes. */
  function AfterFailure(s: State, stored: Option<nat>): seq<Byte> {
    match stored
    case None => s.remote
    case Some(n) => Kept(s) + SessionBytes(s)[..Min(n, |SessionBytes(s)|)]
  }

  function AfterPerform(code: int): UploaderPc {
    if code == 0 then UPostWritten(0) else USetFail(code)
  }

  /** A callback that returns 0 ends the upload; any other value lets libcurl ask again. */
  function Returned(k: nat): UploaderPc {
    if k == 0 then UEnding else UPerform
  }

  function UploaderStep(s: State, e: CurlEvent): Option<State> {
    match s.u
    case NoThread => None
    case UStart => Some(s.(append := s.pos > 0, u := UPerform))
    case UPerform =>
      (match e
       case Callback(n) => if n > 0 then Some(s.(u := CbReadyTest(n))) else None
       case Completes => None
       case Fails(code, stored) =>
         if code == 0 then None else Some(s.(remote := AfterFailure(s, stored), u := UReadyTest(code))))
    case CbReadyTest(n) => Some(s.(u := if s.isReady then CbLenTest(n) else CbReadyPost(n)))
    case CbReadyPost(n) => Some(s.(ready := s.ready + 1, u := CbReadySet(n)))
    case CbReadySet(n) => Some(s.(isReady := true, u := CbLenTest(n)))
    case CbLenTest(n) => Some(s.(u := if |s.streamBuf| == 0 then CbFlagTest(n) else CbWaitAvail(n)))
    case CbFlagTest(n) => Some(s.(u := if s.writtenFlag then CbPostWritten(n) else CbWaitAvail(n)))
    case CbPostWritten(n) => Some(s.(dataWritten := s.dataWritten + 1, u := CbWaitAvail(n)))
    case CbWaitAvail(n) =>
      if s.dataAvail > 0 then Some(s.(dataAvail := s.dataAvail - 1, u := CbEofTest(n))) else None
    case CbEofTest(n) => Some(s.(u := if s.eof then UEnding else CbCopy(n)))
    case CbCopy(n) =>
      var k := Min(n, |s.streamBuf|);
      var s' := s.(handed := s.handed + s.streamBuf[..k], streamBuf := s.streamBuf[k..]);
      Some(if |s.streamBuf| > k then s'.(u := CbPostAvail(k)) else s'.(u := CbSetFlag(k)))
    case CbPostAvail(k) => Some(s.(dataAvail := s.dataAvail + 1, u := Returned(k)))
    case CbSetFlag(k) => Some(s.(writtenFlag := true, u := CbPostNeed(k)))
    case CbPostNeed(k) => Some(s.(dataNeed := s.dataNeed + 1, u := Returned(k)))
    case UEnding =>
      (match e
       case Callback(_) => None
       case Completes => Some(s.(remote := Kept(s) + SessionBytes(s), u := UReadyTest(0)))
       case Fails(code, stored) =>
         if code == 0 then None else Some(s.(remote := AfterFailure(s, stored), u := UReadyTest(code))))
    case UReadyTest(code) => Some(s.(u := if s.isReady then AfterPerform(code) else UReadyPost(code)))
    case UReadyPost(code) => Some(s.(ready := s.ready + 1, u := AfterPerform(code)))
    case USetFail(code) => Some(s.(cause := code, u := UPostNeed(code)))
    case UPostNeed(code) => Some(s.(dataNeed := s.dataNeed + 1, u := UPostWritten(code)))
    case UPostWritten(code) => Some(s.(dataWritten := s.dataWritten + 1, u := UExited(code)))
    case UExited(_) => None
  }

  // ---------------------------------------------------------------- the whole system

  function Step(s: State, a: Action): Option<State> {
    match a
    case CallWrite(data, offset) => if s.c.Idle? then Some(s.(c := WriteEntry(data, offset))) else None
    case CallFlush =>
      if s.c.Idle? then Some(s.(c := if s.writeConn then FinTest(ByFlush) else Idle(Done))) else None
    case CallTruncate(created) =>
      if !s.c.Idle? then None
      else if s.pos != 0 then Some(s.(c := Idle(NotPermitted)))
      else if !created then Some(s.(mayStart := true, c := Idle(NotPermitted)))
      else Some(s.(mayStart := true, remote := [], c := Idle(Done)))
    case Client(statOk) => ClientStep(s, statOk)
    case Uploader(e) => UploaderStep(s, e)
    case Outsider(content) => Some(s.(remote := content, tampered := true))
  }

  /** A handle that `ftpfs_open_common` has just opened for writing: with O_CREAT or O_TRUNC the
      upload starts at once, otherwise it starts with the first write. */
  function Opened(starts: bool, remote: seq<Byte>): State {
    var s := State([], false, false, false, 0, false, starts, 0, 0, 0, 0, 0, Idle(Done), NoThread,
                   false, remote, [], [], 0, false);
    if starts then StartThread(s).(c := OpenWaitReady) else s
  }

  function Exec(s: State, acts: seq<Action>): Option<State>
    decreases |acts|
  {
    if acts == [] then Some(s)
    else match Step(s, acts[0])
         case None => None
         case Some(s') => Exec(s', acts[1..])
  }

  /** The kernel never passes an empty write on. */
  predicate Sane(a: Action) {
    a.CallWrite? ==> a.data != []
  }

  predicate AllSane(acts: seq<Action>) {
    forall i :: 0 <= i < |acts| ==> Sane(acts[i])
  }

  ghost predicate Reachable(s: State) {
    exists starts: bool, remote: seq<Byte>, acts: seq<Action> ::
      AllSane(acts) && Exec(Opened(starts, remote), acts) == Some(s)
  }
}
