/** Why writes of no bytes are excluded: they end an upload behind the client's back. */
module EmptyWrites {
  import opened Wrappers
  import opened Upload
  import opened UploadInvariant
  import opened UploadTheorems
  import opened UploadCalls

  /** The two threads can get from `s` to `s'`. */
  ghost predicate Leads(s: State, s': State) {
    exists acts: seq<Action> :: AllWork(acts) && Exec(s, acts) == Some(s')
  }

  lemma Go(s: State, s1: State, a: Action) returns (s2: State)
    requires Leads(s, s1) && Work(a) && Step(s1, a).Some?
    ensures s2 == Step(s1, a).value && Leads(s, s2)
  {
    s2 := Step(s1, a).value;
    var acts :| AllWork(acts) && Exec(s, acts) == Some(s1);
    ExecAppend(s, acts, [a]);
    assert [a][1..] == [] && Exec(s2, []) == Some(s2);
    assert AllWork(acts + [a]) && Exec(s, acts + [a]) == Some(s2);
  }

  lemma LeadsReachably(s: State, s': State)
    requires Reachable(s) && Leads(s, s')
    ensures Reachable(s')
  {
    var acts :| AllWork(acts) && Exec(s, acts) == Some(s');
    assert AllSane(acts) by {
      forall i | 0 <= i < |acts| ensures Sane(acts[i]) { assert Work(acts[i]); }
    }
    ReachableExtends(s, acts);
  }

  lemma CallIsReachable(s: State, data: seq<Byte>, offset: nat)
    requires Reachable(s) && s.c.Idle? && data != []
    ensures Reachable(Step(s, CallWrite(data, offset)).value)
  {
    var a := CallWrite(data, offset);
    assert [a][1..] == [] && Exec(Step(s, a).value, []) == Step(s, a);
    ReachableExtends(s, [a]);
  }

  /** The client's half of a write, up to the wait for `data_written`. */
  lemma ClientWrites(s: State, s0: State) returns (s1: State)
    requires Leads(s, s0) && s0.c.WriteEntry? && s0.c.offset == s0.pos
    requires s0.cause == 0 && s0.writeConn && s0.dataNeed > 0
    ensures Leads(s, s1)
    ensures s1 == s0.(dataNeed := s0.dataNeed - 1, streamBuf := s0.streamBuf + s0.c.data,
                      accepted := s0.accepted + s0.c.data, pos := s0.pos + |s0.c.data|,
                      dataAvail := s0.dataAvail + 1, c := WriteWaitWritten(|s0.c.data|))
  {
    s1 := Go(s, s0, Client(true));
    s1 := Go(s, s1, Client(true));
    s1 := Go(s, s1, Client(true));
    s1 := Go(s, s1, Client(true));
  }

  lemma UploaderFindsNothing(s: State, s0: State) returns (s1: State)
    requires Leads(s, s0) && s0.u.CbWaitAvail? && s0.dataAvail == 1 && s0.streamBuf == [] && !s0.eof
    ensures Leads(s, s1) && s1 == s0.(dataAvail := 0, u := CbSetFlag(0))
  {
    var e := Uploader(Completes);
    s1 := Go(s, s0, e);
    s1 := Go(s, s1, e);
    s1 := Go(s, s1, e);
  }

  lemma UploaderGivesUp(s: State, s0: State) returns (s1: State)
    requires Leads(s, s0) && s0.u == CbSetFlag(0)
    ensures Leads(s, s1) && s1 == s0.(writtenFlag := true, dataNeed := s0.dataNeed + 1, u := UEnding)
  {
    var e := Uploader(Completes);
    s1 := Go(s, s0, e);
    s1 := Go(s, s1, e);
  }

  lemma UploaderExits(s: State, s0: State) returns (s1: State)
    requires Leads(s, s0) && s0.u.UEnding? && s0.isReady
    ensures Leads(s, s1)
    ensures s1 == s0.(remote := s1.remote, dataWritten := s0.dataWritten + 1, u := UExited(0))
  {
    var e := Uploader(Completes);
    s1 := Go(s, s0, e);
    s1 := Go(s, s1, e);
    s1 := Go(s, s1, e);
  }

  lemma ClientReturns(s: State, s0: State) returns (s1: State)
    requires Leads(s, s0) && s0.c.WriteWaitWritten? && s0.dataWritten > 0 && s0.cause == 0
    ensures Leads(s, s1)
    ensures s1 == s0.(dataWritten := s0.dataWritten - 1, writtenFlag := false, c := Idle(Wrote(s0.c.n)))
  {
    s1 := Go(s, s0, Client(true));
    s1 := Go(s, s1, Client(true));
    s1 := Go(s, s1, Client(true));
  }

  /** The transfer runs, nothing is in the buffer, and no post is under way; the uploader is on its
      way to the wait for `data_avail`. */
  predicate Quiet(s: State) {
    && s.cause == 0 && s.writeConn && !s.eof && !s.writtenFlag
    && s.dataNeed == 1 && s.dataAvail == 0 && s.dataWritten == 0 && s.streamBuf == []
    && (s.u.UPerform? || s.u.CbReadyTest? || s.u.CbReadyPost? || s.u.CbReadySet? ||
        (s.isReady && (s.u.CbLenTest? || s.u.CbFlagTest? || s.u.CbWaitAvail?)))
  }

  lemma IdleIsQuiet(s: State)
    requires Inv(s) && s.c.Idle? && Live(s.u) && s.cause == 0
    ensures Quiet(s)
  {
  }

  /** It gets there without the client. */
  lemma {:induction false} UploaderSettles(s: State, s0: State) returns (s1: State)
    requires Leads(s, s0) && Quiet(s0)
    ensures Leads(s, s1) && Quiet(s1) && s1.u.CbWaitAvail?
    ensures s1 == s0.(u := s1.u, ready := s1.ready, isReady := true)
    decreases UploaderRank(s0.u)
  {
    if s0.u.CbWaitAvail? {
      s1 := s0;
    } else {
      s1 := Go(s, s0, Uploader(Callback(1)));
      s1 := UploaderSettles(s, s1);
    }
  }

  lemma LeadsToItself(s: State)
    ensures Leads(s, s)
  {
    assert AllWork([]) && Exec(s, []) == Some(s);
  }

  /** An empty write makes the callback return 0, although the client is not closing the session. */
  lemma EmptyWriteGivesUp(s: State) returns (s1: State)
    requires s.c.Idle? && Quiet(s)
    ensures Leads(Step(s, CallWrite([], s.pos)).value, s1)
    ensures s1 == s.(writtenFlag := true, u := UEnding, c := WriteWaitWritten(0), ready := s1.ready, isReady := true)
  {
    var s0 := Step(s, CallWrite([], s.pos)).value;
    LeadsToItself(s0);
    s1 := UploaderSettles(s0, s0);
    s1 := ClientWrites(s0, s1);
    s1 := UploaderFindsNothing(s0, s1);
    s1 := UploaderGivesUp(s0, s1);
    assert s.accepted + [] == s.accepted;
  }

  /** The empty write then succeeds and leaves a session whose uploader is gone. */
  lemma EmptyWriteEndsUpload(s: State) returns (s1: State)
    requires s.c.Idle? && Quiet(s)
    ensures Leads(Step(s, CallWrite([], s.pos)).value, s1) && s1.c == Idle(Wrote(0)) && s1.u == UExited(0)
    ensures s1.writeConn && s1.cause == 0 && s1.dataNeed == 1 && s1.dataWritten == 0
  {
    var s0 := Step(s, CallWrite([], s.pos)).value;
    s1 := EmptyWriteGivesUp(s);
    s1 := UploaderExits(s0, s1);
    s1 := ClientReturns(s0, s1);
  }

  /** During a `write(data, pos)` the upload can end without being closed. */
  ghost predicate CanEndEarly(s: State, data: seq<Byte>)
    requires s.c.Idle?
  {
    exists s' :: Leads(Step(s, CallWrite(data, s.pos)).value, s') && s'.u.UEnding? && !Closing(s'.c)
  }

  /** On a live connection a write can end the upload behind the client's back exactly when it is empty. */
  lemma EndsEarlyExactlyWhenEmpty(s: State, data: seq<Byte>)
    requires Reachable(s) && s.c.Idle? && Live(s.u) && s.cause == 0
    ensures CanEndEarly(s, data) <==> data == []
  {
    ReachableInv(s);
    if data == [] {
      IdleIsQuiet(s);
      var s1 := EmptyWriteGivesUp(s);
      assert CanEndEarly(s, []);
    } else if CanEndEarly(s, data) {
      var s0 := Step(s, CallWrite(data, s.pos)).value;
      var s' :| Leads(s0, s') && s'.u.UEnding? && !Closing(s'.c);
      CallIsReachable(s, data, s.pos);
      LeadsReachably(s0, s');
      ReachableInv(s');
    }
  }

  /** The client waits and no uploader is left to wake it. */
  predicate Stuck(s: State) {
    !s.c.Idle? && ClientStep(s, true).None? && ClientStep(s, false).None? && (s.u.NoThread? || s.u.UExited?)
  }

  /** After a `write(first, pos)` that returned, a `write(second, pos)` can wait for ever. */
  ghost predicate CanHang(s: State, first: seq<Byte>, second: seq<Byte>)
    requires s.c.Idle?
  {
    exists s1, s2 ::
      Leads(Step(s, CallWrite(first, s.pos)).value, s1) && s1.c.Idle? &&
      Leads(Step(s1, CallWrite(second, s1.pos)).value, s2) && Stuck(s2)
  }

  lemma EmptyWriteThenHang(s: State, second: seq<Byte>)
    requires s.c.Idle? && Quiet(s)
    ensures CanHang(s, [], second)
  {
    var s1 := EmptyWriteEndsUpload(s);
    var s0 := Step(s1, CallWrite(second, s1.pos)).value;
    LeadsToItself(s0);
    var s2 := ClientWrites(s0, s0);
    assert Stuck(s2);
  }

  lemma ReachableIsNotStuck(s: State)
    requires Reachable(s)
    ensures !Stuck(s)
  {
    assert Inv(s) by { ReachableInv(s); }
    if !s.c.Idle? { NoDeadlock(s); }
  }

  lemma NeverHangs(s: State, first: seq<Byte>, second: seq<Byte>, s1: State, s2: State)
    requires Reachable(s) && s.c.Idle? && first != [] && second != []
    requires Leads(Step(s, CallWrite(first, s.pos)).value, s1) && s1.c.Idle?
    requires Leads(Step(s1, CallWrite(second, s1.pos)).value, s2)
    ensures !Stuck(s2)
  {
    CallIsReachable(s, first, s.pos);
    LeadsReachably(Step(s, CallWrite(first, s.pos)).value, s1);
    CallIsReachable(s1, second, s1.pos);
    LeadsReachably(Step(s1, CallWrite(second, s1.pos)).value, s2);
    ReachableIsNotStuck(s2);
  }

  /** On a live connection a write makes it possible that the next one hangs exactly when it is empty. */
  lemma HangsExactlyAfterEmpty(s: State, first: seq<Byte>, second: seq<Byte>)
    requires Reachable(s) && s.c.Idle? && Live(s.u) && s.cause == 0 && second != []
    ensures CanHang(s, first, second) <==> first == []
  {
    ReachableInv(s);
    if first == [] {
      IdleIsQuiet(s);
      EmptyWriteThenHang(s, second);
    } else if CanHang(s, first, second) {
      var s1, s2 :|
        Leads(Step(s, CallWrite(first, s.pos)).value, s1) && s1.c.Idle? &&
        Leads(Step(s1, CallWrite(second, s1.pos)).value, s2) && Stuck(s2);
      NeverHangs(s, first, second, s1, s2);
    }
  }
}
