/** What the value returned by a read or a write says about what was done on its behalf. */
module SkelResults {
  import opened SkelModel
  import opened SkelInvariant
  import SkelKeeps

  // ---------------------------------------------------------------- reads

  predicate BeforeXfer(pc: Pc) { pc.ReadLock? || pc.ReadCheck? || pc.ReadXfer? }

  /** A read that returns n bytes had its own n bytes copied out; one that fails had nothing copied out. */
  ghost predicate ReadResult(s: State, t: nat, ret: int) {
    && (ret >= 0 ==> exists i :: 0 <= i < |s.k.log| && s.k.log[i].t == t)
    && (forall i :: 0 <= i < |s.k.log| && s.k.log[i].t == t ==>
          (s.k.log[i].ok <==> ret >= 0) && (ret >= 0 ==> ret == |s.k.log[i].bytes|))
  }

  /** Each read makes at most one transfer, and none before it gets there. */
  ghost predicate OneTransfer(s: State) {
    && (forall i, j :: 0 <= i < j < |s.k.xfers| ==> s.k.xfers[i].t != s.k.xfers[j].t)
    && (forall i :: 0 <= i < |s.k.xfers| ==>
          s.k.xfers[i].t < |s.threads| && !BeforeXfer(s.threads[s.k.xfers[i].t].pc))
  }

  predicate Returning(th: Thread) { th.call.Read? && (th.pc.ReadUnlock? || th.pc.Done?) }

  ghost predicate ReadsReturn(s: State) {
    forall t :: 0 <= t < |s.threads| && Returning(s.threads[t]) ==> ReadResult(s, t, s.threads[t].pc.ret)
  }

  // ---------------------------------------------------------------- writes

  predicate BeforeUrb(pc: Pc) { pc.WrSize? || pc.WrDown? || pc.WrUrb? }

  /** A write that returns n > 0 had one URB of n bytes submitted; any other had none submitted. */
  ghost predicate WriteResult(s: State, t: nat, ret: int)
    requires t < |s.threads| && s.threads[t].call.Write?
  {
    && (ret >= 0 ==> ret == WriteSize(|s.threads[t].call.data|)) && (ret == 0 <==> s.threads[t].call.data == [])
    && (ret > 0 ==> exists u :: 0 <= u < |s.k.urbs| && s.k.urbs[u].writer == t)
    && (forall u :: 0 <= u < |s.k.urbs| && s.k.urbs[u].writer == t ==>
          (!s.k.urbs[u].phase.Idle? <==> ret > 0) && (ret > 0 ==> s.k.urbs[u].length == ret))
  }

  ghost predicate OneUrb(s: State) {
    && (forall u, v :: 0 <= u < v < |s.k.urbs| ==> s.k.urbs[u].writer != s.k.urbs[v].writer)
    && (forall u :: 0 <= u < |s.k.urbs| ==>
          s.k.urbs[u].writer < |s.threads| && !BeforeUrb(s.threads[s.k.urbs[u].writer].pc))
  }

  predicate Finished(th: Thread) { th.call.Write? && (th.pc.ErrUp? || th.pc.Done?) }

  ghost predicate WritesReturn(s: State) {
    forall t :: 0 <= t < |s.threads| && Finished(s.threads[t]) ==> WriteResult(s, t, s.threads[t].pc.ret)
  }

  ghost predicate Results(s: State) { OneTransfer(s) && ReadsReturn(s) && OneUrb(s) && WritesReturn(s) }

  // ---------------------------------------------------------------- reads: every step

  lemma ReadPcs(k: Shared, t: nat, th: Thread, c: Choice)
    requires Fits(th) && Offers(th.pc, c)
    ensures var x := Thread(th.call, Then(k, th, c));
            && (Returning(x) && !Returning(th) ==>
                  th.pc.ReadXfer? || th.pc.ReadCopy? || (th.pc.ReadCheck? && x.pc.ret < 0) || DelPc(th.pc))
            && (Returning(th) ==> Returning(x) && x.pc.ret == th.pc.ret)
            && (!BeforeXfer(th.pc) ==> !BeforeXfer(x.pc))
  {
  }

  /** Steps that neither transfer nor copy. */
  lemma ReadsUntouched(s: State, s': State, t: nat)
    requires Inv(s) && SkelKeeps.Moves(s, s', t) && OneTransfer(s) && ReadsReturn(s)
    requires s'.k.xfers == s.k.xfers && s'.k.log == s.k.log
    requires !BeforeXfer(s.threads[t].pc) ==> !BeforeXfer(s'.threads[t].pc)
    requires Returning(s'.threads[t]) ==>
               if Returning(s.threads[t]) then s'.threads[t].pc.ret == s.threads[t].pc.ret
               else s.threads[t].pc.ReadCheck? && s'.threads[t].pc.ret < 0
    ensures OneTransfer(s') && ReadsReturn(s')
  {
    forall j | 0 <= j < |s'.threads| && Returning(s'.threads[j]) ensures ReadResult(s', j, s'.threads[j].pc.ret) {
      if j != t || Returning(s.threads[t]) {
        assert ReadResult(s, j, s.threads[j].pc.ret);
      } else {
        forall i | 0 <= i < |s.k.log| ensures s.k.log[i].t != t {
          assert SameChunk(s.k.xfers[i], s.k.log[i]);
        }
      }
    }
  }

  /** A new log entry of call `t` says nothing about another call. */
  lemma OtherRead(s: State, s': State, d: Delivery, j: nat, ret: int)
    requires s'.k.log == s.k.log + [d] && d.t != j && ReadResult(s, j, ret)
    ensures ReadResult(s', j, ret)
  {
    if ret >= 0 {
      var i :| 0 <= i < |s.k.log| && s.k.log[i].t == j;
      assert s'.k.log[i].t == j;
    }
  }

  lemma NoDeliveryYet(s: State, t: nat)
    requires Inv(s) && OneTransfer(s) && t < |s.threads| && (s.threads[t].pc.ReadXfer? || s.threads[t].pc.ReadCopy?)
    ensures forall i :: 0 <= i < |s.k.log| ==> s.k.log[i].t != t
  {
    forall i | 0 <= i < |s.k.log| ensures s.k.log[i].t != t {
      assert SameChunk(s.k.xfers[i], s.k.log[i]);
      if s.threads[t].pc.ReadCopy? {
        assert LockOwned(s, IoMutex);
        assert s.k.xfers[|s.k.log|].t == t;
      }
    }
  }

  /** The step that appends a log entry for `t`, and perhaps its transfer. */
  lemma LoggedResults(s: State, s': State, t: nat, d: Delivery)
    requires SkelKeeps.Moves(s, s', t) && ReadsReturn(s) && s'.k.log == s.k.log + [d]
    requires d.t == t && forall i :: 0 <= i < |s.k.log| ==> s.k.log[i].t != t
    requires s'.threads[t].pc.ReadUnlock?
    requires var ret := s'.threads[t].pc.ret; (d.ok <==> ret >= 0) && (ret >= 0 ==> ret == |d.bytes|)
    ensures ReadsReturn(s')
  {
    forall j | 0 <= j < |s'.threads| && Returning(s'.threads[j]) ensures ReadResult(s', j, s'.threads[j].pc.ret) {
      if j != t {
        OtherRead(s, s', d, j, s.threads[j].pc.ret);
      } else {
        assert s'.k.log[|s.k.log|].t == t;
      }
    }
  }

  lemma SameLogResults(s: State, s': State, t: nat)
    requires SkelKeeps.Moves(s, s', t) && ReadsReturn(s) && s'.k.log == s.k.log && !Returning(s'.threads[t])
    ensures ReadsReturn(s')
  {
    forall j | 0 <= j < |s'.threads| && Returning(s'.threads[j]) ensures ReadResult(s', j, s'.threads[j].pc.ret) {
      assert ReadResult(s, j, s.threads[j].pc.ret);
    }
  }

  lemma TransferOnce(s: State, t: nat, c: Choice)
    requires Inv(s) && CanStep(s, t, c) && s.threads[t].pc.ReadXfer? && OneTransfer(s)
    ensures OneTransfer(StepNext(s, t, c))
  {
  }

  lemma TransferResults(s: State, t: nat, c: Choice)
    requires Inv(s) && CanStep(s, t, c) && s.threads[t].pc.ReadXfer? && OneTransfer(s) && ReadsReturn(s)
    ensures OneTransfer(StepNext(s, t, c)) && ReadsReturn(StepNext(s, t, c))
  {
    var s' := StepNext(s, t, c);
    NoDeliveryYet(s, t);
    TransferOnce(s, t, c);
    if c.status == 0 {
      SameLogResults(s, s', t);
    } else {
      LoggedResults(s, s', t, Delivery(t, c.bytes, false));
    }
  }

  lemma CopyResults(s: State, t: nat, c: Choice)
    requires Inv(s) && CanStep(s, t, c) && s.threads[t].pc.ReadCopy? && OneTransfer(s) && ReadsReturn(s)
    ensures OneTransfer(StepNext(s, t, c)) && ReadsReturn(StepNext(s, t, c))
  {
    var n := s.threads[t].pc.n;
    NoDeliveryYet(s, t);
    LoggedResults(s, StepNext(s, t, c), t, Delivery(t, s.k.inBuf[..n], c.Go?));
  }

  lemma StepReadResults(s: State, t: nat, c: Choice)
    requires Inv(s) && CanStep(s, t, c) && OneTransfer(s) && ReadsReturn(s)
    ensures OneTransfer(StepNext(s, t, c)) && ReadsReturn(StepNext(s, t, c))
  {
    var th := s.threads[t];
    if th.pc.ReadXfer? {
      TransferResults(s, t, c);
    } else if th.pc.ReadCopy? {
      CopyResults(s, t, c);
    } else {
      SkelKeeps.ActionKind(s.k, t, th, c);
      ReadPcs(s.k, t, th, c);
      assert OnOpenFile(s, th);
      ReadsUntouched(s, StepNext(s, t, c), t);
    }
  }

  // ---------------------------------------------------------------- writes: every step

  lemma WritePcs(k: Shared, t: nat, th: Thread, c: Choice)
    requires LocalOk(k, th) && Offers(th.pc, c)
    ensures var x, op := Thread(th.call, Then(k, th, c)), Action(t, th, c);
            && (!BeforeUrb(th.pc) ==> !BeforeUrb(x.pc))
            && (op.AllocUrb? ==> BeforeUrb(th.pc) && (op.ok ==> !BeforeUrb(x.pc)))
            && (Finished(th) ==> Finished(x) && x.pc.ret == th.pc.ret)
            && (Finished(x) && !Finished(th) && BeforeUrb(th.pc) ==>
                  && x.pc.ret <= 0 && (x.pc.ret == 0 <==> th.call.data == []) && !(op.AllocUrb? && op.ok))
            && (Finished(x) && !Finished(th) && !BeforeUrb(th.pc) && WritePc(th.pc) ==>
                  if th.pc.WrDrop? then x.pc.ret == WriteSize(|th.call.data|) && th.call.data != []
                  else th.pc.ErrUrb? && x.pc.ret < 0)
  {
  }

  /** Call `j`'s URBs, and so what its result says of them, are not call `t`'s to change. */
  lemma OtherWrite(s: State, s': State, t: nat, j: nat, u: nat)
    requires SkelKeeps.Moves(s, s', t) && j < |s.threads| && j != t && Finished(s.threads[j])
    requires WriteResult(s, j, s.threads[j].pc.ret)
    requires || s'.k.urbs == s.k.urbs
             || s'.k.urbs == s.k.urbs + [NewUrb(t)]
             || (u < |s.k.urbs| == |s'.k.urbs| && s'.k.urbs == s.k.urbs[u := s'.k.urbs[u]]
                 && s.k.urbs[u].writer == t && s'.k.urbs[u].writer == t)
    ensures WriteResult(s', j, s'.threads[j].pc.ret)
  {
    if s.threads[j].pc.ret > 0 {
      var v :| 0 <= v < |s.k.urbs| && s.k.urbs[v].writer == j;
      assert s'.k.urbs[v].writer == j;
    }
  }

  lemma OneUrbMoved(s: State, s': State, t: nat, u: Option<nat>)
    requires SkelKeeps.Moves(s, s', t) && OneUrb(s) && (!BeforeUrb(s.threads[t].pc) ==> !BeforeUrb(s'.threads[t].pc))
    requires match u
             case None =>
               || s'.k.urbs == s.k.urbs
               || (s'.k.urbs == s.k.urbs + [NewUrb(t)] && BeforeUrb(s.threads[t].pc) && !BeforeUrb(s'.threads[t].pc))
             case Some(u) =>
               && u < |s.k.urbs| == |s'.k.urbs| && s'.k.urbs == s.k.urbs[u := s'.k.urbs[u]]
               && s'.k.urbs[u].writer == s.k.urbs[u].writer
    ensures OneUrb(s')
  {
  }

  lemma StepOneUrb(s: State, t: nat, c: Choice)
    requires Inv(s) && CanStep(s, t, c) && OneUrb(s)
    ensures OneUrb(StepNext(s, t, c))
  {
    var s' := StepNext(s, t, c);
    SkelKeeps.ActionKind(s.k, t, s.threads[t], c);
    WritePcs(s.k, t, s.threads[t], c);
    match UrbOf(s.threads[t].pc)
    case None =>
      SkelKeeps.UrbStarts(s.k, t, s.threads[t], c);
      OneUrbMoved(s, s', t, None);
    case Some(u) =>
      SkelKeeps.HeldUrb(s, t);
      SkelKeeps.UrbMoves(s.k, t, s.threads[t], c, s.k.urbs[u], u);
      OneUrbMoved(s, s', t, Some(u));
  }

  /** A writer lets go of its URB: submitted and of its size if it returns the size, never submitted if it fails. */
  lemma LetsGo(s: State, s': State, t: nat, u: nat, ret: int)
    requires OneUrb(s) && t < |s.threads| == |s'.threads|
    requires s'.threads[t].call == s.threads[t].call && s.threads[t].call.Write?
    requires u < |s.k.urbs| == |s'.k.urbs| && s'.k.urbs == s.k.urbs[u := s'.k.urbs[u]]
    requires s.k.urbs[u].writer == t && s'.k.urbs[u].writer == t
    requires ret != 0 && s.threads[t].call.data != [] && (!s'.k.urbs[u].phase.Idle? <==> ret > 0)
    requires ret >= 0 ==> ret == WriteSize(|s.threads[t].call.data|) == s'.k.urbs[u].length
    ensures WriteResult(s', t, ret)
  {
  }

  lemma DropLetsGo(s: State, t: nat, c: Choice)
    requires Inv(s) && CanStep(s, t, c) && OneUrb(s) && s.threads[t].pc.WrDrop?
    ensures WriteResult(StepNext(s, t, c), t, WriteSize(|s.threads[t].call.data|))
  {
    assert LocalOk(s.k, s.threads[t]);
    SkelKeeps.HeldUrb(s, t);
    LetsGo(s, StepNext(s, t, c), t, s.threads[t].pc.u, WriteSize(|s.threads[t].call.data|));
  }

  lemma ErrLetsGo(s: State, t: nat, c: Choice)
    requires Inv(s) && CanStep(s, t, c) && OneUrb(s) && s.threads[t].pc.ErrUrb?
    ensures WriteResult(StepNext(s, t, c), t, s.threads[t].pc.ret)
  {
    assert LocalOk(s.k, s.threads[t]);
    SkelKeeps.HeldUrb(s, t);
    LetsGo(s, StepNext(s, t, c), t, s.threads[t].pc.u, s.threads[t].pc.ret);
  }

  /** The write's own result, at the step that fixes it. */
  lemma OwnWrite(s: State, t: nat, c: Choice)
    requires Inv(s) && CanStep(s, t, c) && OneUrb(s) && WritesReturn(s)
    requires Finished(StepNext(s, t, c).threads[t])
    ensures WriteResult(StepNext(s, t, c), t, StepNext(s, t, c).threads[t].pc.ret)
  {
    var th, s' := s.threads[t], StepNext(s, t, c);
    WritePcs(s.k, t, th, c);
    assert OnOpenFile(s, th);
    if Finished(th) {
      assert WriteResult(s, t, th.pc.ret);
    } else if th.pc.WrDrop? {
      DropLetsGo(s, t, c);
    } else if !BeforeUrb(th.pc) {
      ErrLetsGo(s, t, c);
    }
  }

  lemma StepWriteResults(s: State, t: nat, c: Choice)
    requires Inv(s) && CanStep(s, t, c) && OneUrb(s) && WritesReturn(s)
    ensures WritesReturn(StepNext(s, t, c))
  {
    var th, s' := s.threads[t], StepNext(s, t, c);
    SkelKeeps.ActionKind(s.k, t, th, c);
    var u := 0;
    if UrbOf(th.pc).Some? {
      u := UrbOf(th.pc).value;
      SkelKeeps.HeldUrb(s, t);
      SkelKeeps.UrbMoves(s.k, t, th, c, s.k.urbs[u], u);
    }
    forall j | 0 <= j < |s'.threads| && Finished(s'.threads[j]) ensures WriteResult(s', j, s'.threads[j].pc.ret) {
      if j == t {
        OwnWrite(s, t, c);
      } else {
        OtherWrite(s, s', t, j, u);
      }
    }
  }

  // ---------------------------------------------------------------- every step

  /** A new call, a completion or a disconnect step leaves every result as it is. */
  lemma OthersKeep(s: State, s': State)
    requires Results(s) && s.threads <= s'.threads && |s.k.urbs| == |s'.k.urbs|
    requires forall t :: |s.threads| <= t < |s'.threads| ==>
               !s'.threads[t].pc.Done? && !s'.threads[t].pc.ReadUnlock? && !s'.threads[t].pc.ErrUp?
    requires s'.k.xfers == s.k.xfers && s'.k.log == s.k.log
    requires forall u :: 0 <= u < |s.k.urbs| ==>
               && s'.k.urbs[u].writer == s.k.urbs[u].writer && s'.k.urbs[u].length == s.k.urbs[u].length
               && s'.k.urbs[u].phase.Idle? == s.k.urbs[u].phase.Idle?
    ensures Results(s')
  {
    forall t | 0 <= t < |s'.threads| && Returning(s'.threads[t]) ensures ReadResult(s', t, s'.threads[t].pc.ret) {
      assert s'.threads[t] == s.threads[t] && ReadResult(s, t, s.threads[t].pc.ret);
    }
    forall t | 0 <= t < |s'.threads| && Finished(s'.threads[t]) ensures WriteResult(s', t, s'.threads[t].pc.ret) {
      assert s'.threads[t] == s.threads[t] && WriteResult(s, t, s.threads[t].pc.ret);
      if s.threads[t].pc.ret > 0 {
        var u :| 0 <= u < |s.k.urbs| && s.k.urbs[u].writer == t;
        assert s'.k.urbs[u].writer == t;
      }
    }
  }

  lemma StepResults(s: State, t: nat, c: Choice)
    requires Inv(s) && Results(s) && CanStep(s, t, c)
    ensures Results(StepNext(s, t, c))
  {
    StepReadResults(s, t, c);
    StepOneUrb(s, t, c);
    StepWriteResults(s, t, c);
  }

  lemma CompleteResults(s: State, u: nat)
    requires Results(s) && CanComplete(s, u)
    ensures Results(CompleteNext(s, u))
  {
    SkelKeeps.CompleteShape(s, u);
    OthersKeep(s, CompleteNext(s, u));
  }

  lemma DiscResults(s: State)
    requires Results(s) && CanDisc(s)
    ensures Results(DiscNext(s))
  {
    OthersKeep(s, DiscNext(s));
  }

  lemma CallResults(s: State, l: Label)
    requires Results(s) && Enabled(s, l) && !l.Step? && !l.Complete? && !l.Disc?
    ensures Results(Next(s, l))
  {
    OthersKeep(s, Next(s, l));
  }

  lemma ResultsKept(s: State, l: Label)
    requires Inv(s) && Results(s) && Enabled(s, l)
    ensures Results(Next(s, l))
  {
    match l
    case Step(t, c) => StepResults(s, t, c);
    case Complete(u) => CompleteResults(s, u);
    case Disc => DiscResults(s);
    case _ => CallResults(s, l);
  }
}
