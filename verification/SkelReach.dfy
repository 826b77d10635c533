/**
 What the driver can do, as runs that do it: deliver any chunk the device may send to a reader, or any error, and
 have eight URBs in flight. And that no outcome an operation may have is ruled out.
 */
module SkelReach {
  import opened Bytes
  import opened Sums
  import opened SkelModel
  import opened SkelInvariant
  import opened SkelResults
  import opened SkelDrain
  import SkelKeeps
  import SkelProgress
  import SkelRuns

  /** Every operation that can fail may fail, with any error number, and may succeed if nothing is missing. */
  lemma CanFail(s: State, t: nat, err: int)
    requires Inv(s) && t < |s.threads| && err < 0
    ensures var pc := s.threads[t].pc;
            (|| pc.OpenFind? || pc.OpenResume? || pc.ReadCopy?
             || pc.WrDown? || pc.WrUrb? || pc.WrBuf? || pc.WrCopy? || pc.WrSubmit?) ==> CanStep(s, t, Fail(err))
  {
    assert LocalOk(s.k, s.threads[t]);
  }

  lemma CanSucceed(s: State, t: nat)
    requires Inv(s) && t < |s.threads|
    ensures var pc := s.threads[t].pc;
            && (pc.OpenFind? || pc.OpenResume? || pc.ReadCopy? ==> CanStep(s, t, Go))
            && (pc.WrUrb? || pc.WrBuf? || pc.WrCopy? ==> CanStep(s, t, Go))
  {
    assert LocalOk(s.k, s.threads[t]);
  }

  /** A writer gets its permit if one is left, and its URB submitted if the endpoints are not disabled. */
  lemma CanSend(s: State, t: nat)
    requires Inv(s) && t < |s.threads|
    ensures s.threads[t].pc.WrDown? ==> (CanStep(s, t, Go) <==> s.k.sem > 0)
    ensures s.threads[t].pc.WrSubmit? ==> (CanStep(s, t, Go) <==> !s.k.disabled)
  {
    assert LocalOk(s.k, s.threads[t]);
  }

  lemma CanReceive(s: State, t: nat, bytes: seq<byte>, status: int)
    requires Inv(s) && t < |s.threads| && s.threads[t].pc.ReadXfer? && status <= 0
    ensures CanStep(s, t, Data(bytes, status)) <==> |bytes| <= |s.k.inBuf| && |bytes| <= s.threads[t].call.count
  {
    assert LocalOk(s.k, s.threads[t]);
  }

  // ---------------------------------------------------------------- a read on its own

  predicate Reads(s: State, t: nat, call: Call, pc: Pc) {
    call.Read? && t < |s.threads| && s.threads[t] == Thread(call, pc)
  }

  lemma FromUnlock(s: State, t: nat, call: Call, ret: int) returns (ls: seq<Label>)
    requires Reads(s, t, call, ReadUnlock(ret))
    ensures Legal(s, ls) && Reads(Exec(s, ls), t, call, Done(ret)) && Exec(s, ls).k.log == s.k.log
  {
    assert StepNext(s, t, Go).k.log == s.k.log;
    ls := Prepend(s, Step(t, Go), []);
  }

  lemma FromCopy(s: State, t: nat, call: Call, bytes: seq<byte>, ok: bool) returns (ls: seq<Label>)
    requires Reads(s, t, call, ReadCopy(|bytes|)) && |bytes| <= |s.k.inBuf| && s.k.inBuf[..|bytes|] == bytes
    ensures Legal(s, ls) && Reads(Exec(s, ls), t, call, Done(if ok then |bytes| else -14))
    ensures Exec(s, ls).k.log == s.k.log + [Delivery(t, bytes, ok)]
  {
    var c := if ok then Go else Fail(-14);
    var s' := StepNext(s, t, c);
    assert s'.k.log == s.k.log + [Delivery(t, bytes, ok)];
    ls := FromUnlock(s', t, call, if ok then |bytes| else EFAULT);
    ls := Prepend(s, Step(t, c), ls);
  }

  lemma FromXfer(s: State, t: nat, call: Call, bytes: seq<byte>, status: int, ok: bool) returns (ls: seq<Label>)
    requires Reads(s, t, call, ReadXfer) && |bytes| <= |s.k.inBuf| && |bytes| <= call.count && status <= 0
    ensures Legal(s, ls)
    ensures Reads(Exec(s, ls), t, call, Done(if status != 0 then status else if ok then |bytes| else -14))
    ensures Exec(s, ls).k.log == s.k.log + [Delivery(t, bytes, status == 0 && ok)]
  {
    var s' := StepNext(s, t, Data(bytes, status));
    if status != 0 {
      ls := FromUnlock(s', t, call, status);
    } else {
      assert s'.k.inBuf[..|bytes|] == bytes;
      ls := FromCopy(s', t, call, bytes, ok);
    }
    ls := Prepend(s, Step(t, Data(bytes, status)), ls);
  }

  lemma FromLock(s: State, t: nat, call: Call, bytes: seq<byte>, status: int, ok: bool) returns (ls: seq<Label>)
    requires Reads(s, t, call, ReadLock) && s.k.ioMutex.Nobody? && s.k.iface
    requires |bytes| <= |s.k.inBuf| && |bytes| <= call.count && status <= 0
    ensures Legal(s, ls)
    ensures Reads(Exec(s, ls), t, call, Done(if status != 0 then status else if ok then |bytes| else -14))
    ensures Exec(s, ls).k.log == s.k.log + [Delivery(t, bytes, status == 0 && ok)]
  {
    var s1 := StepNext(s, t, Go);
    var s2 := StepNext(s1, t, Go);
    assert s2.k.log == s.k.log && s2.k.inBuf == s.k.inBuf;
    ls := FromXfer(s2, t, call, bytes, status, ok);
    ls := Prepend(s1, Step(t, Go), ls);
    ls := Prepend(s, Step(t, Go), ls);
  }

  /**
   On an opened device a read of any count gets whatever the device sends, up to min(bulk_in_size, count) bytes:
   it answers their number and they are what is copied out; or it answers the transfer's own error, or -14.
   */
  lemma ReadDelivers(buf: seq<byte>, count: nat, bytes: seq<byte>, status: int, ok: bool) returns (ls: seq<Label>)
    requires |bytes| <= |buf| && |bytes| <= count && status <= 0
    ensures Legal(Init(buf), ls)
    ensures var e := Exec(Init(buf), ls);
            && Reads(e, 1, Read(0, count), Done(if status != 0 then status else if ok then |bytes| else -14))
            && e.k.log == [Delivery(1, bytes, status == 0 && ok)]
  {
    ls := OpenRun(buf);
    ls := Extend(Init(buf), ls, CallRead(0, count));
    var s := Exec(Init(buf), ls);
    var b := FromLock(s, 1, Read(0, count), bytes, status, ok);
    SkelRuns.RunsJoin(Init(buf), ls, b);
    ls := ls + b;
  }

  // ---------------------------------------------------------------- eight writes in flight

  predicate OnItsWay(pc: Pc) {
    || BeforeUrb(pc) || pc.WrBuf? || pc.WrCopy? || pc.WrLock? || pc.WrCheck? || pc.WrSubmit?
    || (pc.WrUnlock? && pc.ret == 0) || pc.WrDrop?
  }

  predicate Wanting(pc: Pc) { pc.WrSize? || pc.WrDown? }

  /** A write with something to send that nothing else is in the way of. */
  predicate Unhindered(s: State, t: nat) {
    && t < |s.threads| && s.disc.NotCalled?
    && var th := s.threads[t];
       && th.call.Write? && th.call.data != [] && (OnItsWay(th.pc) || th.pc.Done?)
       && (Wanting(th.pc) ==> s.k.sem > 0)
       && s.k.openLock.Nobody? && (s.k.ioMutex.Nobody? || s.k.ioMutex == Caller(t))
  }

  lemma WayOn(k: Shared, t: nat, th: Thread)
    requires th.call.Write? && th.call.data != [] && OnItsWay(th.pc) && k.iface
    ensures Offers(th.pc, Go)
    ensures var pc', op := Then(k, th, Go), Action(t, th, Go);
            && (OnItsWay(pc') || pc'.Done?) && SkelProgress.PcRank(pc') < SkelProgress.PcRank(th.pc)
            && (Wanting(pc') ==> Wanting(th.pc) && op.Nothing?)
            && SemAfter(k.sem, op) == k.sem - One(Wanting(th.pc)) + One(Wanting(pc'))
            && ((op.MutexLock? || op.MutexUnlock?) ==> op.m.IoMutex?) && !op.NewFile? && !op.CloseFile?
  {
  }

  lemma CanGoOn(s: State, t: nat)
    requires Inv(s) && Unhindered(s, t) && !s.threads[t].pc.Done?
    ensures CanStep(s, t, Go)
  {
    assert LocalOk(s.k, s.threads[t]) && LockOwned(s, IoMutex);
    SkelKeeps.ActionExists(s.k, t, s.threads[t], Go);
  }

  /** Nothing but call `t`, io_mutex, the semaphore and the URBs has changed. */
  ghost predicate OnlyWrites(s: State, s': State, t: nat) {
    && |s'.threads| == |s.threads| && s'.k.files == s.k.files && s'.disc == s.disc
    && (forall j :: 0 <= j < |s.threads| && j != t ==> s'.threads[j] == s.threads[j])
  }

  lemma GoesOn(s: State, t: nat)
    requires Inv(s) && Unhindered(s, t) && !s.threads[t].pc.Done? && CanStep(s, t, Go)
    ensures var s' := StepNext(s, t, Go);
            && Unhindered(s', t) && OnlyWrites(s, s', t)
            && s'.k.sem - One(Wanting(s'.threads[t].pc)) == s.k.sem - One(Wanting(s.threads[t].pc))
            && SkelProgress.PcRank(s'.threads[t].pc) < SkelProgress.PcRank(s.threads[t].pc)
  {
    WayOn(s.k, t, s.threads[t]);
  }

  lemma {:induction false} WriteRun(s: State, t: nat) returns (ls: seq<Label>)
    requires Inv(s) && Unhindered(s, t)
    ensures Legal(s, ls)
    ensures var e := Exec(s, ls);
            && Inv(e) && Unhindered(e, t) && OnlyWrites(s, e, t)
            && e.threads[t].pc.Done? && e.k.sem == s.k.sem - One(Wanting(s.threads[t].pc))
    decreases SkelProgress.PcRank(s.threads[t].pc)
  {
    ls := [];
    if !s.threads[t].pc.Done? {
      CanGoOn(s, t);
      GoesOn(s, t);
      SkelKeeps.StepKeeps(s, t, Go);
      ls := WriteRun(StepNext(s, t, Go), t);
      ls := Prepend(s, Step(t, Go), ls);
    }
  }

  /** No call is under way, file 0 is open and the device is there. */
  predicate Ready(s: State) {
    && (forall t :: 0 <= t < |s.threads| ==> s.threads[t].pc.Done?)
    && |s.k.files| > 0 && s.k.files[0] && s.disc.NotCalled? && s.k.openLock.Nobody? && s.k.ioMutex.Nobody?
  }

  lemma WriteBegins(s: State, data: seq<byte>)
    requires Ready(s) && s.k.sem > 0 && data != []
    ensures Enabled(s, CallWrite(0, data))
    ensures var s' := Next(s, CallWrite(0, data));
            && Unhindered(s', |s.threads|) && s'.threads[|s.threads|] == Thread(Write(0, data), WrSize) && s'.k == s.k
            && |s'.threads| == |s.threads| + 1 && s'.disc == s.disc
            && forall t :: 0 <= t < |s.threads| ==> s'.threads[t] == s.threads[t]
  {
  }

  lemma ReadyAgain(s: State, t: nat)
    requires Inv(s) && Unhindered(s, t) && forall j :: 0 <= j < |s.threads| ==> s.threads[j].pc.Done?
    requires |s.k.files| > 0 && s.k.files[0]
    ensures Ready(s)
  {
    assert LockOwned(s, IoMutex);
  }

  /** One more write that submits its URB and returns. */
  lemma OneMoreWrite(s: State, data: seq<byte>) returns (ls: seq<Label>)
    requires Inv(s) && Ready(s) && s.k.sem > 0 && data != []
    ensures Legal(s, ls) && Inv(Exec(s, ls)) && Ready(Exec(s, ls)) && Exec(s, ls).k.sem == s.k.sem - 1
  {
    var t := |s.threads|;
    WriteBegins(s, data);
    var s' := Next(s, CallWrite(0, data));
    SkelKeeps.NextKeeps(s, CallWrite(0, data));
    ls := WriteRun(s', t);
    ReadyAgain(Exec(s', ls), t);
    ls := Prepend(s, CallWrite(0, data), ls);
  }

  lemma {:induction false} Writes(s: State, data: seq<byte>, n: nat) returns (ls: seq<Label>)
    requires Inv(s) && Ready(s) && n <= s.k.sem && data != []
    ensures Legal(s, ls) && Inv(Exec(s, ls)) && Ready(Exec(s, ls)) && Exec(s, ls).k.sem == s.k.sem - n
    decreases n
  {
    ls := [];
    if n > 0 {
      var a := OneMoreWrite(s, data);
      var b := Writes(Exec(s, a), data, n - 1);
      SkelRuns.RunsJoin(s, a, b);
      ls := a + b;
    }
  }

  lemma InFlight(s: State)
    requires Inv(s) && Ready(s)
    ensures s.k.sem + Sum(UrbW, s.k.urbs) == 8
  {
    SumZero(PermitW, s.threads);
  }

  /** Any number of URBs up to eight can be in flight at once, all their writes having returned. */
  lemma EightInFlight(buf: seq<byte>, data: seq<byte>, n: nat) returns (ls: seq<Label>)
    requires data != [] && n <= 8
    ensures Legal(Init(buf), ls)
    ensures var e := Exec(Init(buf), ls); Inv(e) && Ready(e) && Sum(UrbW, e.k.urbs) == n && e.k.sem == 8 - n
  {
    ls := OpenRun(buf);
    SkelRuns.Reached(buf, ls);
    var b := Writes(Opened(buf), data, n);
    SkelRuns.RunsJoin(Init(buf), ls, b);
    ls := ls + b;
    InFlight(Exec(Init(buf), ls));
  }
}
