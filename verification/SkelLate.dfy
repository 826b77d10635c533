/** Calls that come too late: what open, read and write do once skel_disconnect has cleared dev->interface. */
module SkelLate {
  import opened Bytes
  import opened SkelModel
  import opened SkelInvariant
  import opened SkelResults
  import SkelRuns

  /** Where a call can be that has not got past its own test before the disconnect. */
  predicate Late(th: Thread) {
    match th.call
    case Open =>
      th.pc.OpenLock? || th.pc.OpenFind? || th.pc.OpenData? || th.pc.OpenMiss? || th.pc == Done(ENODEV)
    case Read(_, _) =>
      th.pc.ReadLock? || th.pc.ReadCheck? || th.pc == ReadUnlock(ENODEV) || th.pc == Done(ENODEV)
    case Write(_, data) =>
      || th.pc.WrSize? || th.pc.WrDown? || th.pc.WrUrb? || th.pc.WrBuf? || th.pc.WrCopy?
      || th.pc.WrLock? || th.pc.WrCheck?
      || ((th.pc.WrUnlock? || th.pc.ErrBuf? || th.pc.ErrUrb? || th.pc.ErrUp? || th.pc.Done?) && th.pc.ret < 0)
      || (th.pc == Done(0) && data == [])
    case Release(_) => true
  }

  lemma LateThen(k: Shared, th: Thread, c: Choice)
    requires Fits(th) && Offers(th.pc, c) && Late(th) && !k.iface && !k.intfdata
    ensures Late(Thread(th.call, Then(k, th, c)))
  {
  }

  lemma GoneStep(s: State, l: Label)
    requires Enabled(s, l) && !s.k.iface && !s.k.intfdata
    ensures !Next(s, l).k.iface && !Next(s, l).k.intfdata && |Next(s, l).threads| >= |s.threads|
  {
  }

  lemma LateStep(s: State, l: Label, t: nat)
    requires Enabled(s, l) && !s.k.iface && !s.k.intfdata && t < |Next(s, l).threads|
    requires t < |s.threads| ==> Late(s.threads[t])
    ensures Late(Next(s, l).threads[t])
  {
    if l.Step? && l.t == t {
      LateThen(s.k, s.threads[t], l.choice);
    }
  }

  lemma {:induction false} LateRun(s: State, ls: seq<Label>, t: nat)
    requires Legal(s, ls) && !s.k.iface && !s.k.intfdata && t < |Exec(s, ls).threads|
    requires t < |s.threads| ==> Late(s.threads[t])
    ensures Late(Exec(s, ls).threads[t])
    decreases |ls|
  {
    if ls != [] {
      var s' := Next(s, ls[0]);
      GoneStep(s, ls[0]);
      if t < |s'.threads| {
        LateStep(s, ls[0], t);
      }
      LateRun(s', ls[1..], t);
    }
  }

  /** What a late call's return value and traces are, once it is done. */
  ghost predicate Failed(s: State, t: nat)
    requires t < |s.threads| && s.threads[t].pc.Done?
  {
    var call, ret := s.threads[t].call, s.threads[t].pc.ret;
    && (call.Open? || call.Read? ==> ret == ENODEV)
    && (call.Write? ==> (ret == 0 && call.data == []) || ret < 0)
    && (call.Read? ==> forall i :: 0 <= i < |s.k.log| && s.k.log[i].t == t ==> !s.k.log[i].ok)
    && (call.Write? ==> forall u :: 0 <= u < |s.k.urbs| && s.k.urbs[u].writer == t ==> s.k.urbs[u].phase.Idle?)
  }

  lemma LateFails(s: State, t: nat)
    requires Results(s) && t < |s.threads| && s.threads[t].pc.Done? && Late(s.threads[t])
    ensures Failed(s, t)
  {
    var th := s.threads[t];
    assert Returning(th) ==> ReadResult(s, t, th.pc.ret);
    assert Finished(th) ==> WriteResult(s, t, th.pc.ret);
  }

  lemma GoneFlags(s: State)
    requires Published(s) && Rank(s.disc) > Rank(Gone)
    ensures !s.k.iface && !s.k.intfdata
  {
  }

  lemma LateFrom(s: State, ls: seq<Label>, t: nat)
    requires Legal(s, ls) && !s.k.iface && !s.k.intfdata && Results(Exec(s, ls))
    requires t < |s.threads| ==> Late(s.threads[t])
    requires t < |Exec(s, ls).threads| && Exec(s, ls).threads[t].pc.Done?
    ensures Failed(Exec(s, ls), t)
  {
    LateRun(s, ls, t);
    LateFails(Exec(s, ls), t);
  }

  /**
   A call made, or still waiting to make its test, after skel_disconnect cleared dev->interface: open and read
   end with ENODEV, nothing reaches a reader, and a write fails, unless it had nothing to write, with no URB submitted.
   */
  lemma LateCallsFail(buf: seq<byte>, before: seq<Label>, after: seq<Label>, t: nat)
    requires Legal(Init(buf), before + after)
    requires Legal(Init(buf), before) ==>
               var s := Exec(Init(buf), before);
               Rank(s.disc) > Rank(Gone) && (t < |s.threads| ==> Late(s.threads[t]))
    requires t < |Exec(Init(buf), before + after).threads| && Exec(Init(buf), before + after).threads[t].pc.Done?
    ensures Failed(Exec(Init(buf), before + after), t)
  {
    SkelRuns.RunSplits(Init(buf), before, after);
    SkelRuns.Reached(buf, before);
    SkelRuns.Reached(buf, before + after);
    GoneFlags(Exec(Init(buf), before));
    LateFrom(Exec(Init(buf), before), after, t);
  }
}
