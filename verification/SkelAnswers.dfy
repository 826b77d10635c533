/**
 What a call answers: the error number of the one thing that went wrong on its way, or, if nothing did, the value
 the call is for. Failures are counted by what the operations did, not by where the call went on to.
 */
module SkelAnswers {
  import opened Bytes
  import opened Sums
  import opened SkelModel
  import opened SkelInvariant
  import SkelKeeps
  import SkelRuns

  /** The failure an operation can report, as its number in errno.h. */
  function FailureOf(k: Shared, op: Op, c: Choice): seq<int> {
    match op
    case FindInterface(ok) => if ok then [] else [-19]  // no device
    case GetData => if k.intfdata then [] else [-19]
    case LoadIface => if k.iface then [] else [-19]
    case PmGet(ok) => if !ok && c.Fail? then [c.err] else []
    case BulkMsg(_, _, _, status) => if status == 0 then [] else [status]
    case CopyToUser(_, _, ok) => if ok then [] else [-14]  // bad address
    case Down(ok) => if ok then [] else [-512]  // restart after the signal
    case AllocUrb(_, ok) => if ok then [] else [-12]  // out of memory
    case AllocBuffer(_, _, ok) => if ok then [] else [-12]
    case CopyFromUser(_, _, ok) => if ok then [] else [-14]
    case Submit(_, _, ok) => if !ok && c.Fail? then [c.err] else []
    case _ => []
  }

  /** What has happened to a call so far: the failures, and the length of its transfer from the device. */
  datatype Seen = Seen(fails: seq<int>, got: nat)

  function Note(seen: Seen, k: Shared, op: Op, c: Choice): Seen {
    Seen(seen.fails + FailureOf(k, op, c), if op.BulkMsg? then |op.bytes| else seen.got)
  }

  /** What call `t` has seen at the end of a run, `seen` being what it had seen before. */
  ghost function History(s: State, ls: seq<Label>, t: nat, seen: Seen): Seen
    requires Legal(s, ls)
    decreases |ls|
  {
    if ls == [] then
      seen
    else
      var l := ls[0];
      var now := if l.Step? && l.t == t then Note(seen, s.k, OpOf(s, l), l.choice) else seen;
      History(Next(s, l), ls[1..], t, now)
  }

  const NOTHING_SEEN := Seen([], 0)

  /** What a call is for. */
  function Value(call: Call, got: nat): int {
    match call
    case Open => 0
    case Release(_) => 0
    case Read(_, _) => got
    case Write(_, data) => if |data| < 3584 then |data| else 3584
  }

  predicate Answers(call: Call, ret: int, seen: Seen) {
    if seen.fails == [] then ret == Value(call, seen.got) else seen.fails == [ret] && ret < 0
  }

  // ---------------------------------------------------------------- every step

  /** How a call on its way keeps what it has seen. */
  predicate Carries(th: Thread, seen: Seen) {
    match th.pc
    case OpenMiss => seen.fails == [ENODEV]
    case OpenPut(ret) => seen.fails == [ret] && ret < 0
    case ErrBuf(_, ret) => seen.fails == [ret] && ret < 0
    case ErrUrb(_, ret) => seen.fails == [ret] && ret < 0
    case ErrUp(ret) => seen.fails == [ret] && ret < 0
    case WrUnlock(_, ret) => if ret == 0 then seen.fails == [] else seen.fails == [ret] && ret < 0
    case ReadCopy(n) => seen.fails == [] && n == seen.got
    case ReadUnlock(ret) => Answers(th.call, ret, seen)
    case DelUdev(ret) => Answers(th.call, ret, seen)
    case DelBuf(ret) => Answers(th.call, ret, seen)
    case DelDev(ret) => Answers(th.call, ret, seen)
    case Done(ret) => Answers(th.call, ret, seen)
    case _ => seen.fails == []
  }

  lemma OpenCarries(k: Shared, t: nat, th: Thread, c: Choice, seen: Seen)
    requires OpenPc(th.pc) && Fits(th) && Offers(th.pc, c) && Carries(th, seen)
    ensures Carries(Thread(th.call, Then(k, th, c)), Note(seen, k, Action(t, th, c), c))
  {
  }

  lemma ReadCarries(k: Shared, t: nat, th: Thread, c: Choice, seen: Seen)
    requires ReadPc(th.pc) && Fits(th) && Offers(th.pc, c) && CanDo(k, Action(t, th, c)) && Carries(th, seen)
    ensures Carries(Thread(th.call, Then(k, th, c)), Note(seen, k, Action(t, th, c), c))
  {
  }

  predicate Submitting(pc: Pc) { pc.WrSubmit? || pc.WrUnlock? || pc.WrDrop? || pc.ErrBuf? || pc.ErrUrb? || pc.ErrUp? }

  lemma BeginningCarries(k: Shared, t: nat, th: Thread, c: Choice, seen: Seen)
    requires WritePc(th.pc) && !Submitting(th.pc) && LocalOk(k, th) && Offers(th.pc, c) && Carries(th, seen)
    ensures Carries(Thread(th.call, Then(k, th, c)), Note(seen, k, Action(t, th, c), c))
  {
  }

  lemma SubmittingCarries(k: Shared, t: nat, th: Thread, c: Choice, seen: Seen)
    requires Submitting(th.pc) && LocalOk(k, th) && Offers(th.pc, c) && Carries(th, seen)
    ensures Carries(Thread(th.call, Then(k, th, c)), Note(seen, k, Action(t, th, c), c))
  {
  }

  /** release and skel_delete. */
  lemma LastCarries(k: Shared, t: nat, th: Thread, c: Choice, seen: Seen)
    requires RelPc(th.pc) || DelPc(th.pc)
    requires Fits(th) && Offers(th.pc, c) && Carries(th, seen)
    ensures Carries(Thread(th.call, Then(k, th, c)), Note(seen, k, Action(t, th, c), c))
  {
  }

  lemma StepCarries(k: Shared, t: nat, th: Thread, c: Choice, seen: Seen)
    requires LocalOk(k, th) && Offers(th.pc, c) && CanDo(k, Action(t, th, c)) && Carries(th, seen)
    ensures Carries(Thread(th.call, Then(k, th, c)), Note(seen, k, Action(t, th, c), c))
  {
    if OpenPc(th.pc) {
      OpenCarries(k, t, th, c, seen);
    } else if ReadPc(th.pc) {
      ReadCarries(k, t, th, c, seen);
    } else if WritePc(th.pc) {
      if Submitting(th.pc) {
        SubmittingCarries(k, t, th, c, seen);
      } else {
        BeginningCarries(k, t, th, c, seen);
      }
    } else {
      LastCarries(k, t, th, c, seen);
    }
  }

  ghost predicate Consistent(s: State, t: nat, seen: Seen) {
    if t < |s.threads| then Carries(s.threads[t], seen) else seen == NOTHING_SEEN
  }

  lemma NextConsistent(s: State, l: Label, t: nat, seen: Seen)
    requires Inv(s) && Enabled(s, l) && Consistent(s, t, seen)
    ensures Consistent(Next(s, l), t, if l.Step? && l.t == t then Note(seen, s.k, OpOf(s, l), l.choice) else seen)
  {
    if l.Step? && l.t == t {
      assert LocalOk(s.k, s.threads[t]);
      StepCarries(s.k, t, s.threads[t], l.choice, seen);
    }
  }

  lemma {:induction false} RunConsistent(s: State, ls: seq<Label>, t: nat, seen: Seen)
    requires Inv(s) && Legal(s, ls) && Consistent(s, t, seen)
    ensures Consistent(Exec(s, ls), t, History(s, ls, t, seen))
    decreases |ls|
  {
    if ls != [] {
      var l := ls[0];
      NextConsistent(s, l, t, seen);
      SkelKeeps.NextKeeps(s, l);
      var now := if l.Step? && l.t == t then Note(seen, s.k, OpOf(s, l), l.choice) else seen;
      RunConsistent(Next(s, l), ls[1..], t, now);
    }
  }

  /**
   A finished call answers the number of its one failure, whatever that was and whoever else was at work; if nothing
   failed, open and release answer 0, a read the length of its transfer, and a write min(count, 3584).
   */
  lemma CallAnswers(buf: seq<byte>, ls: seq<Label>, t: nat)
    requires Legal(Init(buf), ls) && t < |Exec(Init(buf), ls).threads| && Exec(Init(buf), ls).threads[t].pc.Done?
    ensures var th := Exec(Init(buf), ls).threads[t];
            Answers(th.call, th.pc.ret, History(Init(buf), ls, t, NOTHING_SEEN))
  {
    InitInv(buf);
    RunConsistent(Init(buf), ls, t, NOTHING_SEEN);
  }

  // ---------------------------------------------------------------- opens and files, empty writes

  /** An open that has reported success. */
  function OpenedW(th: Thread): nat { One(th.call.Open? && th.pc == Done(0)) }

  predicate FailedOpen(th: Thread) {
    th.call.Open? && (th.pc.DelUdev? || th.pc.DelBuf? || th.pc.DelDev?) ==> th.pc.ret < 0
  }

  predicate EmptyWrite(th: Thread) { th.call.Write? && th.call.data == [] }

  predicate WellAnswered(th: Thread) {
    && FailedOpen(th)
    && (th.call.Open? && th.pc.Done? ==> th.pc.ret <= 0)
    && (EmptyWrite(th) ==> th.pc.WrSize? || th.pc == Done(0))
  }

  ghost predicate OpensCounted(s: State) { Sum(OpenedW, s.threads) == |s.k.files| }

  ghost predicate AllAnswered(s: State) { forall t :: 0 <= t < |s.threads| ==> WellAnswered(s.threads[t]) }

  ghost predicate UrbsWanted(s: State) {
    forall u :: 0 <= u < |s.k.urbs| ==>
      s.k.urbs[u].writer < |s.threads| && !EmptyWrite(s.threads[s.k.urbs[u].writer])
  }

  ghost predicate Accounted(s: State) { OpensCounted(s) && AllAnswered(s) && UrbsWanted(s) }

  lemma NotOpening(k: Shared, t: nat, th: Thread, c: Choice)
    requires LocalOk(k, th) && Offers(th.pc, c) && !OpenPc(th.pc)
    ensures var x, op := Thread(th.call, Then(k, th, c)), Action(t, th, c);
            && !op.NewFile? && !op.CloseFile?
            && (th.call.Open? ==> DelPc(th.pc) && (DelPc(x.pc) || x.pc.Done?) && x.pc.ret == th.pc.ret)
            && (th.call.Write? ==> th.pc.WrSize? || th.call.data != [] || DelPc(th.pc))
            && (th.pc.WrSize? && th.call.data == [] ==> x.pc == Done(0))
            && (op.AllocUrb? ==> op.t == t && th.call.Write? && th.call.data != [])
  {
  }

  lemma StepAccounts(k: Shared, t: nat, th: Thread, c: Choice)
    requires LocalOk(k, th) && Offers(th.pc, c) && CanDo(k, Action(t, th, c)) && WellAnswered(th)
    ensures var x, op := Thread(th.call, Then(k, th, c)), Action(t, th, c);
            && WellAnswered(x) && OpenedW(x) == OpenedW(th) + One(op.NewFile?) && !op.CloseFile?
            && (op.AllocUrb? ==> op.t == t && th.call.Write? && !EmptyWrite(th))
  {
    if !OpenPc(th.pc) {
      NotOpening(k, t, th, c);
    }
  }

  lemma StepAccounted(s: State, t: nat, c: Choice)
    requires Inv(s) && OpensCounted(s) && AllAnswered(s) && CanStep(s, t, c)
    ensures OpensCounted(StepNext(s, t, c)) && AllAnswered(StepNext(s, t, c))
  {
    assert LocalOk(s.k, s.threads[t]);
    StepAccounts(s.k, t, s.threads[t], c);
    SumUpdate(OpenedW, s.threads, t, StepNext(s, t, c).threads[t]);
  }

  lemma SameWriters(s: State, s': State)
    requires UrbsWanted(s) && |s.threads| <= |s'.threads| && |s.k.urbs| == |s'.k.urbs|
    requires forall t :: 0 <= t < |s.threads| ==> s'.threads[t].call == s.threads[t].call
    requires forall u :: 0 <= u < |s.k.urbs| ==> s'.k.urbs[u].writer == s.k.urbs[u].writer
    ensures UrbsWanted(s')
  {
  }

  lemma WritersStay(urbs: seq<Urb>, op: Op)
    requires Target(op).Some? ==> Target(op).value < |urbs|
    requires !(op.AllocUrb? && op.ok)
    ensures |UrbsAfter(urbs, op)| == |urbs|
    ensures forall u :: 0 <= u < |urbs| ==> UrbsAfter(urbs, op)[u].writer == urbs[u].writer
  {
  }

  lemma WantedAfter(s: State, s': State, t: nat, op: Op)
    requires SkelKeeps.Moves(s, s', t) && UrbsWanted(s) && Exists(s.k, op) && s'.k.urbs == UrbsAfter(s.k.urbs, op)
    requires op.AllocUrb? ==> op.t == t && !EmptyWrite(s.threads[t])
    ensures UrbsWanted(s')
  {
    if op.AllocUrb? && op.ok {
      assert s'.k.urbs == s.k.urbs + [NewUrb(t)];
    } else {
      WritersStay(s.k.urbs, op);
      SameWriters(s, s');
    }
  }

  lemma StepWanted(s: State, t: nat, c: Choice)
    requires Inv(s) && AllAnswered(s) && UrbsWanted(s) && CanStep(s, t, c)
    ensures UrbsWanted(StepNext(s, t, c))
  {
    assert LocalOk(s.k, s.threads[t]) && WellAnswered(s.threads[t]);
    StepAccounts(s.k, t, s.threads[t], c);
    WantedAfter(s, StepNext(s, t, c), t, Action(t, s.threads[t], c));
  }

  lemma EnterAccounted(s: State, l: Label)
    requires Accounted(s) && Enabled(s, l) && !l.Step? && !l.Complete? && !l.Disc? && !l.Unplug?
    ensures Accounted(Next(s, l))
  {
    var s' := Next(s, l);
    SumAppend(OpenedW, s.threads, s'.threads[|s.threads|]);
    SameWriters(s, s');
  }

  lemma OthersAccounted(s: State, s': State)
    requires Accounted(s) && s'.threads == s.threads && s'.k.files == s.k.files && |s.k.urbs| == |s'.k.urbs|
    requires forall u :: 0 <= u < |s.k.urbs| ==> s'.k.urbs[u].writer == s.k.urbs[u].writer
    ensures Accounted(s')
  {
  }

  lemma CompleteAccounted(s: State, u: nat)
    requires Accounted(s) && CanComplete(s, u)
    ensures Accounted(CompleteNext(s, u))
  {
    SkelKeeps.CompleteShape(s, u);
    OthersAccounted(s, CompleteNext(s, u));
  }

  lemma DiscAccounted(s: State)
    requires Accounted(s) && CanDisc(s)
    ensures Accounted(DiscNext(s))
  {
    OthersAccounted(s, DiscNext(s));
  }

  lemma NextAccounted(s: State, l: Label)
    requires Inv(s) && Accounted(s) && Enabled(s, l)
    ensures Accounted(Next(s, l))
  {
    match l
    case Step(t, c) =>
      StepAccounted(s, t, c);
      StepWanted(s, t, c);
    case Complete(u) => CompleteAccounted(s, u);
    case Disc => DiscAccounted(s);
    case Unplug => OthersAccounted(s, Next(s, l));
    case _ => EnterAccounted(s, l);
  }

  lemma {:induction false} RunAccounted(s: State, ls: seq<Label>)
    requires Inv(s) && Accounted(s) && Legal(s, ls)
    ensures Accounted(Exec(s, ls))
    decreases |ls|
  {
    if ls != [] {
      NextAccounted(s, ls[0]);
      SkelKeeps.NextKeeps(s, ls[0]);
      RunAccounted(Next(s, ls[0]), ls[1..]);
    }
  }

  /** An open that gives its reference back, or is deleting the device. */
  predicate PutsBack(th: Thread) { th.call.Open? && (th.pc.OpenPut? || DelPc(th.pc)) }

  /**
   As many opens have answered 0 as files were made; every other finished one answered a negative number, and so will
   one that is giving its reference back or deleting the device.
   */
  lemma OpensAnswer(buf: seq<byte>, ls: seq<Label>)
    requires Legal(Init(buf), ls)
    ensures var s := Exec(Init(buf), ls);
            && Sum(OpenedW, s.threads) == |s.k.files|
            && (forall t :: 0 <= t < |s.threads| && s.threads[t].call.Open? && s.threads[t].pc.Done? ==>
                  s.threads[t].pc.ret <= 0)
            && (forall t :: 0 <= t < |s.threads| && PutsBack(s.threads[t]) ==> s.threads[t].pc.ret < 0)
  {
    InitInv(buf);
    RunAccounted(Init(buf), ls);
    SkelRuns.RunInv(Init(buf), ls);
    var s := Exec(Init(buf), ls);
    forall t | 0 <= t < |s.threads| && PutsBack(s.threads[t]) ensures s.threads[t].pc.ret < 0 {
      assert LocalOk(s.k, s.threads[t]) && WellAnswered(s.threads[t]);
    }
  }

  /** A write of nothing is not begun or has answered 0: it never holds a permit, and no URB is ever made for it. */
  lemma EmptyWritesDoNothing(buf: seq<byte>, ls: seq<Label>, t: nat)
    requires Legal(Init(buf), ls) && t < |Exec(Init(buf), ls).threads| && Exec(Init(buf), ls).threads[t].call.Write?
    ensures var s := Exec(Init(buf), ls);
            var th := s.threads[t];
            && (th.call.data == [] ==>
                  && (th.pc.WrSize? || th.pc == Done(0))
                  && PermitW(th) == 0
                  && forall u :: 0 <= u < |s.k.urbs| ==> s.k.urbs[u].writer != t)
            && (th.pc == Done(0) ==> th.call.data == [])
  {
    InitInv(buf);
    RunAccounted(Init(buf), ls);
    if Exec(Init(buf), ls).threads[t].pc == Done(0) {
      CallAnswers(buf, ls, t);
    }
  }
}
