/**
 The driver's guarantees, stated of every run from a successful probe, whatever calls are made and however
 they interleave.
 */
module SkelRuns {
  import opened Sums
  import opened Bytes
  import opened SkelModel
  import opened SkelInvariant
  import opened SkelResults
  import opened SkelProgress
  import opened SkelSafety
  import SkelKeeps

  lemma {:induction false} RunKeeps(s: State, ls: seq<Label>)
    requires Inv(s) && Results(s) && Legal(s, ls)
    ensures Inv(Exec(s, ls)) && Results(Exec(s, ls))
    decreases |ls|
  {
    if ls != [] {
      SkelKeeps.NextKeeps(s, ls[0]);
      ResultsKept(s, ls[0]);
      RunKeeps(Next(s, ls[0]), ls[1..]);
    }
  }

  lemma {:induction false} RunSplits(s: State, a: seq<Label>, b: seq<Label>)
    requires Legal(s, a + b)
    ensures Legal(s, a) && Legal(Exec(s, a), b) && Exec(s, a + b) == Exec(Exec(s, a), b)
    decreases |a|
  {
    if a == [] {
      assert a + b == b;
    } else {
      assert (a + b)[1..] == a[1..] + b;
      RunSplits(Next(s, a[0]), a[1..], b);
    }
  }

  lemma {:induction false} RunsJoin(s: State, a: seq<Label>, b: seq<Label>)
    requires Legal(s, a) && Legal(Exec(s, a), b)
    ensures Legal(s, a + b) && Exec(s, a + b) == Exec(Exec(s, a), b)
    decreases |a|
  {
    if a == [] {
      assert a + b == b;
    } else {
      assert (a + b)[0] == a[0] && (a + b)[1..] == a[1..] + b;
      RunsJoin(Next(s, a[0]), a[1..], b);
    }
  }

  lemma {:induction false} RunInv(s: State, ls: seq<Label>)
    requires Inv(s) && Legal(s, ls)
    ensures Inv(Exec(s, ls))
    decreases |ls|
  {
    if ls != [] {
      SkelKeeps.NextKeeps(s, ls[0]);
      RunInv(Next(s, ls[0]), ls[1..]);
    }
  }

  lemma Reached(buf: seq<byte>, ls: seq<Label>)
    requires Legal(Init(buf), ls)
    ensures Inv(Exec(Init(buf), ls)) && Results(Exec(Init(buf), ls))
  {
    InitInv(buf);
    RunKeeps(Init(buf), ls);
  }

  // ---------------------------------------------------------------- lifetime and safety

  /** The count is the registration, plus one per open call past its kref_get, open file and unfinished release. */
  lemma Lifetime(buf: seq<byte>, ls: seq<Label>)
    requires Legal(Init(buf), ls)
    ensures var s := Exec(Init(buf), ls);
            && s.k.kref == RegW(s.disc) + Sum(RefW, s.threads) + Sum(FileW, s.k.files)
            && s.k.devFrees <= 1
            && (s.k.devFrees == 1 ==> s.k.kref == 0 && s.k.inBufFrees == 1 && s.k.udev == 0)
            && (s.k.intfdata ==> s.k.kref > 0)
            && (s.k.kref > 0 ==> Undeleted(s))
  {
    Reached(buf, ls);
  }

  /** A call that uses the device, or waits for its lock or semaphore, and a URB in flight find it alive. */
  lemma UsersFindItAlive(buf: seq<byte>, ls: seq<Label>)
    requires Legal(Init(buf), ls)
    ensures var s := Exec(Init(buf), ls);
            && (forall t :: 0 <= t < |s.threads| && UsesDevice(s.threads[t].pc) ==> s.k.kref > 0 && s.k.devFrees == 0)
            && (forall u :: 0 <= u < |s.k.urbs| && Pending(s.k.urbs[u]) ==> s.k.kref > 0 && s.k.devFrees == 0)
  {
    var s := Exec(Init(buf), ls);
    Reached(buf, ls);
    forall t | 0 <= t < |s.threads| && UsesDevice(s.threads[t].pc) ensures s.k.kref > 0 && s.k.devFrees == 0 {
      PutAtLeastOne(s, t);
    }
    forall u | 0 <= u < |s.k.urbs| && Pending(s.k.urbs[u]) ensures s.k.kref > 0 && s.k.devFrees == 0 {
      PendingIsLive(s, u);
    }
  }

  lemma RunSafe(buf: seq<byte>, ls: seq<Label>, l: Label)
    requires Legal(Init(buf), ls) && Enabled(Exec(Init(buf), ls), l)
    ensures var s := Exec(Init(buf), ls); Exists(s.k, OpOf(s, l)) && Safe(s.k, WhoOf(l), OpOf(s, l))
  {
    Reached(buf, ls);
    EveryStepSafe(Exec(Init(buf), ls), l);
  }

  /** Each lock is held by one call at most, or the disconnect, and nobody holds both. */
  lemma LocksExclude(buf: seq<byte>, ls: seq<Label>, t: nat, j: nat)
    requires Legal(Init(buf), ls)
    requires var n := |Exec(Init(buf), ls).threads|; t < n && j < n
    ensures var s := Exec(Init(buf), ls);
            && (forall m :: Inside(m, s.threads[t].pc) && Inside(m, s.threads[j].pc) ==> t == j)
            && (forall m :: Inside(m, s.threads[t].pc) ==> !InsideD(m, s.disc))
            && (s.k.openLock == s.k.ioMutex ==> s.k.openLock.Nobody?)
  {
    var s := Exec(Init(buf), ls);
    Reached(buf, ls);
    assert LockOwned(s, SkelOpenLock) && LockOwned(s, IoMutex);
    forall m | Inside(m, s.threads[t].pc) ensures (Inside(m, s.threads[j].pc) ==> t == j) && !InsideD(m, s.disc) {
      assert LockOwned(s, m);
    }
  }

  // ---------------------------------------------------------------- conservation

  /** Semaphore value, permits in writers' hands and permits in flight always make eight. */
  lemma PermitsConserved(buf: seq<byte>, ls: seq<Label>)
    requires Legal(Init(buf), ls)
    ensures var s := Exec(Init(buf), ls);
            && 0 <= s.k.sem <= 8
            && s.k.sem + Sum(PermitW, s.threads) + Sum(UrbW, s.k.urbs) == 8
            && Sum(UrbW, s.k.urbs) <= 8
            && (s.k.kref == 0 ==> s.k.sem == 8)
  {
    Reached(buf, ls);
    var s := Exec(Init(buf), ls);
    if s.k.kref == 0 {
      PermitsBackAtTheEnd(s);
    }
  }

  /** A URB is freed at most once, and its buffer at most once and with its own size; the buffer goes first. */
  lemma OwnershipLinear(buf: seq<byte>, ls: seq<Label>, u: nat)
    requires Legal(Init(buf), ls) && u < |Exec(Init(buf), ls).k.urbs|
    ensures var b := Exec(Init(buf), ls).k.urbs[u];
            && b.frees <= 1 && (b.frees == 1 <==> b.refs == 0)
            && (b.freed == [] || (b.alloc.Some? && b.freed == [b.alloc.value]))
            && (b.frees == 1 ==> Settled(b))
            && (b.phase.InFlight? ==> b.freed == [] && b.refs > 0)
  {
    Reached(buf, ls);
    assert UrbOk(Exec(Init(buf), ls), u);
  }

  lemma FreeLabels(t: nat, th: Thread, c: Choice)
    requires Fits(th) && Offers(th.pc, c) && Action(t, th, c).FreeBuffer?
    ensures th.pc.ErrBuf? && UrbOf(th.pc) == Some(Action(t, th, c).u)
  {
  }

  lemma FreesOwn(s: State, l: Label)
    requires Inv(s) && Enabled(s, l) && OpOf(s, l).FreeBuffer?
    ensures var u := OpOf(s, l).u;
            && u < |s.k.urbs| && s.k.urbs[u].freed == [] && Undeleted(s)
            && (l.Complete? ==> s.k.urbs[u].phase.InFlight?)
            && (l.Step? ==> s.k.urbs[u].phase.Idle? && s.k.urbs[u].writer == l.t)
            && (l.Step? || l.Complete?)
  {
    match l
    case Step(t, c) =>
      FreeLabels(t, s.threads[t], c);
      SkelKeeps.HeldUrb(s, t);
      PutAtLeastOne(s, t);
    case Complete(u) =>
      assert UrbOk(s, u);
      PendingIsLive(s, u);
    case _ =>
  }

  lemma StepSettles(s: State, t: nat, c: Choice)
    requires UrbsOk(s) && CanStep(s, t, c) && Action(t, s.threads[t], c).FreeBuffer?
    ensures Action(t, s.threads[t], c).u < |StepNext(s, t, c).k.urbs|
    ensures Settled(StepNext(s, t, c).k.urbs[Action(t, s.threads[t], c).u])
  {
    FreeLabels(t, s.threads[t], c);
    SkelKeeps.HeldUrb(s, t);
  }

  lemma CallbackSettles(s: State, u: nat)
    requires UrbsOk(s) && CanComplete(s, u) && s.k.urbs[u].phase.InFlight?
    ensures u < |CompleteNext(s, u).k.urbs| && Settled(CompleteNext(s, u).k.urbs[u])
  {
    SkelKeeps.CompleteShape(s, u);
    assert UrbOk(s, u);
  }

  lemma FreeSettles(s: State, l: Label)
    requires Inv(s) && Enabled(s, l) && OpOf(s, l).FreeBuffer?
    ensures OpOf(s, l).u < |Next(s, l).k.urbs| && Settled(Next(s, l).k.urbs[OpOf(s, l).u])
  {
    FreesOwn(s, l);
    match l
    case Step(t, c) => StepSettles(s, t, c);
    case Complete(u) => CallbackSettles(s, u);
    case _ =>
  }

  /**
   Who frees a transfer buffer: the callback if the URB was submitted, the writer's error label if not, never
   both; it has not been freed before and has been, with its own size, after; and the device is there.
   */
  lemma FreedByItsOwner(buf: seq<byte>, ls: seq<Label>, l: Label)
    requires Legal(Init(buf), ls) && Enabled(Exec(Init(buf), ls), l) && OpOf(Exec(Init(buf), ls), l).FreeBuffer?
    ensures var s, u := Exec(Init(buf), ls), OpOf(Exec(Init(buf), ls), l).u;
            && u < |s.k.urbs| && s.k.urbs[u].freed == [] && Undeleted(s)
            && (l.Complete? <==> !s.k.urbs[u].phase.Idle?)
            && (l.Step? <==> s.k.urbs[u].phase.Idle?) && (l.Step? ==> s.k.urbs[u].writer == l.t)
            && u < |Next(s, l).k.urbs| && Settled(Next(s, l).k.urbs[u])
  {
    Reached(buf, ls);
    FreesOwn(Exec(Init(buf), ls), l);
    FreeSettles(Exec(Init(buf), ls), l);
  }

  // ---------------------------------------------------------------- no transfer after disconnect

  lemma IfaceStaysGone(s: State, l: Label)
    requires Enabled(s, l) && !s.k.iface
    ensures !Next(s, l).k.iface
  {
  }

  lemma {:induction false} GoneForGood(s: State, ls: seq<Label>)
    requires Legal(s, ls) && !s.k.iface
    ensures !Exec(s, ls).k.iface
    decreases |ls|
  {
    if ls != [] {
      IfaceStaysGone(s, ls[0]);
      GoneForGood(Next(s, ls[0]), ls[1..]);
    }
  }

  predicate StartsTransfer(op: Op) { op.BulkMsg? || op.Submit? }

  lemma TransferPcs(t: nat, th: Thread, c: Choice)
    requires Fits(th) && Offers(th.pc, c) && StartsTransfer(Action(t, th, c))
    ensures th.pc.ReadXfer? || th.pc.WrSubmit?
  {
  }

  lemma TransferNeedsIface(s: State, l: Label)
    requires LocalsOk(s) && Enabled(s, l) && StartsTransfer(OpOf(s, l))
    ensures s.k.iface
  {
    if l.Step? {
      TransferPcs(l.t, s.threads[l.t], l.choice);
      assert LocalOk(s.k, s.threads[l.t]);
    }
  }

  /** After skel_disconnect has cleared dev->interface, no later step of the run starts a bulk read or submits a URB. */
  lemma NoTransferAfterDisconnect(buf: seq<byte>, before: seq<Label>, after: seq<Label>, l: Label)
    requires Legal(Init(buf), before + after)
    requires Legal(Init(buf), before) ==> Rank(Exec(Init(buf), before).disc) > Rank(Gone)
    requires Enabled(Exec(Init(buf), before + after), l)
    ensures !StartsTransfer(OpOf(Exec(Init(buf), before + after), l))
  {
    var s := Exec(Init(buf), before + after);
    RunSplits(Init(buf), before, after);
    Reached(buf, before);
    Reached(buf, before + after);
    GoneForGood(Exec(Init(buf), before), after);
    if StartsTransfer(OpOf(s, l)) {
      TransferNeedsIface(s, l);
    }
  }

  // ---------------------------------------------------------------- the results

  /** A finished read returned the length of the one chunk of its own transfer that was copied out, or an error. */
  lemma ReadReturns(buf: seq<byte>, ls: seq<Label>, t: nat)
    requires Legal(Init(buf), ls)
    requires var s := Exec(Init(buf), ls); t < |s.threads| && s.threads[t].call.Read? && s.threads[t].pc.Done?
    ensures var s := Exec(Init(buf), ls);
            var ret := s.threads[t].pc.ret;
            && ReadResult(s, t, ret)
            && (forall i, j :: 0 <= i < j < |s.k.log| ==> s.k.log[i].t != s.k.log[j].t)
  {
    var s := Exec(Init(buf), ls);
    Reached(buf, ls);
    assert Returning(s.threads[t]);
    forall i, j | 0 <= i < j < |s.k.log| ensures s.k.log[i].t != s.k.log[j].t {
      assert SameChunk(s.k.xfers[i], s.k.log[i]) && SameChunk(s.k.xfers[j], s.k.log[j]);
    }
  }

  /** A finished write returned its size exactly when one URB of that size was submitted for it; else none was. */
  lemma WriteReturns(buf: seq<byte>, ls: seq<Label>, t: nat)
    requires Legal(Init(buf), ls)
    requires var s := Exec(Init(buf), ls); t < |s.threads| && s.threads[t].call.Write? && s.threads[t].pc.Done?
    ensures var s := Exec(Init(buf), ls);
            && WriteResult(s, t, s.threads[t].pc.ret)
            && (forall u, v :: 0 <= u < v < |s.k.urbs| ==> s.k.urbs[u].writer != s.k.urbs[v].writer)
  {
    var s := Exec(Init(buf), ls);
    Reached(buf, ls);
    assert Finished(s.threads[t]);
  }

  /** Every URB ever submitted carries the first bytes of its own writer's data, as many as the write returns. */
  lemma SentIsOwnData(buf: seq<byte>, ls: seq<Label>, u: nat)
    requires Legal(Init(buf), ls) && u < |Exec(Init(buf), ls).k.urbs| && !Exec(Init(buf), ls).k.urbs[u].phase.Idle?
    ensures var s := Exec(Init(buf), ls);
            var b := s.k.urbs[u];
            && b.writer < |s.threads| && s.threads[b.writer].call.Write?
            && var data := s.threads[b.writer].call.data;
               0 < b.length == Min(|data|, 3584) && b.data == data[..b.length]
  {
    var s := Exec(Init(buf), ls);
    Reached(buf, ls);
    assert UrbOk(s, u);
    assert LocalOk(s.k, s.threads[s.k.urbs[u].writer]);
  }

  // ---------------------------------------------------------------- termination and quiescence

  /** How many calls (and the one disconnect) a run contains. */
  function Calls(ls: seq<Label>): nat {
    if ls == [] then 0 else (if Internal(ls[0]) then 0 else 1) + Calls(ls[1..])
  }

  lemma {:induction false} RunBounded(s: State, ls: seq<Label>)
    requires Inv(s) && Legal(s, ls)
    ensures |ls| + Measure(Exec(s, ls)) <= Measure(s) + 16 * Calls(ls)
    decreases |ls|
  {
    if ls != [] {
      MeasureMoves(s, ls[0]);
      SkelKeeps.NextKeeps(s, ls[0]);
      RunBounded(Next(s, ls[0]), ls[1..]);
    }
  }

  /** A run with n calls has at most 16 n steps, so every run with finitely many calls comes to rest. */
  lemma EveryRunEnds(buf: seq<byte>, ls: seq<Label>)
    requires Legal(Init(buf), ls)
    ensures |ls| <= 16 * Calls(ls)
  {
    InitInv(buf);
    RunBounded(Init(buf), ls);
  }

  lemma UrbAtRest(s: State, u: nat)
    requires Inv(s) && Quiet(s) && u < |s.k.urbs|
    ensures var b := s.k.urbs[u]; b.refs == 0 && b.frees == 1 && Settled(b) && !Pending(b)
  {
    assert UrbOk(s, u) && !CanComplete(s, u);
  }

  lemma UrbsAtRest(s: State)
    requires Inv(s) && Quiet(s)
    ensures forall u :: 0 <= u < |s.k.urbs| ==> s.k.urbs[u].refs == 0 && s.k.urbs[u].frees == 1 && Settled(s.k.urbs[u])
  {
    forall u | 0 <= u < |s.k.urbs| ensures s.k.urbs[u].refs == 0 && s.k.urbs[u].frees == 1 && Settled(s.k.urbs[u]) {
      UrbAtRest(s, u);
    }
  }

  lemma CountsAtRest(s: State)
    requires Inv(s) && Quiet(s) && s.disc.Returned?
    requires forall f :: 0 <= f < |s.k.files| ==> !s.k.files[f]
    ensures s.k.kref == 0 && Deleted(s) && s.k.sem == WRITES_IN_FLIGHT && !s.k.minor && !s.k.intfdata
  {
    SumZero(RefW, s.threads);
    SumZero(DelW, s.threads);
    SumZero(FileW, s.k.files);
    PermitsBackAtTheEnd(s);
  }

  lemma LocksFreeAtRest(s: State, m: Mutex)
    requires LockOwned(s, m) && Quiet(s)
    ensures OwnerOf(s.k, m).Nobody?
  {
  }

  lemma RestIsQuiet(s: State)
    requires Inv(s) && forall l :: Enabled(s, l) ==> !Internal(l)
    ensures Quiet(s)
  {
    if !Quiet(s) {
      var l := Progress(s);
    }
  }

  /**
   A run that can take no further step of its own has finished every call, holds no lock and has freed every
   URB and buffer once; if the device is gone and every file released, it has been deleted once and no
   reference, minor or permit is left behind.
   */
  lemma NothingLeftBehind(buf: seq<byte>, ls: seq<Label>)
    requires Legal(Init(buf), ls)
    requires forall l :: Enabled(Exec(Init(buf), ls), l) ==> !Internal(l)
    ensures var s := Exec(Init(buf), ls);
            && Quiet(s)
            && s.k.openLock.Nobody? && s.k.ioMutex.Nobody?
            && (forall u :: 0 <= u < |s.k.urbs| ==>
                  s.k.urbs[u].refs == 0 && s.k.urbs[u].frees == 1 && Settled(s.k.urbs[u]))
            && (s.disc.Returned? && (forall f :: 0 <= f < |s.k.files| ==> !s.k.files[f]) ==>
                  s.k.kref == 0 && Deleted(s) && s.k.sem == WRITES_IN_FLIGHT && !s.k.minor && !s.k.intfdata)
  {
    var s := Exec(Init(buf), ls);
    Reached(buf, ls);
    RestIsQuiet(s);
    LocksFreeAtRest(s, SkelOpenLock);
    LocksFreeAtRest(s, IoMutex);
    UrbsAtRest(s);
    if s.disc.Returned? && (forall f :: 0 <= f < |s.k.files| ==> !s.k.files[f]) {
      CountsAtRest(s);
    }
  }
}
