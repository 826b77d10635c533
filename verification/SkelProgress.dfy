/** No reachable state is stuck, every run is bounded by the calls made, and a finished run leaves nothing behind. */
module SkelProgress {
  import opened Sums
  import opened SkelModel
  import opened SkelInvariant
  import SkelKeeps

  /** Steps of the driver and the core; the others are the environment starting something. */
  predicate Internal(l: Label) { l.Step? || l.Complete? || l.Disc? }

  /** No call, completion or disconnect is under way. */
  predicate Quiet(s: State) {
    && (forall t :: 0 <= t < |s.threads| ==> s.threads[t].pc.Done?)
    && (forall u :: 0 <= u < |s.k.urbs| ==> !CanComplete(s, u))
    && (s.disc.NotCalled? || s.disc.Returned?)
  }

  // ---------------------------------------------------------------- progress

  /** An outcome every step must be ready for. */
  function Usual(pc: Pc): Choice {
    if pc.ReadXfer? then Data([], 0) else if pc.WrSubmit? then Fail(ENODEV) else Go
  }

  predicate MayWait(pc: Pc) { pc.OpenLock? || pc.RelLock? || pc.ReadLock? || pc.WrLock? || pc.WrDown? }

  lemma OnlyWaitersWait(s: State, t: nat)
    requires Inv(s) && t < |s.threads| && !s.threads[t].pc.Done?
    requires !MayWait(s.threads[t].pc)
             || (if s.threads[t].pc.WrDown? then s.k.sem > 0 else s.k.openLock.Nobody? && s.k.ioMutex.Nobody?)
    ensures CanStep(s, t, Usual(s.threads[t].pc))
  {
    assert LocalOk(s.k, s.threads[t]);
    SkelKeeps.ActionExists(s.k, t, s.threads[t], Usual(s.threads[t].pc));
  }

  /** Nothing inside a critical section waits. */
  lemma InsideNeverWaits(m: Mutex, pc: Pc)
    requires Inside(m, pc)
    ensures !MayWait(pc) && !pc.Done?
  {
  }

  /** Whoever owns a lock, a call or the disconnect, can take its next step itself. */
  lemma OwnerMoves(s: State, m: Mutex) returns (l: Label)
    requires Inv(s) && !OwnerOf(s.k, m).Nobody?
    ensures Enabled(s, l) && Internal(l) && (l.Step? ==> l.choice == Usual(s.threads[l.t].pc))
    ensures WhoOf(l) == OwnerOf(s.k, m)
  {
    var owner := OwnerOf(s.k, m);
    assert LockOwned(s, m);
    if owner.Caller? {
      InsideNeverWaits(m, s.threads[owner.t].pc);
      OnlyWaitersWait(s, owner.t);
      l := Step(owner.t, Usual(s.threads[owner.t].pc));
    } else {
      assert InsideD(m, s.disc);
      l := Disc;
    }
  }

  /** With no permit left and no completion to come, a writer holds one, and it can take its next step. */
  lemma PermitHolder(s: State) returns (l: Label)
    requires Inv(s) && s.k.sem == 0 && s.k.openLock.Nobody? && s.k.ioMutex.Nobody?
    requires forall u :: 0 <= u < |s.k.urbs| ==> !CanComplete(s, u)
    ensures Enabled(s, l) && l.Step? && l.choice == Usual(s.threads[l.t].pc) && HoldsPermit(s.threads[l.t].pc)
  {
    if Sum(UrbW, s.k.urbs) > 0 {
      var u := SumWitness(UrbW, s.k.urbs);
      assert CanComplete(s, u);
    }
    var t := SumWitness(PermitW, s.threads);
    OnlyWaitersWait(s, t);
    l := Step(t, Usual(s.threads[t].pc));
  }

  /**
   In every reachable state with anything unfinished some step of the driver or the core can be taken,
   without waiting for a signal, a new call or any particular outcome of an operation.
   */
  lemma Progress(s: State) returns (l: Label)
    requires Inv(s) && !Quiet(s)
    ensures Enabled(s, l) && Internal(l) && (l.Step? ==> l.choice == Usual(s.threads[l.t].pc))
  {
    if u: nat :| u < |s.k.urbs| && CanComplete(s, u) {
      l := Complete(u);
    } else if !s.k.openLock.Nobody? {
      l := OwnerMoves(s, SkelOpenLock);
    } else if !s.k.ioMutex.Nobody? {
      l := OwnerMoves(s, IoMutex);
    } else if t: nat :| t < |s.threads| && !s.threads[t].pc.Done? {
      if s.threads[t].pc.WrDown? && s.k.sem == 0 {
        l := PermitHolder(s);
      } else {
        OnlyWaitersWait(s, t);
        l := Step(t, Usual(s.threads[t].pc));
      }
    } else {
      forall u | 0 <= u < |s.k.urbs| ensures !Pending(s.k.urbs[u]) {
        assert !CanComplete(s, u);
      }
      l := Disc;
    }
  }

  // ---------------------------------------------------------------- termination

  /** How many steps a call has left at most, counting those of the completion it may start. */
  function PcRank(pc: Pc): nat {
    match pc
    case Done(_) => 0
    case DelDev(_) => 1 case DelBuf(_) => 2 case DelUdev(_) => 3
    case OpenMiss => 1 case OpenSave => 1 case OpenPut(_) => 4 case OpenResume => 5 case OpenUnlock => 6
    case OpenGet => 7 case OpenData => 8 case OpenFind => 9 case OpenLock => 10
    case RelPut => 4 case RelUnlock => 5 case RelSuspend => 6 case RelLock => 7
    case ReadUnlock(_) => 1 case ReadCopy(_) => 2 case ReadXfer => 3 case ReadCheck => 4 case ReadLock => 5
    case ErrUp(_) => 1 case ErrUrb(_, _) => 2 case ErrBuf(_, _) => 3 case WrDrop(_) => 1 case WrUnlock(_, _) => 4
    case WrSubmit(_) => 8 case WrCheck(_) => 9 case WrLock(_) => 10 case WrCopy(_) => 11 case WrBuf(_) => 12
    case WrUrb => 13 case WrDown => 14 case WrSize => 15
  }

  function ThreadRank(th: Thread): nat { PcRank(th.pc) }

  function UrbRank(b: Urb): nat {
    match b.phase
    case InFlight => 3 case BufferGone => 2 case Upped => 1 case _ => 0
  }

  function DiscRank(d: DiscPc): nat { if d.NotCalled? then 0 else 13 - Rank(d) }

  function Measure(s: State): nat {
    Sum(ThreadRank, s.threads) + Sum(UrbRank, s.k.urbs) + DiscRank(s.disc)
  }

  /** A call's step costs at least one, and pays for the completion it starts. */
  lemma StepRanks(k: Shared, t: nat, th: Thread, c: Choice)
    requires LocalOk(k, th) && Offers(th.pc, c)
    ensures var op := Action(t, th, c);
            PcRank(Then(k, th, c)) + (if op.Submit? && op.ok then 4 else 1) <= PcRank(th.pc)
  {
  }

  lemma UrbRanks(b: Urb, op: Op)
    requires !op.Advance? && (op.Submit? ==> b.phase.Idle?)
    ensures UrbRank(UrbAfter(b, op)) == UrbRank(b) + (if op.Submit? && op.ok then 3 else 0)
  {
  }

  lemma StepDecreases(s: State, t: nat, c: Choice)
    requires Inv(s) && CanStep(s, t, c)
    ensures Measure(StepNext(s, t, c)) < Measure(s)
  {
    var th, op, s' := s.threads[t], Action(t, s.threads[t], c), StepNext(s, t, c);
    StepRanks(s.k, t, th, c);
    SumUpdate(ThreadRank, s.threads, t, s'.threads[t]);
    SkelKeeps.ActionKind(s.k, t, th, c);
    if Target(op).Some? {
      var u := Target(op).value;
      SkelKeeps.HeldUrb(s, t);
      assert op.Submit? ==> s.k.urbs[u].phase.Idle?;
      UrbRanks(s.k.urbs[u], op);
      SumUpdate(UrbRank, s.k.urbs, u, s'.k.urbs[u]);
    } else {
      SumAppend(UrbRank, s.k.urbs, NewUrb(t));
    }
  }

  lemma CompleteDecreases(s: State, u: nat)
    requires CanComplete(s, u)
    ensures Measure(CompleteNext(s, u)) < Measure(s)
  {
    SkelKeeps.CompleteShape(s, u);
    SumUpdate(UrbRank, s.k.urbs, u, SkelKeeps.Completed(s.k.urbs[u]));
  }

  lemma DiscDecreases(s: State)
    requires CanDisc(s)
    ensures Measure(DiscNext(s)) < Measure(s)
  {
  }

  lemma CallCosts(s: State, l: Label)
    requires Enabled(s, l) && !Internal(l)
    ensures Measure(Next(s, l)) <= Measure(s) + 15
  {
    var s' := Next(s, l);
    if !l.Unplug? {
      SumAppend(ThreadRank, s.threads, s'.threads[|s.threads|]);
    }
  }

  lemma MeasureMoves(s: State, l: Label)
    requires Inv(s) && Enabled(s, l)
    ensures if Internal(l) then Measure(Next(s, l)) < Measure(s) else Measure(Next(s, l)) <= Measure(s) + 15
  {
    match l
    case Step(t, c) => StepDecreases(s, t, c);
    case Complete(u) => CompleteDecreases(s, u);
    case Disc => DiscDecreases(s);
    case _ => CallCosts(s, l);
  }
}
