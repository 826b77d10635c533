/** What the invariant says of every run: lifetime, safe use, conservation, no late I/O, clean end. */
module SkelSafety {
  import opened Sums
  import opened SkelModel
  import opened SkelInvariant
  import SkelKeeps

  // ---------------------------------------------------------------- lifetime

  /** Program counters at which a call uses the device structure, or waits for its lock or semaphore. */
  predicate UsesDevice(pc: Pc) {
    || pc.OpenGet? || pc.OpenUnlock? || pc.OpenResume? || pc.OpenPut? || pc.OpenSave?
    || RelPc(pc) || ReadPc(pc) || WritePc(pc)
  }

  lemma PutAtLeastOne(s: State, t: nat)
    requires Inv(s) && t < |s.threads| && UsesDevice(s.threads[t].pc)
    ensures s.k.kref > 0 && Undeleted(s)
  {
    var th := s.threads[t];
    assert LocalOk(s.k, th) && OnOpenFile(s, th);
    if ReadPc(th.pc) || WritePc(th.pc) {
      SumAtLeast(FileW, s.k.files, th.call.file);
    } else {
      SumAtLeast(RefW, s.threads, t);
    }
  }

  /** An in-flight URB's device is not deleted, although no URB holds a reference. */
  lemma PendingIsLive(s: State, u: nat)
    requires Inv(s) && u < |s.k.urbs| && Pending(s.k.urbs[u])
    ensures s.k.kref > 0 && Undeleted(s) && !s.disc.Returned? && s.k.sem < WRITES_IN_FLIGHT
  {
    SumAtLeast(UrbW, s.k.urbs, u);
  }

  /** Without references no call is using the device, and no file is open. */
  lemma NobodyLeft(s: State)
    requires Inv(s) && s.k.kref == 0
    ensures forall t :: 0 <= t < |s.threads| ==> !UsesDevice(s.threads[t].pc)
    ensures forall f :: 0 <= f < |s.k.files| ==> !s.k.files[f]
    ensures forall u :: 0 <= u < |s.k.urbs| ==> !Pending(s.k.urbs[u])
  {
    forall t | 0 <= t < |s.threads| ensures !UsesDevice(s.threads[t].pc) {
      if UsesDevice(s.threads[t].pc) {
        PutAtLeastOne(s, t);
      }
    }
    forall f | 0 <= f < |s.k.files| ensures !s.k.files[f] {
      SumAtLeast(FileW, s.k.files, f);
    }
    forall u | 0 <= u < |s.k.urbs| ensures !Pending(s.k.urbs[u]) {
      if Pending(s.k.urbs[u]) {
        PendingIsLive(s, u);
      }
    }
  }

  lemma CountsAtTheEnd(s: State)
    requires PermitsCounted(s) && PowerCounted(s)
    requires forall t :: 0 <= t < |s.threads| ==> !UsesDevice(s.threads[t].pc)
    requires forall f :: 0 <= f < |s.k.files| ==> !s.k.files[f]
    requires forall u :: 0 <= u < |s.k.urbs| ==> !Pending(s.k.urbs[u])
    ensures s.k.sem == WRITES_IN_FLIGHT && s.k.pm == s.k.skipped
  {
    SumZero(FileW, s.k.files);
    SumZero(PermitW, s.threads);
    SumZero(PmW, s.threads);
    SumZero(UrbW, s.k.urbs);
  }

  /** The last reference goes only when every permit is back and the power count holds nothing but skipped puts. */
  lemma PermitsBackAtTheEnd(s: State)
    requires Inv(s) && s.k.kref == 0
    ensures s.k.sem == WRITES_IN_FLIGHT && s.k.pm == s.k.skipped
    ensures forall t :: 0 <= t < |s.threads| ==> !UsesDevice(s.threads[t].pc)
    ensures forall u :: 0 <= u < |s.k.urbs| ==> !Pending(s.k.urbs[u])
  {
    NobodyLeft(s);
    CountsAtTheEnd(s);
  }

  // ---------------------------------------------------------------- every operation is safe

  lemma OpenSafe(s: State, t: nat, c: Choice)
    requires Inv(s) && CanStep(s, t, c) && (OpenPc(s.threads[t].pc) || RelPc(s.threads[t].pc))
    ensures Safe(s.k, Caller(t), Action(t, s.threads[t], c))
  {
    var th := s.threads[t];
    if UsesDevice(th.pc) {
      PutAtLeastOne(s, t);
    }
    SumAtLeast(PmW, s.threads, t);
    assert Inside(SkelOpenLock, th.pc) <==> s.k.openLock == Caller(t);
    assert Inside(IoMutex, th.pc) <==> s.k.ioMutex == Caller(t);
  }

  lemma ReadSafe(s: State, t: nat, c: Choice)
    requires Inv(s) && CanStep(s, t, c) && ReadPc(s.threads[t].pc)
    ensures Safe(s.k, Caller(t), Action(t, s.threads[t], c))
  {
    PutAtLeastOne(s, t);
    assert LocalOk(s.k, s.threads[t]);
    assert Inside(IoMutex, s.threads[t].pc) <==> s.k.ioMutex == Caller(t);
  }

  lemma WriteSafe(s: State, t: nat, c: Choice)
    requires Inv(s) && CanStep(s, t, c) && WritePc(s.threads[t].pc)
    ensures Safe(s.k, Caller(t), Action(t, s.threads[t], c))
  {
    PutAtLeastOne(s, t);
    assert LocalOk(s.k, s.threads[t]);
    SumAtLeast(PermitW, s.threads, t);
    if UrbOf(s.threads[t].pc).Some? {
      SkelKeeps.HeldUrb(s, t);
    }
    assert Inside(IoMutex, s.threads[t].pc) <==> s.k.ioMutex == Caller(t);
  }

  lemma DeleteSafe(s: State, t: nat, c: Choice)
    requires Inv(s) && CanStep(s, t, c) && DelPc(s.threads[t].pc)
    ensures Safe(s.k, Caller(t), Action(t, s.threads[t], c))
  {
    assert DeleteStage(s, s.threads[t].pc);
  }

  lemma DiscSafe(s: State)
    requires Inv(s) && CanDisc(s)
    ensures Safe(s.k, Disconnector, DiscAction(s.disc))
  {
    assert InsideD(SkelOpenLock, s.disc) <==> s.k.openLock == Disconnector;
    assert InsideD(IoMutex, s.disc) <==> s.k.ioMutex == Disconnector;
  }

  lemma CompletionSafe(s: State, u: nat)
    requires Inv(s) && CanComplete(s, u)
    ensures Safe(s.k, Nobody, CompletionAction(s.k.urbs[u], u))
  {
    assert UrbOk(s, u);
    if Pending(s.k.urbs[u]) {
      PendingIsLive(s, u);
    }
  }

  lemma StepSafe(s: State, t: nat, c: Choice)
    requires Inv(s) && CanStep(s, t, c)
    ensures Safe(s.k, Caller(t), Action(t, s.threads[t], c))
  {
    var pc := s.threads[t].pc;
    if OpenPc(pc) || RelPc(pc) {
      OpenSafe(s, t, c);
    } else if ReadPc(pc) {
      ReadSafe(s, t, c);
    } else if WritePc(pc) {
      WriteSafe(s, t, c);
    } else {
      DeleteSafe(s, t, c);
    }
  }

  lemma CallsSafe(s: State, l: Label)
    requires Enabled(s, l) && !l.Step? && !l.Disc? && !l.Complete?
    ensures Exists(s.k, OpOf(s, l)) && Safe(s.k, WhoOf(l), OpOf(s, l))
  {
  }

  /**
   No step of any interleaving uses the device structure, its buffer, a URB or a transfer buffer after it was freed,
   unlocks what it does not hold, frees twice or with another size. Nothing is asked about the usb_interface.
   */
  lemma EveryStepSafe(s: State, l: Label)
    requires Inv(s) && Enabled(s, l)
    ensures Exists(s.k, OpOf(s, l)) && Safe(s.k, WhoOf(l), OpOf(s, l))
  {
    match l
    case Step(t, c) => StepSafe(s, t, c);
    case Disc => DiscSafe(s);
    case Complete(u) => CompletionSafe(s, u);
    case _ => CallsSafe(s, l);
  }
}
