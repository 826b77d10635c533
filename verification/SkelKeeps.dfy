/**
 A call's step keeps every part of the invariant. For each part: what the step does to the call's own
 program counter and to the field concerned, then why any change of that shape keeps the part.
 */
module SkelKeeps {
  import opened Sums
  import opened SkelModel
  import opened SkelInvariant

  // ---------------------------------------------------------------- one call, one operation

  /** The counts move by exactly what the call gains or gives up. */
  lemma RefsMatch(k: Shared, t: nat, th: Thread, c: Choice)
    requires LocalOk(k, th) && Offers(th.pc, c)
    ensures var op, x := Action(t, th, c), Thread(th.call, Then(k, th, c));
            KrefAfter(k.kref, op) - k.kref == RefW(x) - RefW(th) + One(op.NewFile?)
  {
  }

  lemma PowerMatches(k: Shared, t: nat, th: Thread, c: Choice)
    requires LocalOk(k, th) && Offers(th.pc, c)
    ensures var op, x := Action(t, th, c), Thread(th.call, Then(k, th, c));
            PmAfter(k.pm, k.iface, op) - k.pm - One(op.PmPutIfBound? && !k.iface) == PmW(x) - PmW(th) + One(op.NewFile?)
  {
  }

  lemma PermitsMatch(k: Shared, t: nat, th: Thread, c: Choice)
    requires LocalOk(k, th) && Offers(th.pc, c)
    ensures var op, x := Action(t, th, c), Thread(th.call, Then(k, th, c));
            SemAfter(k.sem, op) - k.sem == PermitW(th) - PermitW(x) - One(op.Submit? && op.ok)
  {
  }

  lemma LocksMatch(k: Shared, t: nat, th: Thread, c: Choice, m: Mutex)
    requires Fits(th) && Offers(th.pc, c)
    ensures var op, pc' := Action(t, th, c), Then(k, th, c);
            && (op == MutexLock(m) ==> !Inside(m, th.pc) && Inside(m, pc'))
            && (op == MutexUnlock(m) ==> Inside(m, th.pc) && !Inside(m, pc'))
            && (op != MutexLock(m) && op != MutexUnlock(m) ==> Inside(m, th.pc) == Inside(m, pc'))
  {
  }

  lemma ActionExists(k: Shared, t: nat, th: Thread, c: Choice)
    requires LocalOk(k, th) && Offers(th.pc, c)
    ensures Exists(k, Action(t, th, c))
  {
  }

  lemma LocalMovesWrite(k: Shared, t: nat, th: Thread, c: Choice, k': Shared)
    requires WritePc(th.pc) && LocalOk(k, th) && Offers(th.pc, c) && CanDo(k, Action(t, th, c))
    requires k'.intfdata == k.intfdata && k'.iface == k.iface && |k'.inBuf| == |k.inBuf|
    requires |k'.urbs| == |k.urbs| + One(Action(t, th, c).AllocUrb? && Action(t, th, c).ok)
    ensures LocalOk(k', Thread(th.call, Then(k, th, c)))
  {
  }

  lemma LocalMovesOpen(k: Shared, t: nat, th: Thread, c: Choice, k': Shared)
    requires OpenPc(th.pc) && LocalOk(k, th) && Offers(th.pc, c) && CanDo(k, Action(t, th, c))
    requires k'.intfdata == k.intfdata && k'.iface == k.iface && |k'.inBuf| == |k.inBuf|
    requires |k'.urbs| == |k.urbs| + One(Action(t, th, c).AllocUrb? && Action(t, th, c).ok)
    ensures LocalOk(k', Thread(th.call, Then(k, th, c)))
  {
  }

  lemma LocalMovesOther(k: Shared, t: nat, th: Thread, c: Choice, k': Shared)
    requires !WritePc(th.pc) && !OpenPc(th.pc) && LocalOk(k, th) && Offers(th.pc, c) && CanDo(k, Action(t, th, c))
    requires k'.intfdata == k.intfdata && k'.iface == k.iface && |k'.inBuf| == |k.inBuf|
    requires |k'.urbs| == |k.urbs| + One(Action(t, th, c).AllocUrb? && Action(t, th, c).ok)
    ensures LocalOk(k', Thread(th.call, Then(k, th, c)))
  {
  }

  lemma LocalMoves(k: Shared, t: nat, th: Thread, c: Choice, k': Shared)
    requires LocalOk(k, th) && Offers(th.pc, c) && CanDo(k, Action(t, th, c))
    requires k'.intfdata == k.intfdata && k'.iface == k.iface && |k'.inBuf| == |k.inBuf|
    requires |k'.urbs| == |k.urbs| + One(Action(t, th, c).AllocUrb? && Action(t, th, c).ok)
    ensures LocalOk(k', Thread(th.call, Then(k, th, c)))
  {
    if WritePc(th.pc) {
      LocalMovesWrite(k, t, th, c, k');
    } else if OpenPc(th.pc) {
      LocalMovesOpen(k, t, th, c, k');
    } else {
      LocalMovesOther(k, t, th, c, k');
    }
  }

  /** A call touches neither what only disconnect or the core touches, nor another writer's URB. */
  lemma ActionKind(k: Shared, t: nat, th: Thread, c: Choice)
    requires Fits(th) && Offers(th.pc, c)
    ensures var op := Action(t, th, c);
            && !op.CloseFile? && !op.ClearData? && !op.FreeMinor? && !op.ClearIface?
            && !op.DisableEndpoints? && !op.Advance?
            && (Target(op).Some? ==> Target(op) == UrbOf(th.pc))
            && (op.AllocUrb? ==> UrbOf(th.pc).None? && op.t == t)
            && (op.BulkMsg? <==> th.pc.ReadXfer?)
            && (op.CopyToUser? <==> th.pc.ReadCopy?)
  {
  }

  lemma UrbMoves(k: Shared, t: nat, th: Thread, c: Choice, b: Urb, u: nat)
    requires LocalOk(k, th) && Offers(th.pc, c) && UrbOf(th.pc) == Some(u) && UrbFits(b, u, th, true)
    ensures var op, x := Action(t, th, c), Thread(th.call, Then(k, th, c));
            var b' := if Target(op).Some? then UrbAfter(b, op) else b;
            && b'.writer == b.writer
            && (UrbOf(x.pc) == Some(u) || UrbOf(x.pc).None?)
            && UrbFits(b', u, x, UrbOf(x.pc) == Some(u))
            && UrbW(b') == UrbW(b) + One(op.Submit? && op.ok)
  {
  }

  lemma UrbStarts(k: Shared, t: nat, th: Thread, c: Choice)
    requires LocalOk(k, th) && Offers(th.pc, c) && UrbOf(th.pc).None?
    ensures var op, x := Action(t, th, c), Thread(th.call, Then(k, th, c));
            if op.AllocUrb? && op.ok then
              UrbOf(x.pc) == Some(|k.urbs|) && UrbFits(NewUrb(t), |k.urbs|, x, true)
            else
              UrbOf(x.pc).None?
    ensures !Action(t, th, c).Submit?
  {
  }

  lemma DeleteMatch(k: Shared, t: nat, th: Thread, c: Choice)
    requires Fits(th) && Offers(th.pc, c)
    ensures var op, pc' := Action(t, th, c), Then(k, th, c);
            && (op.PutUdev? <==> th.pc.DelUdev?) && (th.pc.DelUdev? ==> pc'.DelBuf?)
            && (op.FreeInBuf? <==> th.pc.DelBuf?) && (th.pc.DelBuf? ==> pc'.DelDev?)
            && (op.FreeDev? <==> th.pc.DelDev?) && (th.pc.DelDev? ==> pc'.Done?)
            && (op.KrefPut? ==> RefW(th) == 1 && !DelPc(th.pc) && DelPc(pc') == (k.kref == 1))
            && (op.KrefPut? && k.kref == 1 ==> pc'.DelUdev?)
            && (op.KrefGet? ==> th.pc.OpenGet?)
            && (!op.KrefPut? && !DelPc(th.pc) ==> !DelPc(pc'))
  {
  }

  // ---------------------------------------------------------------- any step of such a shape

  /** Only call `t` moves. */
  ghost predicate Moves(s: State, s': State, t: nat) {
    && t < |s.threads|
    && |s'.threads| == |s.threads|
    && s'.threads == s.threads[t := s'.threads[t]]
    && s'.threads[t].call == s.threads[t].call
    && s'.disc == s.disc
  }

  lemma RefsMoved(s: State, s': State, t: nat, grew: bool)
    requires Moves(s, s', t) && RefsCounted(s)
    requires s'.k.files == (if grew then s.k.files + [true] else s.k.files)
    requires s'.k.kref - s.k.kref == RefW(s'.threads[t]) - RefW(s.threads[t]) + One(grew)
    ensures RefsCounted(s')
  {
    SumUpdate(RefW, s.threads, t, s'.threads[t]);
    SumAppend(FileW, s.k.files, true);
  }

  lemma PowerMoved(s: State, s': State, t: nat, grew: bool)
    requires Moves(s, s', t) && PowerCounted(s)
    requires s'.k.files == (if grew then s.k.files + [true] else s.k.files)
    requires s'.k.iface == s.k.iface && (s.k.iface ==> s'.k.skipped == s.k.skipped)
    requires s'.k.pm - s.k.pm - s'.k.skipped + s.k.skipped == PmW(s'.threads[t]) - PmW(s.threads[t]) + One(grew)
    ensures PowerCounted(s')
  {
    SumUpdate(PmW, s.threads, t, s'.threads[t]);
    SumAppend(FileW, s.k.files, true);
  }

  lemma LockMoved(s: State, s': State, t: nat, m: Mutex, op: Op)
    requires Moves(s, s', t) && LockOwned(s, m)
    requires OwnerOf(s'.k, m) == OwnerAfter(OwnerOf(s.k, m), m, Caller(t), op)
    requires op == MutexLock(m) ==> OwnerOf(s.k, m).Nobody? && Inside(m, s'.threads[t].pc)
    requires op == MutexUnlock(m) ==> Inside(m, s.threads[t].pc) && !Inside(m, s'.threads[t].pc)
    requires op != MutexLock(m) && op != MutexUnlock(m) ==> Inside(m, s.threads[t].pc) == Inside(m, s'.threads[t].pc)
    ensures LockOwned(s', m)
  {
  }

  lemma LocalsMoved(s: State, s': State, t: nat)
    requires Moves(s, s', t) && LocalsOk(s) && LocalOk(s'.k, s'.threads[t])
    requires s'.k.intfdata == s.k.intfdata && s'.k.iface == s.k.iface
    requires |s'.k.inBuf| == |s.k.inBuf| && |s'.k.urbs| >= |s.k.urbs|
    ensures LocalsOk(s')
  {
    forall j | 0 <= j < |s'.threads| ensures LocalOk(s'.k, s'.threads[j]) {
      assert LocalOk(s.k, s.threads[j]);
    }
  }

  lemma FilesMoved(s: State, s': State, t: nat)
    requires Moves(s, s', t) && FilesOk(s) && OnOpenFile(s', s'.threads[t])
    requires s.k.files <= s'.k.files
    ensures FilesOk(s')
  {
    forall j | 0 <= j < |s'.threads| ensures OnOpenFile(s', s'.threads[j]) {
      assert OnOpenFile(s, s.threads[j]);
    }
  }

  lemma PermitsMoved(s: State, s': State, t: nat, u: Option<nat>)
    requires Moves(s, s', t) && PermitsCounted(s) && 0 <= s'.k.sem
    requires match u
             case None =>
               && (s'.k.urbs == s.k.urbs || s'.k.urbs == s.k.urbs + [NewUrb(t)])
               && s'.k.sem + PermitW(s'.threads[t]) == s.k.sem + PermitW(s.threads[t])
             case Some(u) =>
               && u < |s.k.urbs| && |s'.k.urbs| == |s.k.urbs| && s'.k.urbs == s.k.urbs[u := s'.k.urbs[u]]
               && s'.k.sem + PermitW(s'.threads[t]) + UrbW(s'.k.urbs[u])
                  == s.k.sem + PermitW(s.threads[t]) + UrbW(s.k.urbs[u])
    ensures PermitsCounted(s')
  {
    SumUpdate(PermitW, s.threads, t, s'.threads[t]);
    if u.Some? {
      SumUpdate(UrbW, s.k.urbs, u.value, s'.k.urbs[u.value]);
    } else {
      SumAppend(UrbW, s.k.urbs, NewUrb(t));
    }
  }

  /** The URB a writer holds changes with the writer. */
  lemma UrbsMoved(s: State, s': State, t: nat, u: nat)
    requires Moves(s, s', t) && UrbsOk(s) && UrbOf(s.threads[t].pc) == Some(u)
    requires |s'.k.urbs| == |s.k.urbs| && s'.k.urbs == s.k.urbs[u := s'.k.urbs[u]]
    requires s'.k.urbs[u].writer == t
    requires UrbOf(s'.threads[t].pc) == Some(u) || UrbOf(s'.threads[t].pc).None?
    requires UrbFits(s'.k.urbs[u], u, s'.threads[t], UrbOf(s'.threads[t].pc) == Some(u))
    ensures UrbsOk(s')
  {
    forall v | 0 <= v < |s'.k.urbs| ensures UrbOk(s', v) {
      assert UrbOk(s, v);
    }
  }

  lemma UrbsGrown(s: State, s': State, t: nat)
    requires Moves(s, s', t) && UrbsOk(s) && UrbOf(s.threads[t].pc).None?
    requires if UrbOf(s'.threads[t].pc).None? then s'.k.urbs == s.k.urbs
             else && UrbOf(s'.threads[t].pc) == Some(|s.k.urbs|) && s'.k.urbs == s.k.urbs + [NewUrb(t)]
                  && UrbFits(NewUrb(t), |s.k.urbs|, s'.threads[t], true)
    ensures UrbsOk(s')
  {
    forall v | 0 <= v < |s'.k.urbs| ensures UrbOk(s', v) {
      if v < |s.k.urbs| {
        assert UrbOk(s, v);
      }
    }
  }

  // ---------------------------------------------------------------- deletion

  /** While references remain nobody is deleting, and a deleter is alone. */
  lemma NoDeleter(s: State, j: nat)
    requires DeletedOnce(s) && s.k.kref > 0 && j < |s.threads|
    ensures !DelPc(s.threads[j].pc)
  {
    SumAtLeast(DelW, s.threads, j);
  }

  lemma OnlyDeleter(s: State, t: nat, j: nat)
    requires DeletedOnce(s) && t < |s.threads| && j < |s.threads| && t != j && DelPc(s.threads[t].pc)
    ensures !DelPc(s.threads[j].pc) && DelD(s.disc) == 0 && s.k.devFrees == 0 && s.k.kref == 0
  {
    SumAtLeastTwo(DelW, s.threads, if t < j then t else j, if t < j then j else t);
  }

  lemma DeletesAlone(s: State, t: nat)
    requires DeletedOnce(s) && t < |s.threads| && DelPc(s.threads[t].pc)
    ensures DelD(s.disc) == 0 && s.k.devFrees == 0 && s.k.kref == 0
  {
    SumAtLeast(DelW, s.threads, t);
  }

  lemma NoDeleterMoved(s: State, s': State, t: nat)
    requires Moves(s, s', t) && DeletedOnce(s)
    requires s'.k.udev == s.k.udev && s'.k.inBufFrees == s.k.inBufFrees && s'.k.devFrees == s.k.devFrees
    requires !DelPc(s.threads[t].pc) && !DelPc(s'.threads[t].pc)
    requires s'.k.kref == s.k.kref || (s.k.kref > 0 && s'.k.kref > 0)
    ensures DeletedOnce(s')
  {
    SumUpdate(DelW, s.threads, t, s'.threads[t]);
    forall j | 0 <= j < |s'.threads| ensures DeleteStage(s', s'.threads[j].pc) {
      assert DeleteStage(s, s.threads[j].pc);
    }
  }

  lemma LastPutMoved(s: State, s': State, t: nat)
    requires Moves(s, s', t) && DeletedOnce(s)
    requires s'.k.udev == s.k.udev && s'.k.inBufFrees == s.k.inBufFrees && s'.k.devFrees == s.k.devFrees
    requires s.k.kref == 1 && s'.k.kref == 0 && !DelPc(s.threads[t].pc) && s'.threads[t].pc.DelUdev?
    ensures DeletedOnce(s')
  {
    SumUpdate(DelW, s.threads, t, s'.threads[t]);
    forall j | 0 <= j < |s'.threads| ensures DeleteStage(s', s'.threads[j].pc) {
      NoDeleter(s, j);
    }
  }

  lemma DeleteMoved(s: State, s': State, t: nat)
    requires Moves(s, s', t) && DeletedOnce(s) && DelPc(s.threads[t].pc)
    requires s'.k.kref == s.k.kref
    requires match s.threads[t].pc
             case DelUdev(_) => s'.threads[t].pc.DelBuf? && UdevGone(s')
             case DelBuf(_) => s'.threads[t].pc.DelDev? && BufGone(s')
             case DelDev(_) => s'.threads[t].pc.Done? && Deleted(s')
             case _ => true
    ensures DeletedOnce(s')
  {
    SumUpdate(DelW, s.threads, t, s'.threads[t]);
    DeletesAlone(s, t);
    forall j | 0 <= j < |s'.threads| ensures DeleteStage(s', s'.threads[j].pc) {
      if j != t {
        OnlyDeleter(s, t, j);
      }
    }
  }

  /** A call about to put a reference, or to take one from published interface data, finds the count positive. */
  lemma RefsHeld(s: State, t: nat)
    requires RefsCounted(s) && Published(s) && t < |s.threads| && LocalOk(s.k, s.threads[t])
    ensures RefW(s.threads[t]) == 1 || s.threads[t].pc.OpenGet? ==> s.k.kref > 0
  {
    SumAtLeast(RefW, s.threads, t);
  }

  // ---------------------------------------------------------------- the shared read buffer

  lemma ReadsIdle(s: State, s': State, t: nat)
    requires Moves(s, s', t) && ReadsOk(s) && LockOwned(s, IoMutex) && LockOwned(s', IoMutex)
    requires !s.threads[t].pc.ReadCopy? && !s'.threads[t].pc.ReadCopy?
    requires s'.k.inBuf == s.k.inBuf && s'.k.xfers == s.k.xfers && s'.k.log == s.k.log
    requires s'.k.ioMutex == s.k.ioMutex || s.k.ioMutex == Nobody || s'.k.ioMutex == Nobody
    requires s'.k.ioMutex != s.k.ioMutex ==> s.k.ioMutex == Caller(t) || s'.k.ioMutex == Caller(t)
    ensures ReadsOk(s')
  {
    forall i | 0 <= i < |s'.k.xfers| ensures XferOk(s', s'.k.xfers[i]) {
      assert XferOk(s, s.k.xfers[i]);
    }
  }

  /** A transfer is recorded; a successful one is now in the front of the buffer, waiting for the copy. */
  lemma ReadsTransfer(s: State, s': State, t: nat, op: Op)
    requires Moves(s, s', t) && ReadsOk(s) && LockOwned(s, IoMutex) && s'.k.ioMutex == s.k.ioMutex
    requires s.threads[t].pc.ReadXfer? && s.threads[t].call.Read?
    requires op.BulkMsg? && op.t == t && op.count == s.threads[t].call.count && |op.bytes| <= Min(|s.k.inBuf|, op.count)
    requires s'.k.inBuf == Received(s.k.inBuf, op.bytes) && s'.k.xfers == XfersAfter(s.k.xfers, op)
    requires s'.k.log == LogAfter(s.k.log, s.k.inBuf, op)
    requires if op.status == 0 then s'.threads[t].pc == ReadCopy(|op.bytes|) else s'.threads[t].pc.ReadUnlock?
    ensures ReadsOk(s')
  {
    assert s.k.ioMutex == Caller(t);
    assert s'.k.inBuf[..|op.bytes|] == op.bytes;
    forall i | 0 <= i < |s'.k.xfers| ensures XferOk(s', s'.k.xfers[i]) {
      if i < |s.k.xfers| {
        assert XferOk(s, s.k.xfers[i]);
      }
    }
  }

  /** The copy hands out, or drops, exactly the bytes of the caller's own transfer. */
  lemma ReadsCopy(s: State, s': State, t: nat, op: Op)
    requires Moves(s, s', t) && ReadsOk(s) && LockOwned(s, IoMutex) && s'.k.ioMutex == s.k.ioMutex
    requires s.threads[t].pc.ReadCopy? && s'.threads[t].pc.ReadUnlock?
    requires op.CopyToUser? && op.t == t && op.n == s.threads[t].pc.n <= |s.k.inBuf|
    requires s'.k.inBuf == s.k.inBuf && s'.k.xfers == s.k.xfers && s'.k.log == LogAfter(s.k.log, s.k.inBuf, op)
    ensures ReadsOk(s')
  {
    assert s.k.ioMutex == Caller(t);
    forall i | 0 <= i < |s'.k.xfers| ensures XferOk(s', s'.k.xfers[i]) {
      assert XferOk(s, s.k.xfers[i]);
    }
  }

  // ---------------------------------------------------------------- together

  /** The part of the invariant a call's own step needs about the URB it holds. */
  lemma HeldUrb(s: State, t: nat)
    requires UrbsOk(s) && t < |s.threads| && UrbOf(s.threads[t].pc).Some?
    ensures var u := UrbOf(s.threads[t].pc).value;
            u < |s.k.urbs| && s.k.urbs[u].writer == t && UrbFits(s.k.urbs[u], u, s.threads[t], true)
  {
    assert UrbOk(s, UrbOf(s.threads[t].pc).value);
  }

  lemma StepCounts(s: State, t: nat, c: Choice)
    requires Inv(s) && CanStep(s, t, c)
    ensures RefsCounted(StepNext(s, t, c)) && PowerCounted(StepNext(s, t, c))
  {
    var th, op := s.threads[t], Action(t, s.threads[t], c);
    RefsMatch(s.k, t, th, c);
    PowerMatches(s.k, t, th, c);
    ActionKind(s.k, t, th, c);
    RefsMoved(s, StepNext(s, t, c), t, op.NewFile?);
    PowerMoved(s, StepNext(s, t, c), t, op.NewFile?);
  }

  lemma StepLocks(s: State, t: nat, c: Choice)
    requires Inv(s) && CanStep(s, t, c)
    ensures LocksOwned(StepNext(s, t, c)) && Published(StepNext(s, t, c))
  {
    var th, op := s.threads[t], Action(t, s.threads[t], c);
    ActionKind(s.k, t, th, c);
    LocksMatch(s.k, t, th, c, SkelOpenLock);
    LocksMatch(s.k, t, th, c, IoMutex);
    LockMoved(s, StepNext(s, t, c), t, SkelOpenLock, op);
    LockMoved(s, StepNext(s, t, c), t, IoMutex, op);
  }

  lemma StepLocals(s: State, t: nat, c: Choice)
    requires Inv(s) && CanStep(s, t, c)
    ensures LocalsOk(StepNext(s, t, c)) && FilesOk(StepNext(s, t, c))
  {
    var th, s' := s.threads[t], StepNext(s, t, c);
    ActionKind(s.k, t, th, c);
    LocalMoves(s.k, t, th, c, s'.k);
    LocalsMoved(s, s', t);
    DeleteMatch(s.k, t, th, c);
    assert OnOpenFile(s, th);
    FilesMoved(s, s', t);
  }

  lemma StepNoUrb(s: State, t: nat, c: Choice)
    requires Inv(s) && CanStep(s, t, c) && UrbOf(s.threads[t].pc).None?
    ensures UrbsOk(StepNext(s, t, c)) && PermitsCounted(StepNext(s, t, c)) && Drained(StepNext(s, t, c))
  {
    var th, s' := s.threads[t], StepNext(s, t, c);
    ActionKind(s.k, t, th, c);
    PermitsMatch(s.k, t, th, c);
    UrbStarts(s.k, t, th, c);
    UrbsGrown(s, s', t);
    PermitsMoved(s, s', t, None);
  }

  lemma StepUrb(s: State, t: nat, c: Choice, u: nat)
    requires Inv(s) && CanStep(s, t, c) && UrbOf(s.threads[t].pc) == Some(u)
    ensures UrbsOk(StepNext(s, t, c)) && PermitsCounted(StepNext(s, t, c)) && Drained(StepNext(s, t, c))
  {
    var th, s' := s.threads[t], StepNext(s, t, c);
    ActionKind(s.k, t, th, c);
    PermitsMatch(s.k, t, th, c);
    HeldUrb(s, t);
    UrbMoves(s.k, t, th, c, s.k.urbs[u], u);
    UrbsMoved(s, s', t, u);
    PermitsMoved(s, s', t, Some(u));
  }

  lemma StepDeletes(s: State, t: nat, c: Choice)
    requires Inv(s) && CanStep(s, t, c)
    ensures DeletedOnce(StepNext(s, t, c))
  {
    var th, s' := s.threads[t], StepNext(s, t, c);
    DeleteMatch(s.k, t, th, c);
    RefsHeld(s, t);
    if DelPc(th.pc) {
      assert DeleteStage(s, th.pc);
      DeleteMoved(s, s', t);
    } else if DelPc(s'.threads[t].pc) {
      LastPutMoved(s, s', t);
    } else {
      NoDeleterMoved(s, s', t);
    }
  }

  lemma StepReads(s: State, t: nat, c: Choice)
    requires Inv(s) && CanStep(s, t, c) && (s.threads[t].pc.ReadXfer? || s.threads[t].pc.ReadCopy?)
    ensures ReadsOk(StepNext(s, t, c))
  {
    var th, op, s' := s.threads[t], Action(t, s.threads[t], c), StepNext(s, t, c);
    if th.pc.ReadXfer? {
      ReadsTransfer(s, s', t, op);
    } else {
      ReadsCopy(s, s', t, op);
    }
  }

  lemma StepNoRead(s: State, t: nat, c: Choice)
    requires Inv(s) && CanStep(s, t, c) && !s.threads[t].pc.ReadXfer? && !s.threads[t].pc.ReadCopy?
    requires LocksOwned(StepNext(s, t, c))
    ensures ReadsOk(StepNext(s, t, c))
  {
    ActionKind(s.k, t, s.threads[t], c);
    LocksMatch(s.k, t, s.threads[t], c, IoMutex);
    ReadsIdle(s, StepNext(s, t, c), t);
  }

  lemma StepKeeps(s: State, t: nat, c: Choice)
    requires Inv(s) && CanStep(s, t, c)
    ensures Inv(StepNext(s, t, c))
  {
    StepCounts(s, t, c);
    StepLocks(s, t, c);
    StepLocals(s, t, c);
    match UrbOf(s.threads[t].pc) {
      case None => StepNoUrb(s, t, c);
      case Some(u) => StepUrb(s, t, c, u);
    }
    StepDeletes(s, t, c);
    if s.threads[t].pc.ReadXfer? || s.threads[t].pc.ReadCopy? {
      StepReads(s, t, c);
    } else {
      StepNoRead(s, t, c);
    }
  }

  // ---------------------------------------------------------------- disconnect

  lemma DiscLock(s: State, m: Mutex)
    requires LockOwned(s, m) && CanDisc(s)
    ensures LockOwned(DiscNext(s), m)
  {
  }

  lemma DiscPublished(s: State)
    requires Published(s) && CanDisc(s)
    ensures Published(DiscNext(s))
  {
  }

  lemma DiscLocals(s: State)
    requires Inv(s) && CanDisc(s)
    ensures LocalsOk(DiscNext(s)) && FilesOk(DiscNext(s))
  {
    var s' := DiscNext(s);
    forall t | 0 <= t < |s'.threads| ensures LocalOk(s'.k, s'.threads[t]) && OnOpenFile(s', s'.threads[t]) {
      assert LocalOk(s.k, s.threads[t]) && OnOpenFile(s, s.threads[t]);
    }
  }

  lemma DiscUrbs(s: State)
    requires UrbsOk(s) && PermitsCounted(s) && Drained(s) && CanDisc(s)
    ensures UrbsOk(DiscNext(s)) && PermitsCounted(DiscNext(s)) && Drained(DiscNext(s))
  {
    var s' := DiscNext(s);
    assert s'.k.urbs == s.k.urbs && s'.k.sem == s.k.sem;
    forall u | 0 <= u < |s'.k.urbs| ensures UrbOk(s', u) {
      assert UrbOk(s, u);
    }
  }

  lemma DiscRefs(s: State)
    requires RefsCounted(s) && CanDisc(s)
    ensures RefsCounted(DiscNext(s))
  {
  }

  lemma DiscPower(s: State)
    requires PowerCounted(s) && CanDisc(s)
    ensures PowerCounted(DiscNext(s))
  {
  }

  lemma DiscDeletes(s: State)
    requires RefsCounted(s) && DeletedOnce(s) && CanDisc(s)
    ensures DeletedOnce(DiscNext(s))
  {
    var s' := DiscNext(s);
    forall t | 0 <= t < |s'.threads| ensures DeleteStage(s', s'.threads[t].pc) {
      assert DeleteStage(s, s.threads[t].pc);
      SumAtLeast(DelW, s.threads, t);
    }
  }

  lemma DiscReads(s: State)
    requires ReadsOk(s) && LockOwned(s, IoMutex) && CanDisc(s)
    ensures ReadsOk(DiscNext(s))
  {
    var s' := DiscNext(s);
    forall i | 0 <= i < |s'.k.xfers| ensures XferOk(s', s'.k.xfers[i]) {
      assert XferOk(s, s.k.xfers[i]);
    }
  }

  lemma DiscKeeps(s: State)
    requires Inv(s) && CanDisc(s)
    ensures Inv(DiscNext(s))
  {
    DiscLock(s, SkelOpenLock);
    DiscLock(s, IoMutex);
    DiscPublished(s);
    DiscLocals(s);
    DiscUrbs(s);
    DiscRefs(s);
    DiscPower(s);
    DiscDeletes(s);
    DiscReads(s);
  }

  // ---------------------------------------------------------------- completions

  /** A completion changes one URB, and the semaphore when it ups. */
  function Completed(b: Urb): Urb {
    match b.phase
    case InFlight => BufferFreed(b, b.length).(phase := BufferGone)
    case BufferGone => b.(phase := Upped)
    case Upped => UrbDropped(b).(phase := Retired)
    case _ => b
  }

  lemma CompleteShape(s: State, u: nat)
    requires CanComplete(s, u)
    ensures var b := s.k.urbs[u];
            CompleteNext(s, u).k == s.k.(urbs := s.k.urbs[u := Completed(b)], sem := s.k.sem + One(b.phase.BufferGone?))
  {
  }

  lemma CompletedFits(b: Urb, u: nat, th: Thread, held: bool)
    requires UrbFits(b, u, th, held) && CoreHolds(b)
    ensures UrbFits(Completed(b), u, th, held) && Completed(b).writer == b.writer
    ensures UrbW(b) == UrbW(Completed(b)) + One(b.phase.BufferGone?)
  {
  }

  lemma CompletedKeeps(s: State, s': State, u: nat)
    requires Inv(s) && CanComplete(s, u)
    requires var b := s.k.urbs[u];
             s' == s.(k := s.k.(urbs := s.k.urbs[u := Completed(b)], sem := s.k.sem + One(b.phase.BufferGone?)))
    ensures UrbsOk(s') && PermitsCounted(s') && Drained(s')
  {
    assert UrbOk(s, u);
    CompletedFits(s.k.urbs[u], u, s.threads[s.k.urbs[u].writer], Held(s, u));
    SumUpdate(UrbW, s.k.urbs, u, s'.k.urbs[u]);
    forall v | 0 <= v < |s'.k.urbs| ensures UrbOk(s', v) {
      assert UrbOk(s, v);
    }
  }

  lemma CompletedKeepsOthers(s: State, s': State, urbs: seq<Urb>, sem: int)
    requires Inv(s) && s' == s.(k := s.k.(urbs := urbs, sem := sem)) && |urbs| == |s.k.urbs|
    ensures RefsCounted(s') && PowerCounted(s') && LocksOwned(s') && Published(s') && LocalsOk(s') && FilesOk(s')
    ensures DeletedOnce(s') && ReadsOk(s')
  {
    forall t | 0 <= t < |s'.threads| ensures LocalOk(s'.k, s'.threads[t]) && OnOpenFile(s', s'.threads[t]) {
      assert LocalOk(s.k, s.threads[t]) && OnOpenFile(s, s.threads[t]);
    }
  }

  lemma CompleteKeeps(s: State, u: nat)
    requires Inv(s) && CanComplete(s, u)
    ensures Inv(CompleteNext(s, u))
  {
    var s' := CompleteNext(s, u);
    CompleteShape(s, u);
    CompletedKeeps(s, s', u);
    CompletedKeepsOthers(s, s', s'.k.urbs, s'.k.sem);
  }

  // ---------------------------------------------------------------- new calls and the unplugging

  /** A call begins; a release takes over the reference of the file it closes. */
  ghost predicate Enters(s: State, s': State, x: Thread) {
    && s'.threads == s.threads + [x] && s'.disc == s.disc
    && s'.k == s.k.(files := s'.k.files)
    && Fits(x) && (x.pc.OpenLock? || x.pc.RelLock? || x.pc.ReadLock? || x.pc.WrSize?)
    && (if x.call.Release? then
          x.call.file < |s.k.files| && s.k.files[x.call.file] && s'.k.files == s.k.files[x.call.file := false]
          && forall t :: 0 <= t < |s.threads| ==> !Operating(s.threads[t], x.call.file)
        else
          s'.k.files == s.k.files && (x.call.Open? || (x.call.file < |s.k.files| && s.k.files[x.call.file])))
  }

  lemma EnterCounts(s: State, s': State, x: Thread)
    requires RefsCounted(s) && PermitsCounted(s) && PowerCounted(s) && Enters(s, s', x)
    ensures RefsCounted(s') && PermitsCounted(s') && PowerCounted(s')
  {
    SumAppend(RefW, s.threads, x);
    SumAppend(PermitW, s.threads, x);
    SumAppend(PmW, s.threads, x);
    if x.call.Release? {
      SumUpdate(FileW, s.k.files, x.call.file, false);
    }
  }

  lemma EnterLocals(s: State, s': State, x: Thread)
    requires LocksOwned(s) && LocalsOk(s) && FilesOk(s) && Enters(s, s', x)
    ensures LocksOwned(s') && LocalsOk(s') && FilesOk(s')
  {
    forall t | 0 <= t < |s'.threads| ensures LocalOk(s'.k, s'.threads[t]) && OnOpenFile(s', s'.threads[t]) {
      if t < |s.threads| {
        assert LocalOk(s.k, s.threads[t]) && OnOpenFile(s, s.threads[t]);
      }
    }
  }

  lemma EnterUrbs(s: State, s': State, x: Thread)
    requires UrbsOk(s) && Drained(s) && Enters(s, s', x)
    ensures UrbsOk(s') && Drained(s')
  {
    forall v | 0 <= v < |s'.k.urbs| ensures UrbOk(s', v) {
      assert UrbOk(s, v);
    }
  }

  lemma EnterDeletes(s: State, s': State, x: Thread)
    requires DeletedOnce(s) && ReadsOk(s) && LocksOwned(s) && Enters(s, s', x)
    ensures DeletedOnce(s') && ReadsOk(s')
  {
    SumAppend(DelW, s.threads, x);
    forall t | 0 <= t < |s'.threads| ensures DeleteStage(s', s'.threads[t].pc) {
      if t < |s.threads| {
        assert DeleteStage(s, s.threads[t].pc);
      }
    }
    forall i | 0 <= i < |s'.k.xfers| ensures XferOk(s', s'.k.xfers[i]) {
      assert XferOk(s, s.k.xfers[i]);
    }
  }

  lemma EnterKeeps(s: State, s': State, x: Thread)
    requires Inv(s) && Enters(s, s', x)
    ensures Inv(s')
  {
    EnterCounts(s, s', x);
    EnterLocals(s, s', x);
    EnterUrbs(s, s', x);
    EnterDeletes(s, s', x);
  }

  lemma ReleaseEnters(s: State, f: nat)
    requires Enabled(s, CallRelease(f))
    ensures Enters(s, Next(s, CallRelease(f)), Thread(Release(f), RelLock))
  {
  }

  lemma OtherEnters(s: State, l: Label)
    requires Enabled(s, l) && (l.CallOpen? || l.CallRead? || l.CallWrite?)
    ensures var s' := Next(s, l); |s'.threads| == |s.threads| + 1 && Enters(s, s', s'.threads[|s.threads|])
  {
  }

  lemma CallKeeps(s: State, l: Label)
    requires Inv(s) && Enabled(s, l) && (l.CallOpen? || l.CallRead? || l.CallWrite? || l.CallRelease?)
    ensures Inv(Next(s, l))
  {
    if l.CallRelease? {
      ReleaseEnters(s, l.file);
      EnterKeeps(s, Next(s, l), Thread(Release(l.file), RelLock));
    } else {
      OtherEnters(s, l);
      EnterKeeps(s, Next(s, l), Next(s, l).threads[|s.threads|]);
    }
  }

  lemma UnplugLocals(s: State, s': State)
    requires LocalsOk(s) && FilesOk(s) && UrbsOk(s) && s' == s.(disc := Flush, k := s.k.(disabled := true))
    ensures LocalsOk(s') && FilesOk(s') && UrbsOk(s')
  {
    forall t | 0 <= t < |s'.threads| ensures LocalOk(s'.k, s'.threads[t]) && OnOpenFile(s', s'.threads[t]) {
      assert LocalOk(s.k, s.threads[t]) && OnOpenFile(s, s.threads[t]);
    }
    forall v | 0 <= v < |s'.k.urbs| ensures UrbOk(s', v) {
      assert UrbOk(s, v);
    }
  }

  lemma UnplugOthers(s: State, s': State)
    requires Published(s) && LocksOwned(s) && DeletedOnce(s) && ReadsOk(s) && s.disc.NotCalled?
    requires s' == s.(disc := Flush, k := s.k.(disabled := true))
    ensures Published(s') && LocksOwned(s') && DeletedOnce(s') && ReadsOk(s')
  {
    forall i | 0 <= i < |s'.k.xfers| ensures XferOk(s', s'.k.xfers[i]) {
      assert XferOk(s, s.k.xfers[i]);
    }
    forall t | 0 <= t < |s'.threads| ensures DeleteStage(s', s'.threads[t].pc) {
      assert DeleteStage(s, s.threads[t].pc);
    }
  }

  lemma UnplugKeeps(s: State, s': State)
    requires Inv(s) && s.disc.NotCalled? && s' == s.(disc := Flush, k := s.k.(disabled := true))
    ensures Inv(s')
  {
    UnplugLocals(s, s');
    UnplugOthers(s, s');
  }

  lemma UnplugShape(s: State)
    requires Enabled(s, Unplug)
    ensures Next(s, Unplug) == s.(disc := Flush, k := s.k.(disabled := true))
  {
  }

  // ---------------------------------------------------------------- every step

  /** Whatever step the calls, the core or the device take, in whatever order, the invariant survives it. */
  lemma NextKeeps(s: State, l: Label)
    requires Inv(s) && Enabled(s, l)
    ensures Inv(Next(s, l))
  {
    match l
    case Step(t, c) => StepKeeps(s, t, c);
    case Complete(u) => CompleteKeeps(s, u);
    case Disc => DiscKeeps(s);
    case Unplug =>
      UnplugShape(s);
      UnplugKeeps(s, Next(s, l));
    case _ => CallKeeps(s, l);
  }
}
