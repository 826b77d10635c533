/**
 The driver in its own, imperative form. The first group of methods are the kernel's operations, with what
 they ask of the driver as preconditions; the second group are the driver's functions, one step at a time.
 Every step is possible in a valid state, keeps it valid, and does what the step system says.
 */
module SkelDriver {
  import opened Bytes
  import opened SkelModel
  import opened SkelInvariant
  import opened SkelResults
  import SkelKeeps
  import SkelSafety
  import Sums

  /** What a step hands to user space: the front of bulk_in_buffer, when a read copies it out. */
  function Handed(s: State, l: Label): seq<byte> {
    if l.Step? && l.t < |s.threads| && s.threads[l.t].pc.ReadCopy? && l.choice.Go? then
      s.k.inBuf[..Min(s.threads[l.t].pc.n, |s.k.inBuf|)]
    else
      []
  }

  /** The bytes the readers have been given, in order. */
  function Delivered(log: seq<Delivery>): seq<byte> {
    if log == [] then []
    else Delivered(log[..|log| - 1]) + (if log[|log| - 1].ok then log[|log| - 1].bytes else [])
  }

  lemma OneMore(log: seq<Delivery>, d: Delivery)
    ensures Delivered(log + [d]) == Delivered(log) + (if d.ok then d.bytes else [])
  {
    assert (log + [d])[..|log|] == log;
  }

  lemma StepHandsOver(s: State, t: nat, c: Choice)
    requires CanStep(s, t, c)
    ensures Delivered(StepNext(s, t, c).k.log) == Delivered(s.k.log) + Handed(s, Step(t, c))
  {
    var op := Action(t, s.threads[t], c);
    SkelKeeps.ActionKind(s.k, t, s.threads[t], c);
    assert StepNext(s, t, c).k.log == LogAfter(s.k.log, s.k.inBuf, op);
    if op.BulkMsg? {
      OneMore(s.k.log, Delivery(op.t, op.bytes, false));
    } else if op.CopyToUser? {
      OneMore(s.k.log, Delivery(op.t, s.k.inBuf[..op.n], op.ok));
    }
  }

  lemma OthersHandNothing(s: State, l: Label)
    requires Enabled(s, l) && !l.Step?
    ensures Next(s, l).k.log == s.k.log
  {
    match l
    case Complete(u) => SkelKeeps.CompleteShape(s, u);
    case Disc => assert !DiscAction(s.disc).BulkMsg? && !DiscAction(s.disc).CopyToUser?;
    case _ =>
  }

  lemma HandsOver(s: State, l: Label)
    requires Enabled(s, l)
    ensures Delivered(Next(s, l).k.log) == Delivered(s.k.log) + Handed(s, l)
  {
    if l.Step? {
      StepHandsOver(s, l.t, l.choice);
    } else {
      OthersHandNothing(s, l);
    }
  }

  /** The bytes are the last transfer made, and that was call `t`'s own. */
  predicate OwnTransfer(xfers: seq<Xfer>, t: nat, bytes: seq<byte>) {
    xfers != [] && xfers[|xfers| - 1].t == t && xfers[|xfers| - 1].bytes == bytes
  }

  lemma HandsOwn(s: State, l: Label)
    requires Inv(s) && Enabled(s, l)
    ensures Handed(s, l) != [] ==> l.Step? && OwnTransfer(s.k.xfers, l.t, Handed(s, l))
  {
    assert LockOwned(s, IoMutex) && ReadsOk(s);
  }

  class Driver {
    // the calls, the core's disconnect, and the files and URBs that exist
    var threads: seq<Thread>
    var disc: DiscPc
    var files: seq<bool>
    var urbs: seq<Urb>
    // struct usb_skel
    var udev: int
    var iface: bool
    var limitSem: int
    const bulkInBuffer: array<byte>
    var kref: int
    var ioMutex: Owner
    // outside it
    var skelOpenLock: Owner
    var intfdata: bool
    var minor: bool
    var disabled: bool
    var pm: int
    var bulkInBufferFrees: nat
    var devFrees: nat
    // history
    ghost var skipped: nat
    ghost var xfers: seq<Xfer>
    ghost var log: seq<Delivery>

    ghost function K(): Shared
      reads this, bulkInBuffer
    {
      Shared(files, urbs, skelOpenLock, ioMutex, kref, limitSem, intfdata, minor, iface, disabled, pm, skipped,
             udev, bulkInBuffer[..], bulkInBufferFrees, devFrees, xfers, log)
    }

    ghost function View(): State
      reads this, bulkInBuffer
    {
      State(threads, disc, K())
    }

    ghost predicate Valid()
      reads this, bulkInBuffer
    {
      Inv(View()) && Results(View())
    }

    /** After a successful probe. */
    constructor (buffer: array<byte>)
      ensures Valid() && View() == Init(buffer[..]) && bulkInBuffer == buffer
    {
      threads, disc, files, urbs := [], NotCalled, [], [];
      udev, iface, limitSem, kref, ioMutex := 1, true, WRITES_IN_FLIGHT, 1, Nobody;
      bulkInBuffer := buffer;
      skelOpenLock, intfdata, minor, disabled, pm, bulkInBufferFrees, devFrees := Nobody, true, true, false, 0, 0, 0;
      skipped, xfers, log := 0, [], [];
      new;
      InitInv(buffer[..]);
    }

    // ---------------------------------------------------------------- operations

    method MutexLock(m: Mutex, who: Owner)
      requires OwnerOf(K(), m).Nobody? && Safe(K(), who, SkelModel.MutexLock(m))
      modifies this`skelOpenLock, this`ioMutex
      ensures K() == Apply(old(K()), who, SkelModel.MutexLock(m))
    {
      match m
      case IoMutex => ioMutex := who;
      case SkelOpenLock => skelOpenLock := who;
    }

    method MutexUnlock(m: Mutex, who: Owner)
      requires Safe(K(), who, SkelModel.MutexUnlock(m))
      modifies this`skelOpenLock, this`ioMutex
      ensures K() == Apply(old(K()), who, SkelModel.MutexUnlock(m))
    {
      match m
      case IoMutex => ioMutex := Nobody;
      case SkelOpenLock => skelOpenLock := Nobody;
    }

    method KrefGet(ghost who: Owner)
      requires Safe(K(), who, SkelModel.KrefGet)
      modifies this`kref
      ensures K() == Apply(old(K()), who, SkelModel.KrefGet)
    {
      kref := kref + 1;
    }

    method KrefPut(ghost who: Owner) returns (last: bool)
      requires Safe(K(), who, SkelModel.KrefPut)
      modifies this`kref
      ensures K() == Apply(old(K()), who, SkelModel.KrefPut)
      ensures last <==> old(kref) == 1
    {
      kref := kref - 1;
      last := kref == 0;
    }

    method AutopmGet(ok: bool, ghost who: Owner)
      modifies this`pm
      ensures K() == Apply(old(K()), who, PmGet(ok))
    {
      if ok {
        pm := pm + 1;
      }
    }

    /** The guarded call at the heart of skel_release. */
    method AutopmPutIfBound(ghost who: Owner)
      requires Safe(K(), who, PmPutIfBound)
      modifies this`pm, this`skipped
      ensures K() == Apply(old(K()), who, PmPutIfBound)
    {
      if iface {
        pm := pm - 1;
      } else {
        skipped := skipped + 1;
      }
    }

    /** usb_bulk_msg: the device's bytes land in the front of bulk_in_buffer, whatever the status. */
    method BulkMsg(t: nat, count: nat, bytes: seq<byte>, status: int, ghost who: Owner)
      requires CanDo(K(), SkelModel.BulkMsg(t, count, bytes, status))
      requires Safe(K(), who, SkelModel.BulkMsg(t, count, bytes, status))
      modifies bulkInBuffer, this`xfers, this`log
      ensures K() == Apply(old(K()), who, SkelModel.BulkMsg(t, count, bytes, status))
    {
      forall i | 0 <= i < |bytes| {
        bulkInBuffer[i] := bytes[i];
      }
      xfers := xfers + [Xfer(t, count, bytes)];
      if status != 0 {
        log := log + [Delivery(t, bytes, false)];
      }
      assert bulkInBuffer[..] == Received(old(bulkInBuffer[..]), bytes);
    }

    method CopyToUser(t: nat, n: nat, ok: bool, ghost who: Owner) returns (user: seq<byte>)
      requires n <= bulkInBuffer.Length && Safe(K(), who, SkelModel.CopyToUser(t, n, ok))
      modifies this`log
      ensures K() == Apply(old(K()), who, SkelModel.CopyToUser(t, n, ok))
      ensures user == if ok then old(bulkInBuffer[..n]) else []
    {
      user := if ok then bulkInBuffer[..n] else [];
      log := log + [Delivery(t, bulkInBuffer[..n], ok)];
    }

    method DownInterruptible(ok: bool, ghost who: Owner)
      requires (ok ==> limitSem > 0) && Safe(K(), who, Down(ok))
      modifies this`limitSem
      ensures K() == Apply(old(K()), who, Down(ok))
    {
      if ok {
        limitSem := limitSem - 1;
      }
    }

    method Up(ghost who: Owner)
      requires Safe(K(), who, SkelModel.Up)
      modifies this`limitSem
      ensures K() == Apply(old(K()), who, SkelModel.Up)
    {
      limitSem := limitSem + 1;
    }

    method AllocUrb(t: nat, ok: bool, ghost who: Owner)
      modifies this`urbs
      ensures K() == Apply(old(K()), who, SkelModel.AllocUrb(t, ok))
    {
      if ok {
        urbs := urbs + [NewUrb(t)];
      }
    }

    method AllocBuffer(u: nat, size: nat, ok: bool, ghost who: Owner)
      requires u < |urbs| && Safe(K(), who, SkelModel.AllocBuffer(u, size, ok))
      modifies this`urbs
      ensures K() == Apply(old(K()), who, SkelModel.AllocBuffer(u, size, ok))
    {
      if ok {
        urbs := urbs[u := urbs[u].(alloc := Some(size))];
      }
    }

    /** A failed copy ends the write; what it left in the buffer is never sent. */
    method CopyFromUser(u: nat, bytes: seq<byte>, ok: bool, ghost who: Owner)
      requires u < |urbs| && Safe(K(), who, SkelModel.CopyFromUser(u, bytes, ok))
      modifies this`urbs
      ensures K() == Apply(old(K()), who, SkelModel.CopyFromUser(u, bytes, ok))
    {
      if ok {
        urbs := urbs[u := urbs[u].(data := bytes)];
      }
    }

    method SubmitUrb(u: nat, size: nat, ok: bool, ghost who: Owner)
      requires u < |urbs| && (ok ==> !disabled) && Safe(K(), who, Submit(u, size, ok))
      modifies this`urbs
      ensures K() == Apply(old(K()), who, Submit(u, size, ok))
    {
      urbs := urbs[u := urbs[u].(length := size)];
      if ok {
        urbs := urbs[u := urbs[u].(phase := InFlight, refs := urbs[u].refs + 1)];
      }
    }

    method BufferFree(u: nat, size: nat, ghost who: Owner)
      requires u < |urbs| && Safe(K(), who, FreeBuffer(u, size))
      modifies this`urbs
      ensures K() == Apply(old(K()), who, FreeBuffer(u, size))
    {
      if urbs[u].alloc.Some? {
        urbs := urbs[u := urbs[u].(freed := urbs[u].freed + [size])];
      }
    }

    method UrbFree(u: nat, ghost who: Owner)
      requires u < |urbs| && Safe(K(), who, FreeUrb(u))
      modifies this`urbs
      ensures K() == Apply(old(K()), who, FreeUrb(u))
    {
      var b := urbs[u].(refs := urbs[u].refs - 1);
      urbs := urbs[u := if b.refs == 0 then b.(frees := b.frees + 1) else b];
    }

    method PutDev(ghost who: Owner)
      requires Safe(K(), who, PutUdev)
      modifies this`udev
      ensures K() == Apply(old(K()), who, PutUdev)
    {
      udev := udev - 1;
    }

    method KfreeBuffer(ghost who: Owner)
      requires Safe(K(), who, FreeInBuf)
      modifies this`bulkInBufferFrees
      ensures K() == Apply(old(K()), who, FreeInBuf)
    {
      bulkInBufferFrees := bulkInBufferFrees + 1;
    }

    method KfreeDev(ghost who: Owner)
      requires Safe(K(), who, FreeDev)
      modifies this`devFrees
      ensures K() == Apply(old(K()), who, FreeDev)
    {
      devFrees := devFrees + 1;
    }

    method SetIntfdataNull(ghost who: Owner)
      modifies this`intfdata
      ensures K() == Apply(old(K()), who, ClearData)
    {
      intfdata := false;
    }

    method DeregisterDev(ghost who: Owner)
      modifies this`minor
      ensures K() == Apply(old(K()), who, FreeMinor)
    {
      minor := false;
    }

    method ClearInterface(ghost who: Owner)
      requires Safe(K(), who, ClearIface)
      modifies this`iface
      ensures K() == Apply(old(K()), who, ClearIface)
    {
      iface := false;
    }

    method EndpointsOff(ghost who: Owner)
      modifies this`disabled
      ensures K() == Apply(old(K()), who, DisableEndpoints)
    {
      disabled := true;
    }

    method OpenedFile(ghost who: Owner)
      modifies this`files
      ensures K() == Apply(old(K()), who, NewFile)
    {
      files := files + [true];
    }

    method ReleasedFile(f: nat, ghost who: Owner)
      requires f < |files|
      modifies this`files
      ensures K() == Apply(old(K()), who, CloseFile(f))
    {
      files := files[f := false];
    }

    /** The next stage of a completion. */
    method AdvanceUrb(u: nat, phase: Phase, ghost who: Owner)
      requires u < |urbs|
      modifies this`urbs
      ensures K() == Apply(old(K()), who, Advance(u, phase))
    {
      urbs := urbs[u := urbs[u].(phase := phase)];
    }

    method Goto(t: nat, pc: Pc)
      requires t < |threads|
      modifies this`threads
      ensures threads == old(threads)[t := Thread(old(threads)[t].call, pc)]
      ensures K() == old(K())
    {
      threads := threads[t := threads[t].(pc := pc)];
    }

    method GotoD(d: DiscPc)
      modifies this`disc
      ensures disc == d && K() == old(K())
    {
      disc := d;
    }

    /** Looking at a field, or failing to get memory, changes nothing. */
    lemma NoChange(k: Shared, who: Owner, op: Op)
      requires op.Nothing? || op.FindInterface? || op.GetData? || op.LoadIface? || op.WaitForUrbs?
      ensures Exists(k, op) && Apply(k, who, op) == k
    {
    }

    // ---------------------------------------------------------------- skel_open

    method SkelOpen(t: nat, c: Choice)
      requires CanStep(View(), t, c) && OpenPc(threads[t].pc)
      requires Safe(K(), Caller(t), Action(t, threads[t], c))
      modifies this
      ensures View() == StepNext(old(View()), t, c)
    {
      match threads[t].pc {
        case OpenLock =>
          MutexLock(SkelOpenLock, Caller(t));
          Goto(t, OpenFind);
        case OpenFind =>
          NoChange(K(), Caller(t), FindInterface(c.Go?));
          Goto(t, if c.Fail? then OpenMiss else OpenData);
        case OpenData =>
          NoChange(K(), Caller(t), GetData);
          Goto(t, if intfdata then OpenGet else OpenMiss);
        case OpenMiss =>
          MutexUnlock(SkelOpenLock, Caller(t));
          Goto(t, Done(ENODEV));
        case OpenGet =>
          KrefGet(Caller(t));
          Goto(t, OpenUnlock);
        case OpenUnlock =>
          MutexUnlock(SkelOpenLock, Caller(t));
          Goto(t, OpenResume);
        case OpenResume =>
          AutopmGet(c.Go?, Caller(t));
          Goto(t, if c.Fail? then OpenPut(c.err) else OpenSave);
        case OpenPut(ret) =>
          var last := KrefPut(Caller(t));
          Goto(t, if last then DelUdev(ret) else Done(ret));
        case OpenSave =>
          OpenedFile(Caller(t));
          Goto(t, Done(0));
      }
    }

    // ---------------------------------------------------------------- skel_release

    method SkelRelease(t: nat)
      requires CanStep(View(), t, Go) && RelPc(threads[t].pc)
      requires Safe(K(), Caller(t), Action(t, threads[t], Go))
      modifies this
      ensures View() == StepNext(old(View()), t, Go)
    {
      match threads[t].pc {
        case RelLock =>
          MutexLock(IoMutex, Caller(t));
          Goto(t, RelSuspend);
        case RelSuspend =>
          AutopmPutIfBound(Caller(t));
          Goto(t, RelUnlock);
        case RelUnlock =>
          MutexUnlock(IoMutex, Caller(t));
          Goto(t, RelPut);
        case RelPut =>
          var last := KrefPut(Caller(t));
          Goto(t, if last then DelUdev(0) else Done(0));
      }
    }

    // ---------------------------------------------------------------- skel_read

    /** `user` is what the step copied to the caller's buffer. */
    method SkelRead(t: nat, c: Choice) returns (user: seq<byte>)
      requires CanStep(View(), t, c) && ReadPc(threads[t].pc)
      requires Safe(K(), Caller(t), Action(t, threads[t], c))
      modifies this, bulkInBuffer
      ensures View() == StepNext(old(View()), t, c)
      ensures user == if old(threads[t].pc).ReadCopy? && c.Go? then old(bulkInBuffer[..threads[t].pc.n]) else []
    {
      user := [];
      match threads[t].pc {
        case ReadLock =>
          MutexLock(IoMutex, Caller(t));
          Goto(t, ReadCheck);
        case ReadCheck =>
          NoChange(K(), Caller(t), LoadIface);
          Goto(t, if iface then ReadXfer else ReadUnlock(ENODEV));
        case ReadXfer =>
          BulkMsg(t, threads[t].call.count, c.bytes, c.status, Caller(t));
          Goto(t, if c.status == 0 then ReadCopy(|c.bytes|) else ReadUnlock(c.status));
        case ReadCopy(n) =>
          user := CopyToUser(t, n, c.Go?, Caller(t));
          Goto(t, ReadUnlock(if c.Go? then n else EFAULT));
        case ReadUnlock(ret) =>
          MutexUnlock(IoMutex, Caller(t));
          Goto(t, Done(ret));
      }
    }

    // ---------------------------------------------------------------- skel_write

    static predicate ErrorPc(pc: Pc) { pc.ErrBuf? || pc.ErrUrb? || pc.ErrUp? }

    static predicate SubmitPc(pc: Pc) { pc.WrSubmit? || pc.WrUnlock? || pc.WrDrop? }

    /** The checks and allocations, up to the test under io_mutex that the device is still there. */
    method SkelWrite(t: nat, c: Choice)
      requires CanStep(View(), t, c) && WritePc(threads[t].pc)
      requires !ErrorPc(threads[t].pc) && !SubmitPc(threads[t].pc)
      requires Safe(K(), Caller(t), Action(t, threads[t], c))
      modifies this
      ensures View() == StepNext(old(View()), t, c)
    {
      var size := WriteSize(|threads[t].call.data|);
      match threads[t].pc {
        case WrSize =>
          NoChange(K(), Caller(t), Nothing);
          Goto(t, if threads[t].call.data == [] then Done(0) else WrDown);
        case WrDown =>
          DownInterruptible(c.Go?, Caller(t));
          Goto(t, if c.Fail? then Done(ERESTARTSYS) else WrUrb);
        case WrUrb =>
          var u := |urbs|;
          AllocUrb(t, c.Go?, Caller(t));
          Goto(t, if c.Fail? then ErrUp(ENOMEM) else WrBuf(u));
        case WrBuf(u) =>
          assert Action(t, threads[t], c) == SkelModel.AllocBuffer(u, size, c.Go?);
          AllocBuffer(u, size, c.Go?, Caller(t));
          Goto(t, if c.Fail? then ErrBuf(u, ENOMEM) else WrCopy(u));
        case WrCopy(u) =>
          assert Action(t, threads[t], c) == SkelModel.CopyFromUser(u, Outgoing(threads[t].call), c.Go?);
          CopyFromUser(u, Outgoing(threads[t].call), c.Go?, Caller(t));
          Goto(t, if c.Fail? then ErrBuf(u, EFAULT) else WrLock(u));
        case WrLock(u) =>
          MutexLock(IoMutex, Caller(t));
          Goto(t, WrCheck(u));
        case WrCheck(u) =>
          NoChange(K(), Caller(t), LoadIface);
          Goto(t, if iface then WrSubmit(u) else WrUnlock(u, ENODEV));
      }
    }

    /** The submission, under io_mutex, and the return. */
    method SkelWriteSubmit(t: nat, c: Choice)
      requires CanStep(View(), t, c) && SubmitPc(threads[t].pc)
      requires Safe(K(), Caller(t), Action(t, threads[t], c))
      modifies this
      ensures View() == StepNext(old(View()), t, c)
    {
      var size := WriteSize(|threads[t].call.data|);
      match threads[t].pc {
        case WrSubmit(u) =>
          assert Action(t, threads[t], c) == Submit(u, size, c.Go?);
          SubmitUrb(u, size, c.Go?, Caller(t));
          Goto(t, WrUnlock(u, if c.Fail? then c.err else 0));
        case WrUnlock(u, ret) =>
          MutexUnlock(IoMutex, Caller(t));
          Goto(t, if ret == 0 then WrDrop(u) else ErrBuf(u, ret));
        case WrDrop(u) =>
          UrbFree(u, Caller(t));
          Goto(t, Done(size));
      }
    }

    /** The error label of skel_write. */
    method SkelWriteError(t: nat)
      requires CanStep(View(), t, Go) && ErrorPc(threads[t].pc)
      requires Safe(K(), Caller(t), Action(t, threads[t], Go))
      modifies this
      ensures View() == StepNext(old(View()), t, Go)
    {
      match threads[t].pc {
        case ErrBuf(u, ret) =>
          BufferFree(u, WriteSize(|threads[t].call.data|), Caller(t));
          Goto(t, ErrUrb(u, ret));
        case ErrUrb(u, ret) =>
          UrbFree(u, Caller(t));
          Goto(t, ErrUp(ret));
        case ErrUp(ret) =>
          Up(Caller(t));
          Goto(t, Done(ret));
      }
    }

    /** Whichever part of skel_write the call is in. */
    method WriteStep(t: nat, c: Choice)
      requires CanStep(View(), t, c) && WritePc(threads[t].pc)
      requires Safe(K(), Caller(t), Action(t, threads[t], c))
      modifies this
      ensures View() == StepNext(old(View()), t, c)
    {
      if ErrorPc(threads[t].pc) {
        SkelWriteError(t);
      } else if SubmitPc(threads[t].pc) {
        SkelWriteSubmit(t, c);
      } else {
        SkelWrite(t, c);
      }
    }

    // ---------------------------------------------------------------- skel_delete

    method SkelDelete(t: nat)
      requires CanStep(View(), t, Go) && DelPc(threads[t].pc)
      requires Safe(K(), Caller(t), Action(t, threads[t], Go))
      modifies this
      ensures View() == StepNext(old(View()), t, Go)
    {
      var pc := threads[t].pc;
      if pc.DelUdev? {
        assert Action(t, threads[t], Go) == PutUdev;
        PutDev(Caller(t));
        Goto(t, DelBuf(pc.ret));
      } else if pc.DelBuf? {
        assert Action(t, threads[t], Go) == FreeInBuf;
        KfreeBuffer(Caller(t));
        Goto(t, DelDev(pc.ret));
      } else {
        assert Action(t, threads[t], Go) == FreeDev;
        KfreeDev(Caller(t));
        Goto(t, Done(pc.ret));
      }
    }

    // ---------------------------------------------------------------- skel_write_bulk_callback

    method SkelWriteBulkCallback(u: nat)
      requires CanComplete(View(), u) && Safe(K(), Nobody, CompletionAction(urbs[u], u))
      modifies this
      ensures View() == CompleteNext(old(View()), u)
    {
      SkelKeeps.CompleteShape(View(), u);
      match urbs[u].phase {
        case InFlight =>
          BufferFree(u, urbs[u].length, Nobody);
          AdvanceUrb(u, BufferGone, Nobody);
        case BufferGone =>
          Up(Nobody);
          AdvanceUrb(u, Upped, Nobody);
        case Upped =>
          UrbFree(u, Nobody);
          AdvanceUrb(u, Retired, Nobody);
      }
    }

    // ---------------------------------------------------------------- skel_disconnect

    /** skel_delete, when skel_disconnect drops the last reference. */
    method SkelDeleteLast()
      requires CanDisc(View()) && (disc.DropUdev? || disc.DropBuf? || disc.DropDev?)
      requires Safe(K(), Disconnector, DiscAction(disc))
      modifies this
      ensures View() == DiscNext(old(View()))
    {
      match disc {
        case DropUdev =>
          PutDev(Disconnector);
          GotoD(DropBuf);
        case DropBuf =>
          KfreeBuffer(Disconnector);
          GotoD(DropDev);
        case DropDev =>
          KfreeDev(Disconnector);
          GotoD(Returned);
      }
    }

    method SkelDisconnect()
      requires CanDisc(View()) && Safe(K(), Disconnector, DiscAction(disc))
      modifies this
      ensures View() == DiscNext(old(View()))
    {
      if disc.DropUdev? || disc.DropBuf? || disc.DropDev? {
        SkelDeleteLast();
        return;
      }
      match disc {
        case Flush =>
          NoChange(K(), Disconnector, WaitForUrbs);
          GotoD(Lock);
        case Lock =>
          MutexLock(SkelOpenLock, Disconnector);
          GotoD(Clear);
        case Clear =>
          SetIntfdataNull(Disconnector);
          GotoD(Minor);
        case Minor =>
          DeregisterDev(Disconnector);
          GotoD(Unlock);
        case Unlock =>
          MutexUnlock(SkelOpenLock, Disconnector);
          GotoD(IoLock);
        case IoLock =>
          MutexLock(IoMutex, Disconnector);
          GotoD(Gone);
        case Gone =>
          ClearInterface(Disconnector);
          GotoD(IoUnlock);
        case IoUnlock =>
          MutexUnlock(IoMutex, Disconnector);
          GotoD(Put);
        case Put =>
          var last := KrefPut(Disconnector);
          GotoD(if last then DropUdev else Returned);
      }
    }

    // ---------------------------------------------------------------- the environment

    /** A call arrives, or the device is unplugged; a release closes its file. */
    method Begin(l: Label)
      requires Enabled(View(), l) && !l.Step? && !l.Complete? && !l.Disc?
      modifies this
      ensures View() == Next(old(View()), l)
    {
      match l {
        case CallOpen =>
          threads := threads + [Thread(Open, OpenLock)];
        case CallRelease(f) =>
          ReleasedFile(f, Nobody);
          threads := threads + [Thread(Release(f), RelLock)];
        case CallRead(f, n) =>
          threads := threads + [Thread(Read(f, n), ReadLock)];
        case CallWrite(f, data) =>
          threads := threads + [Thread(Write(f, data), WrSize)];
        case Unplug =>
          EndpointsOff(Disconnector);
          GotoD(Flush);
      }
    }

    method StepOf(t: nat, c: Choice) returns (user: seq<byte>)
      requires CanStep(View(), t, c) && Safe(K(), Caller(t), Action(t, threads[t], c))
      modifies this, bulkInBuffer
      ensures View() == StepNext(old(View()), t, c)
      ensures user == if old(threads[t].pc).ReadCopy? && c.Go? then old(bulkInBuffer[..threads[t].pc.n]) else []
    {
      user := [];
      if OpenPc(threads[t].pc) {
        SkelOpen(t, c);
      } else if RelPc(threads[t].pc) {
        SkelRelease(t);
      } else if ReadPc(threads[t].pc) {
        user := SkelRead(t, c);
      } else if DelPc(threads[t].pc) {
        SkelDelete(t);
      } else {
        WriteStep(t, c);
      }
    }

    // ---------------------------------------------------------------- any step

    method Perform(l: Label) returns (user: seq<byte>)
      requires Enabled(View(), l) && Exists(K(), OpOf(View(), l)) && Safe(K(), WhoOf(l), OpOf(View(), l))
      modifies this, bulkInBuffer
      ensures View() == Next(old(View()), l) && user == Handed(old(View()), l)
    {
      user := [];
      match l {
        case Step(t, c) =>
          user := StepOf(t, c);
        case Complete(u) =>
          SkelWriteBulkCallback(u);
        case Disc =>
          SkelDisconnect();
        case _ =>
          Begin(l);
      }
    }

    /**
     Any step a valid state allows: the kernel's demands are met, so the method for it can be called, and
     the new state is valid again. `user` is what a read copied out, which is the reader's own transfer.
     */
    method Take(l: Label) returns (user: seq<byte>)
      requires Valid() && Enabled(View(), l)
      modifies this, bulkInBuffer
      ensures Valid() && View() == Next(old(View()), l) && user == Handed(old(View()), l)
      ensures user != [] ==> l.Step? && OwnTransfer(old(xfers), l.t, user)
    {
      SkelSafety.EveryStepSafe(View(), l);
      SkelKeeps.NextKeeps(View(), l);
      ResultsKept(View(), l);
      HandsOwn(View(), l);
      user := Perform(l);
    }

    /**
     A whole schedule: however calls, completions and the disconnect interleave, the in-place driver ends as the
     step system does, and what it has handed to user space is what the log says was copied out.
     */
    method Run(ls: seq<Label>) returns (user: seq<byte>)
      requires Valid() && Legal(View(), ls)
      modifies this, bulkInBuffer
      ensures Valid() && View() == Exec(old(View()), ls)
      ensures Delivered(log) == Delivered(old(log)) + user
      decreases |ls|
    {
      if ls == [] {
        return [];
      }
      ghost var before := Delivered(log);
      HandsOver(View(), ls[0]);
      var first := Take(ls[0]);
      assert View().k.log == log;
      assert Delivered(log) == before + first;
      var rest := Run(ls[1..]);
      user := first + rest;
      Sums.Regroup(before, first, rest);
    }
  }
}
