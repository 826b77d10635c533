/** What holds in every reachable state of the driver, part by part. */
module SkelInvariant {
  import opened Sums
  import opened Bytes
  import opened SkelModel

  // ---------------------------------------------------------------- who holds what

  function One(b: bool): nat { if b then 1 else 0 }

  /** Calls between their kref_get (or the hand-over from a file) and their kref_put. */
  function RefW(th: Thread): nat {
    One(th.pc.OpenUnlock? || th.pc.OpenResume? || th.pc.OpenPut? || th.pc.OpenSave? || RelPc(th.pc))
  }

  function FileW(open: bool): nat { One(open) }

  /** The registration reference, held until skel_disconnect puts it. */
  function RegW(d: DiscPc): nat {
    One(!(d.DropUdev? || d.DropBuf? || d.DropDev? || d.Returned?))
  }

  /** Writers between down and either the hand-off to the callback or the up of the error label. */
  predicate HoldsPermit(pc: Pc) {
    pc.WrUrb? || pc.WrBuf? || pc.WrCopy? || pc.WrLock? || pc.WrCheck? || pc.WrSubmit?
    || (pc.WrUnlock? && pc.ret != 0) || pc.ErrBuf? || pc.ErrUrb? || pc.ErrUp?
  }

  function PermitW(th: Thread): nat { One(HoldsPermit(th.pc)) }

  function UrbW(b: Urb): nat { One(Pending(b)) }

  function PmW(th: Thread): nat { One(th.pc.OpenSave? || th.pc.RelLock? || th.pc.RelSuspend?) }

  function DelW(th: Thread): nat { One(DelPc(th.pc)) }

  function DelD(d: DiscPc): nat { One(d.DropUdev? || d.DropBuf? || d.DropDev?) }

  ghost predicate RefsCounted(s: State) {
    s.k.kref == RegW(s.disc) + Sum(RefW, s.threads) + Sum(FileW, s.k.files)
  }

  ghost predicate PermitsCounted(s: State) {
    0 <= s.k.sem && s.k.sem + Sum(PermitW, s.threads) + Sum(UrbW, s.k.urbs) == WRITES_IN_FLIGHT
  }

  ghost predicate PowerCounted(s: State) {
    s.k.pm == Sum(PmW, s.threads) + Sum(FileW, s.k.files) + s.k.skipped && (s.k.iface ==> s.k.skipped == 0)
  }

  // ---------------------------------------------------------------- locks and publication

  /** The critical sections of skel_open_lock and io_mutex. */
  predicate Inside(m: Mutex, pc: Pc) {
    match m
    case SkelOpenLock => pc.OpenFind? || pc.OpenData? || pc.OpenMiss? || pc.OpenGet? || pc.OpenUnlock?
    case IoMutex =>
      pc.RelSuspend? || pc.RelUnlock? || pc.ReadCheck? || pc.ReadXfer? || pc.ReadCopy? || pc.ReadUnlock?
      || pc.WrCheck? || pc.WrSubmit? || pc.WrUnlock?
  }

  predicate InsideD(m: Mutex, d: DiscPc) {
    if m.IoMutex? then d.Gone? || d.IoUnlock? else d.Clear? || d.Minor? || d.Unlock?
  }

  /** A lock's owner is exactly the call whose program counter is in the lock's critical section. */
  ghost predicate LockOwned(s: State, m: Mutex) {
    var owner := OwnerOf(s.k, m);
    && (forall t :: 0 <= t < |s.threads| ==> (Inside(m, s.threads[t].pc) <==> owner == Caller(t)))
    && (owner.Caller? ==> owner.t < |s.threads|)
    && (InsideD(m, s.disc) <==> owner == Disconnector)
  }

  ghost predicate LocksOwned(s: State) { LockOwned(s, SkelOpenLock) && LockOwned(s, IoMutex) }

  function Rank(d: DiscPc): nat {
    match d
    case NotCalled => 0 case Flush => 1 case Lock => 2 case Clear => 3 case Minor => 4 case Unlock => 5
    case IoLock => 6 case Gone => 7 case IoUnlock => 8 case Put => 9
    case DropUdev => 10 case DropBuf => 11 case DropDev => 12 case Returned => 13
  }

  predicate Before(d: DiscPc, e: DiscPc) { Rank(d) <= Rank(e) }

  ghost predicate Published(s: State) {
    && (s.k.intfdata <==> Before(s.disc, Clear))
    && (s.k.minor <==> Before(s.disc, Minor))
    && (s.k.iface <==> Before(s.disc, Gone))
    && (s.k.disabled <==> !s.disc.NotCalled?)
  }

  // ---------------------------------------------------------------- what a call relies on

  /** The URB a write is holding. */
  function UrbOf(pc: Pc): Option<nat> {
    match pc
    case WrBuf(u) => Some(u)
    case WrCopy(u) => Some(u)
    case WrLock(u) => Some(u)
    case WrCheck(u) => Some(u)
    case WrSubmit(u) => Some(u)
    case WrUnlock(u, _) => Some(u)
    case WrDrop(u) => Some(u)
    case ErrBuf(u, _) => Some(u)
    case ErrUrb(u, _) => Some(u)
    case _ => None
  }

  predicate LocalOk(k: Shared, th: Thread) {
    && Fits(th)
    && (th.pc.ReadCopy? ==> th.pc.n <= |k.inBuf|)
    && (UrbOf(th.pc).Some? ==> UrbOf(th.pc).value < |k.urbs|)
    && (th.pc.OpenGet? ==> k.intfdata)
    && (th.pc.ReadXfer? || th.pc.ReadCopy? || th.pc.WrSubmit? ==> k.iface)
    && (th.pc.OpenPut? || th.pc.ErrBuf? || th.pc.ErrUrb? || th.pc.ErrUp? ==> th.pc.ret < 0)
    && (th.pc.WrUnlock? ==> th.pc.ret <= 0)
    && (WritePc(th.pc) && !th.pc.WrSize? ==> th.call.data != [])
  }

  ghost predicate LocalsOk(s: State) {
    forall t :: 0 <= t < |s.threads| ==> LocalOk(s.k, s.threads[t])
  }

  /** A read or write runs on a file that has not been released. */
  predicate OnOpenFile(s: State, th: Thread) {
    (th.call.Read? || th.call.Write?) && !th.pc.Done? ==>
      !DelPc(th.pc) && th.call.file < |s.k.files| && s.k.files[th.call.file]
  }

  ghost predicate FilesOk(s: State) {
    forall t :: 0 <= t < |s.threads| ==> OnOpenFile(s, s.threads[t])
  }

  // ---------------------------------------------------------------- URBs and their buffers

  predicate CoreHolds(b: Urb) { b.phase.InFlight? || b.phase.BufferGone? || b.phase.Upped? }

  predicate Held(s: State, u: nat)
    requires u < |s.k.urbs| && s.k.urbs[u].writer < |s.threads|
  {
    UrbOf(s.threads[s.k.urbs[u].writer].pc) == Some(u)
  }

  /** The buffer has been freed once, with its own size, or never existed. */
  predicate Settled(b: Urb) { b.freed == if b.alloc.None? then [] else [b.alloc.value] }

  /** A URB that was never submitted, seen by the writer holding it, who wants to send `out`. */
  predicate Unsent(b: Urb, pc: Pc, out: seq<byte>) {
    var size := |out|;
    match pc
    case WrBuf(_) => b.alloc.None? && b.freed == []
    case WrCopy(_) => b.alloc == Some(size) && b.freed == []
    case WrUnlock(_, ret) => ret < 0 && b.alloc == Some(size) && b.freed == []
    case WrDrop(_) => false
    case ErrBuf(_, _) => (b.alloc.None? || b.alloc == Some(size)) && b.freed == []
    case ErrUrb(_, _) => (b.alloc.None? || b.alloc == Some(size)) && Settled(b)
    case _ => b.alloc == Some(size) && b.freed == [] && b.data == out
  }

  /** A URB, its writer, and whether that writer still holds it. */
  predicate UrbFits(b: Urb, u: nat, th: Thread, held: bool) {
    && th.call.Write?
    && b.refs == One(held) + One(CoreHolds(b))
    && b.frees == One(b.refs == 0)
    && (b.phase.Idle? && !held ==> Settled(b))
    && (b.phase.Idle? && held ==> Unsent(b, th.pc, Outgoing(th.call)))
    && (!b.phase.Idle? ==>
          && b.data == Outgoing(th.call)
          && b.length == |b.data|
          && b.alloc == Some(b.length)
          && b.freed == (if b.phase.InFlight? then [] else [b.length])
          && (held ==> th.pc == WrUnlock(u, 0) || th.pc == WrDrop(u)))
  }

  predicate UrbOk(s: State, u: nat)
    requires u < |s.k.urbs|
  {
    s.k.urbs[u].writer < |s.threads| && UrbFits(s.k.urbs[u], u, s.threads[s.k.urbs[u].writer], Held(s, u))
  }

  ghost predicate UrbsOk(s: State) {
    && (forall t :: 0 <= t < |s.threads| && UrbOf(s.threads[t].pc).Some? ==>
          UrbOf(s.threads[t].pc).value < |s.k.urbs| && s.k.urbs[UrbOf(s.threads[t].pc).value].writer == t)
    && (forall u :: 0 <= u < |s.k.urbs| ==> UrbOk(s, u))
  }

  /** Once the core has let skel_disconnect start, no callback is outstanding. */
  ghost predicate Drained(s: State) {
    Rank(s.disc) >= Rank(Lock) ==> forall u :: 0 <= u < |s.k.urbs| ==> !Pending(s.k.urbs[u])
  }

  // ---------------------------------------------------------------- deletion

  /** How far skel_delete has come, as the counters show it. */
  predicate Undeleted(s: State) { s.k.udev == 1 && s.k.inBufFrees == 0 && s.k.devFrees == 0 }

  predicate UdevGone(s: State) { s.k.udev == 0 && s.k.inBufFrees == 0 && s.k.devFrees == 0 }

  predicate BufGone(s: State) { s.k.udev == 0 && s.k.inBufFrees == 1 && s.k.devFrees == 0 }

  predicate Deleted(s: State) { s.k.udev == 0 && s.k.inBufFrees == 1 && s.k.devFrees == 1 }

  predicate DeleteStage(s: State, pc: Pc) {
    && (pc.DelUdev? ==> Undeleted(s))
    && (pc.DelBuf? ==> UdevGone(s))
    && (pc.DelDev? ==> BufGone(s))
  }

  predicate DeleteStageD(s: State, d: DiscPc) {
    && (d.DropUdev? ==> Undeleted(s))
    && (d.DropBuf? ==> UdevGone(s))
    && (d.DropDev? ==> BufGone(s))
  }

  ghost predicate DeletedOnce(s: State) {
    && 0 <= s.k.kref
    && Sum(DelW, s.threads) + DelD(s.disc) + s.k.devFrees == One(s.k.kref == 0)
    && (s.k.kref > 0 ==> Undeleted(s))
    && (s.k.devFrees > 0 ==> Deleted(s))
    && (forall t :: 0 <= t < |s.threads| ==> DeleteStage(s, s.threads[t].pc))
    && DeleteStageD(s, s.disc)
  }

  // ---------------------------------------------------------------- the shared read buffer

  /** The reader that holds io_mutex between its transfer and its copy. */
  predicate Copying(s: State) {
    s.k.ioMutex.Caller? && s.k.ioMutex.t < |s.threads| && s.threads[s.k.ioMutex.t].pc.ReadCopy?
  }

  predicate XferOk(s: State, x: Xfer) {
    && x.t < |s.threads|
    && s.threads[x.t].call.Read? && s.threads[x.t].call.count == x.count
    && |x.bytes| <= Min(|s.k.inBuf|, x.count)
  }

  predicate SameChunk(x: Xfer, d: Delivery) { x.t == d.t && x.bytes == d.bytes }

  ghost predicate ReadsOk(s: State) {
    && (forall i :: 0 <= i < |s.k.xfers| ==> XferOk(s, s.k.xfers[i]))
    && |s.k.xfers| == |s.k.log| + One(Copying(s))
    && (forall i :: 0 <= i < |s.k.log| ==> SameChunk(s.k.xfers[i], s.k.log[i]))
    && (Copying(s) ==>
          var t := s.k.ioMutex.t;
          && s.threads[t].pc.n <= |s.k.inBuf|
          && s.k.xfers[|s.k.log|].t == t
          && s.k.xfers[|s.k.log|].bytes == s.k.inBuf[..s.threads[t].pc.n])
  }

  ghost predicate Inv(s: State) {
    && RefsCounted(s) && PermitsCounted(s) && PowerCounted(s)
    && LocksOwned(s) && Published(s) && LocalsOk(s) && FilesOk(s)
    && UrbsOk(s) && Drained(s) && DeletedOnce(s) && ReadsOk(s)
  }

  lemma InitInv(buf: seq<byte>)
    ensures Inv(Init(buf))
  {
  }
}
