/**
 The USB skeleton driver as a step system: any number of calls of open, release, read and write,
 one disconnect, and the completions of the URBs the writers submit.

 A step of a call performs one operation (a lock, unlock, reference-count, allocation, copy, test or
 USB-core call) and moves the call's program counter. `Action` and `Then` are the driver's control flow;
 `Apply` is what the operations do; `Safe` is what each of them asks of its caller.
 */
module SkelModel {
  import opened Bytes

  const WRITES_IN_FLIGHT: nat := 8
  const PAGE_SIZE: nat := 4096
  const MAX_TANSFER: nat := PAGE_SIZE - 512

  const ENOMEM := -12
  const EFAULT := -14
  const ENODEV := -19
  const ERESTARTSYS := -512

  function Min(a: nat, b: nat): nat { if a < b then a else b }

  function WriteSize(count: nat): nat { Min(count, MAX_TANSFER) }

  datatype Option<+T> = None | Some(value: T)

  /** `data` is what user space has in the buffer it passes to write; its length is the count. */
  datatype Call = Open | Release(file: nat) | Read(file: nat, count: nat) | Write(file: nat, data: seq<byte>)

  /** The part of the data one call of write sends. */
  function Outgoing(call: Call): (out: seq<byte>)
    requires call.Write?
    ensures |out| == WriteSize(|call.data|)
  {
    call.data[..WriteSize(|call.data|)]
  }

  /** What a call is about to do. */
  datatype Pc =
    // skel_open
    | OpenLock | OpenFind | OpenData | OpenMiss | OpenGet | OpenUnlock | OpenResume | OpenPut(ret: int) | OpenSave
    // skel_release
    | RelLock | RelSuspend | RelUnlock | RelPut
    // skel_read
    | ReadLock | ReadCheck | ReadXfer | ReadCopy(n: nat) | ReadUnlock(ret: int)
    // skel_write, with its error label
    | WrSize | WrDown | WrUrb | WrBuf(u: nat) | WrCopy(u: nat) | WrLock(u: nat) | WrCheck(u: nat)
    | WrSubmit(u: nat) | WrUnlock(u: nat, ret: int) | WrDrop(u: nat)
    | ErrBuf(u: nat, ret: int) | ErrUrb(u: nat, ret: int) | ErrUp(ret: int)
    // skel_delete, run by the call that dropped the last reference
    | DelUdev(ret: int) | DelBuf(ret: int) | DelDev(ret: int)
    | Done(ret: int)

  datatype Thread = Thread(call: Call, pc: Pc)

  /** The same for the USB core's one call of skel_disconnect; Flush is the core waiting for URBs. */
  datatype DiscPc =
    | NotCalled | Flush | Lock | Clear | Minor | Unlock | IoLock | Gone | IoUnlock | Put
    | DropUdev | DropBuf | DropDev | Returned

  datatype Mutex = SkelOpenLock | IoMutex

  datatype Owner = Nobody | Caller(t: nat) | Disconnector

  /** Idle: not submitted. The callback frees the buffer, then ups the semaphore; then the core drops its reference. */
  datatype Phase = Idle | InFlight | BufferGone | Upped | Retired

  /**
   `alloc` is the size of the transfer buffer, `data` what was copied into it, `freed` the sizes it was freed
   with, `frees` how often the URB was freed.
   */
  datatype Urb = Urb(
    writer: nat, refs: nat, frees: nat, phase: Phase, length: nat, alloc: Option<nat>, data: seq<byte>, freed: seq<nat>)

  /** A bulk-in transfer, and what skel_read then did with the bytes. */
  datatype Xfer = Xfer(t: nat, count: nat, bytes: seq<byte>)
  datatype Delivery = Delivery(t: nat, bytes: seq<byte>, ok: bool)

  datatype Shared = Shared(
    files: seq<bool>,        // one per successful open; true until release is called
    urbs: seq<Urb>,
    openLock: Owner,
    ioMutex: Owner,
    kref: int,
    sem: int,
    intfdata: bool,          // usb_get_intfdata(interface) != NULL
    minor: bool,             // the interface holds a minor
    iface: bool,             // dev->interface != NULL
    disabled: bool,          // the core has disabled the endpoints
    pm: int,                 // autosuspend count due to this driver
    skipped: nat,            // releases that found dev->interface NULL
    udev: int,               // references this driver has on the usb_device
    inBuf: seq<byte>,        // bulk_in_buffer; its length is bulk_in_size
    inBufFrees: nat,
    devFrees: nat,
    xfers: seq<Xfer>,
    log: seq<Delivery>)

  datatype State = State(threads: seq<Thread>, disc: DiscPc, k: Shared)

  /** What the environment decides at a step: success, failure, or the outcome of a bulk transfer. */
  datatype Choice = Go | Fail(err: int) | Data(bytes: seq<byte>, status: int)

  datatype Label =
    | CallOpen | CallRelease(file: nat) | CallRead(file: nat, count: nat) | CallWrite(file: nat, data: seq<byte>)
    | Unplug
    | Step(t: nat, choice: Choice)
    | Complete(u: nat)
    | Disc

  /** The state skel_probe leaves behind when it succeeds with bulk_in_buffer `buf`. */
  function Init(buf: seq<byte>): State {
    State([], NotCalled,
          Shared([], [], Nobody, Nobody, 1, WRITES_IN_FLIGHT, true, true, true, false, 0, 0, 1, buf, 0, 0, [], []))
  }

  // ---------------------------------------------------------------- operations

  datatype Op =
    | Nothing
    | MutexLock(m: Mutex) | MutexUnlock(m: Mutex)
    | FindInterface(ok: bool) | GetData | ClearData | FreeMinor
    | LoadIface | ClearIface
    | KrefGet | KrefPut
    | PmGet(ok: bool) | PmPutIfBound
    | NewFile | CloseFile(f: nat)
    | BulkMsg(t: nat, count: nat, bytes: seq<byte>, status: int) | CopyToUser(t: nat, n: nat, ok: bool)
    | Down(ok: bool) | Up
    | AllocUrb(t: nat, ok: bool) | AllocBuffer(u: nat, size: nat, ok: bool)
    | CopyFromUser(u: nat, bytes: seq<byte>, ok: bool)
    | Submit(u: nat, size: nat, ok: bool)
    | FreeBuffer(u: nat, size: nat) | FreeUrb(u: nat) | Advance(u: nat, phase: Phase)
    | DisableEndpoints | WaitForUrbs
    | PutUdev | FreeInBuf | FreeDev

  predicate Pending(b: Urb) { b.phase.InFlight? || b.phase.BufferGone? }

  function OwnerOf(k: Shared, m: Mutex): Owner { if m.IoMutex? then k.ioMutex else k.openLock }

  /** A blocking operation waits until this holds; the others never block. */
  predicate CanDo(k: Shared, op: Op) {
    match op
    case MutexLock(m) => OwnerOf(k, m).Nobody?
    case Down(ok) => ok ==> k.sem > 0
    case Submit(_, _, ok) => ok ==> !k.disabled
    case BulkMsg(_, count, bytes, status) => status <= 0 && |bytes| <= Min(|k.inBuf|, count)
    case WaitForUrbs => forall u :: 0 <= u < |k.urbs| ==> !Pending(k.urbs[u])
    case _ => true
  }

  /** usb_buffer_free does nothing on NULL. */
  function BufferFreed(b: Urb, size: nat): Urb {
    if b.alloc.None? then b else b.(freed := b.freed + [size])
  }

  /** usb_free_urb drops a reference; the last one frees the URB. */
  function UrbDropped(b: Urb): Urb {
    b.(refs := if b.refs == 0 then 0 else b.refs - 1, frees := if b.refs <= 1 then b.frees + 1 else b.frees)
  }

  function Submitted(b: Urb, size: nat, ok: bool): Urb {
    if ok then b.(length := size, phase := InFlight, refs := b.refs + 1) else b.(length := size)
  }

  function NewUrb(t: nat): Urb { Urb(t, 1, 0, Idle, 0, None, [], []) }

  /** A transfer overwrites the front of bulk_in_buffer. */
  function Received(buf: seq<byte>, bytes: seq<byte>): seq<byte>
    requires |bytes| <= |buf|
  {
    bytes + buf[|bytes|..]
  }

  function OwnerAfter(owner: Owner, m: Mutex, who: Owner, op: Op): Owner {
    if op == MutexLock(m) then who else if op == MutexUnlock(m) then Nobody else owner
  }

  function FilesAfter(files: seq<bool>, op: Op): seq<bool> {
    match op
    case NewFile => files + [true]
    case CloseFile(f) => if f < |files| then files[f := false] else files
    case _ => files
  }

  /** Which URB an operation works on, if any. */
  function Target(op: Op): Option<nat> {
    match op
    case AllocBuffer(u, _, _) => Some(u)
    case CopyFromUser(u, _, _) => Some(u)
    case Submit(u, _, _) => Some(u)
    case FreeBuffer(u, _) => Some(u)
    case FreeUrb(u) => Some(u)
    case Advance(u, _) => Some(u)
    case _ => None
  }

  function UrbAfter(b: Urb, op: Op): Urb {
    match op
    case AllocBuffer(_, size, ok) => if ok then b.(alloc := Some(size)) else b
    case CopyFromUser(_, bytes, ok) => if ok then b.(data := bytes) else b
    case Submit(_, size, ok) => Submitted(b, size, ok)
    case FreeBuffer(_, size) => BufferFreed(b, size)
    case FreeUrb(_) => UrbDropped(b)
    case Advance(_, phase) => b.(phase := phase)
    case _ => b
  }

  function UrbsAfter(urbs: seq<Urb>, op: Op): seq<Urb>
    requires Target(op).Some? ==> Target(op).value < |urbs|
  {
    if op.AllocUrb? then
      if op.ok then urbs + [NewUrb(op.t)] else urbs
    else if Target(op).Some? then
      urbs[Target(op).value := UrbAfter(urbs[Target(op).value], op)]
    else
      urbs
  }

  function KrefAfter(kref: int, op: Op): int {
    if op.KrefGet? then kref + 1 else if op.KrefPut? then kref - 1 else kref
  }

  function SemAfter(sem: int, op: Op): int {
    if op.Down? && op.ok then sem - 1 else if op.Up? then sem + 1 else sem
  }

  /** skel_release gives the autosuspend count back only while dev->interface is set. */
  function PmAfter(pm: int, iface: bool, op: Op): int {
    if op.PmGet? && op.ok then pm + 1 else if op.PmPutIfBound? && iface then pm - 1 else pm
  }

  function InBufAfter(buf: seq<byte>, op: Op): seq<byte> {
    if op.BulkMsg? && |op.bytes| <= |buf| then Received(buf, op.bytes) else buf
  }

  function XfersAfter(xfers: seq<Xfer>, op: Op): seq<Xfer> {
    if op.BulkMsg? then xfers + [Xfer(op.t, op.count, op.bytes)] else xfers
  }

  /** A failed transfer's bytes are dropped; a successful one's are copied out, or dropped if the copy faults. */
  function LogAfter(log: seq<Delivery>, buf: seq<byte>, op: Op): seq<Delivery> {
    if op.BulkMsg? && op.status != 0 then log + [Delivery(op.t, op.bytes, false)]
    else if op.CopyToUser? && op.n <= |buf| then log + [Delivery(op.t, buf[..op.n], op.ok)]
    else log
  }

  /** The things an operation mentions exist. */
  predicate Exists(k: Shared, op: Op) {
    && (Target(op).Some? ==> Target(op).value < |k.urbs|)
    && (op.CopyToUser? ==> op.n <= |k.inBuf|)
    && (op.CloseFile? ==> op.f < |k.files|)
  }

  /** The effect of an operation, field by field. */
  function Apply(k: Shared, who: Owner, op: Op): Shared
    requires Exists(k, op)
  {
    Shared(FilesAfter(k.files, op),
           UrbsAfter(k.urbs, op),
           OwnerAfter(k.openLock, SkelOpenLock, who, op),
           OwnerAfter(k.ioMutex, IoMutex, who, op),
           KrefAfter(k.kref, op),
           SemAfter(k.sem, op),
           k.intfdata && !op.ClearData?,
           k.minor && !op.FreeMinor?,
           k.iface && !op.ClearIface?,
           k.disabled || op.DisableEndpoints?,
           PmAfter(k.pm, k.iface, op),
           if op.PmPutIfBound? && !k.iface then k.skipped + 1 else k.skipped,
           if op.PutUdev? then k.udev - 1 else k.udev,
           InBufAfter(k.inBuf, op),
           if op.FreeInBuf? then k.inBufFrees + 1 else k.inBufFrees,
           if op.FreeDev? then k.devFrees + 1 else k.devFrees,
           XfersAfter(k.xfers, op),
           LogAfter(k.log, k.inBuf, op))
  }

  predicate DevLive(k: Shared) { k.devFrees == 0 }

  predicate BufferLive(b: Urb) { b.alloc.Some? && b.freed == [] }

  /**
   What an operation asks of its caller: live memory, a count that may still be raised or dropped, a lock
   that is held, a bound interface for a transfer, a buffer freed once and with its own size.
   */
  predicate Safe(k: Shared, who: Owner, op: Op)
    requires Exists(k, op)
  {
    match op
    case MutexLock(m) => m.IoMutex? ==> DevLive(k)
    case MutexUnlock(m) => OwnerOf(k, m) == who && (m.IoMutex? ==> DevLive(k))
    case LoadIface => DevLive(k) && k.ioMutex == who
    case ClearIface => DevLive(k) && k.ioMutex == who
    case KrefGet => DevLive(k) && k.kref > 0
    case KrefPut => DevLive(k) && k.kref > 0
    case PmPutIfBound => DevLive(k) && k.ioMutex == who && (k.iface ==> k.pm > 0)
    case BulkMsg(_, _, _, _) => DevLive(k) && k.ioMutex == who && k.iface && k.udev > 0 && k.inBufFrees == 0
    case CopyToUser(_, _, _) => DevLive(k) && k.ioMutex == who && k.inBufFrees == 0
    case Down(_) => DevLive(k)
    case Up => DevLive(k) && k.sem < WRITES_IN_FLIGHT
    case AllocBuffer(u, _, _) => DevLive(k) && k.udev > 0 && k.urbs[u].refs > 0 && k.urbs[u].alloc.None?
    case CopyFromUser(u, bytes, _) => k.urbs[u].refs > 0 && BufferLive(k.urbs[u]) && k.urbs[u].alloc == Some(|bytes|)
    case Submit(u, size, _) =>
      && DevLive(k) && k.ioMutex == who && k.iface && k.udev > 0
      && k.urbs[u].refs > 0 && k.urbs[u].phase.Idle? && BufferLive(k.urbs[u]) && k.urbs[u].alloc == Some(size)
    case FreeBuffer(u, size) =>
      && DevLive(k) && k.udev > 0 && k.urbs[u].refs > 0
      && (k.urbs[u].alloc.Some? ==> k.urbs[u].freed == [] && k.urbs[u].alloc == Some(size))
    case FreeUrb(u) => k.urbs[u].refs > 0 && k.urbs[u].frees == 0
    case PutUdev => DevLive(k) && k.udev > 0
    case FreeInBuf => DevLive(k) && k.inBufFrees == 0
    case FreeDev => DevLive(k)
    case _ => true
  }

  // ---------------------------------------------------------------- the driver's control flow

  predicate OpenPc(pc: Pc) {
    pc.OpenLock? || pc.OpenFind? || pc.OpenData? || pc.OpenMiss? || pc.OpenGet? || pc.OpenUnlock?
    || pc.OpenResume? || pc.OpenPut? || pc.OpenSave?
  }

  predicate RelPc(pc: Pc) { pc.RelLock? || pc.RelSuspend? || pc.RelUnlock? || pc.RelPut? }

  predicate ReadPc(pc: Pc) { pc.ReadLock? || pc.ReadCheck? || pc.ReadXfer? || pc.ReadCopy? || pc.ReadUnlock? }

  predicate DelPc(pc: Pc) { pc.DelUdev? || pc.DelBuf? || pc.DelDev? }

  predicate WritePc(pc: Pc) { !OpenPc(pc) && !RelPc(pc) && !ReadPc(pc) && !DelPc(pc) && !pc.Done? }

  /** The program counter belongs to the call. */
  predicate Fits(th: Thread) {
    && (OpenPc(th.pc) ==> th.call.Open?)
    && (RelPc(th.pc) ==> th.call.Release?)
    && (ReadPc(th.pc) ==> th.call.Read?)
    && (WritePc(th.pc) ==> th.call.Write?)
  }

  /** The outcomes the environment may give this step. */
  predicate Offers(pc: Pc, c: Choice) {
    match pc
    case Done(_) => false
    case ReadXfer => c.Data?
    case OpenFind => c.Go? || c.Fail?
    case OpenResume => c.Go? || (c.Fail? && c.err < 0)
    case ReadCopy(_) => c.Go? || c.Fail?
    case WrDown => c.Go? || c.Fail?
    case WrUrb => c.Go? || c.Fail?
    case WrBuf(_) => c.Go? || c.Fail?
    case WrCopy(_) => c.Go? || c.Fail?
    case WrSubmit(_) => c.Go? || (c.Fail? && c.err < 0)
    case _ => c.Go?
  }

  /** The operation call `t` performs. */
  function Action(t: nat, th: Thread, c: Choice): Op
    requires Fits(th) && Offers(th.pc, c)
  {
    match th.pc
    case OpenLock => MutexLock(SkelOpenLock)
    case OpenFind => FindInterface(c.Go?)
    case OpenData => GetData
    case OpenMiss => MutexUnlock(SkelOpenLock)
    case OpenGet => KrefGet
    case OpenUnlock => MutexUnlock(SkelOpenLock)
    case OpenResume => PmGet(c.Go?)
    case OpenPut(_) => KrefPut
    case OpenSave => NewFile
    case RelLock => MutexLock(IoMutex)
    case RelSuspend => PmPutIfBound
    case RelUnlock => MutexUnlock(IoMutex)
    case RelPut => KrefPut
    case ReadLock => MutexLock(IoMutex)
    case ReadCheck => LoadIface
    case ReadXfer => BulkMsg(t, th.call.count, c.bytes, c.status)
    case ReadCopy(n) => CopyToUser(t, n, c.Go?)
    case ReadUnlock(_) => MutexUnlock(IoMutex)
    case WrSize => Nothing
    case WrDown => Down(c.Go?)
    case WrUrb => AllocUrb(t, c.Go?)
    case WrBuf(u) => AllocBuffer(u, WriteSize(|th.call.data|), c.Go?)
    case WrCopy(u) => CopyFromUser(u, Outgoing(th.call), c.Go?)
    case WrLock(_) => MutexLock(IoMutex)
    case WrCheck(_) => LoadIface
    case WrSubmit(u) => Submit(u, WriteSize(|th.call.data|), c.Go?)
    case WrUnlock(_, _) => MutexUnlock(IoMutex)
    case WrDrop(u) => FreeUrb(u)
    case ErrBuf(u, _) => FreeBuffer(u, WriteSize(|th.call.data|))
    case ErrUrb(u, _) => FreeUrb(u)
    case ErrUp(_) => Up
    case DelUdev(_) => PutUdev
    case DelBuf(_) => FreeInBuf
    case DelDev(_) => FreeDev
  }

  /** Where the call goes next. */
  function Then(k: Shared, th: Thread, c: Choice): Pc
    requires Fits(th) && Offers(th.pc, c)
  {
    match th.pc
    case OpenLock => OpenFind
    case OpenFind => if c.Fail? then OpenMiss else OpenData
    case OpenData => if k.intfdata then OpenGet else OpenMiss
    case OpenMiss => Done(ENODEV)
    case OpenGet => OpenUnlock
    case OpenUnlock => OpenResume
    case OpenResume => if c.Fail? then OpenPut(c.err) else OpenSave
    case OpenPut(ret) => if k.kref == 1 then DelUdev(ret) else Done(ret)
    case OpenSave => Done(0)
    case RelLock => RelSuspend
    case RelSuspend => RelUnlock
    case RelUnlock => RelPut
    case RelPut => if k.kref == 1 then DelUdev(0) else Done(0)
    case ReadLock => ReadCheck
    case ReadCheck => if k.iface then ReadXfer else ReadUnlock(ENODEV)
    case ReadXfer => if c.status == 0 then ReadCopy(|c.bytes|) else ReadUnlock(c.status)
    case ReadCopy(n) => ReadUnlock(if c.Go? then n else EFAULT)
    case ReadUnlock(ret) => Done(ret)
    case WrSize => if th.call.data == [] then Done(0) else WrDown
    case WrDown => if c.Fail? then Done(ERESTARTSYS) else WrUrb
    case WrUrb => if c.Fail? then ErrUp(ENOMEM) else WrBuf(|k.urbs|)
    case WrBuf(u) => if c.Fail? then ErrBuf(u, ENOMEM) else WrCopy(u)
    case WrCopy(u) => if c.Fail? then ErrBuf(u, EFAULT) else WrLock(u)
    case WrLock(u) => WrCheck(u)
    case WrCheck(u) => if k.iface then WrSubmit(u) else WrUnlock(u, ENODEV)
    case WrSubmit(u) => WrUnlock(u, if c.Fail? then c.err else 0)
    case WrUnlock(u, ret) => if ret == 0 then WrDrop(u) else ErrBuf(u, ret)
    case WrDrop(_) => Done(WriteSize(|th.call.data|))
    case ErrBuf(u, ret) => ErrUrb(u, ret)
    case ErrUrb(_, ret) => ErrUp(ret)
    case ErrUp(ret) => Done(ret)
    case DelUdev(ret) => DelBuf(ret)
    case DelBuf(ret) => DelDev(ret)
    case DelDev(ret) => Done(ret)
  }

  function DiscAction(d: DiscPc): Op {
    match d
    case NotCalled => Nothing
    case Flush => WaitForUrbs
    case Lock => MutexLock(SkelOpenLock)
    case Clear => ClearData
    case Minor => FreeMinor
    case Unlock => MutexUnlock(SkelOpenLock)
    case IoLock => MutexLock(IoMutex)
    case Gone => ClearIface
    case IoUnlock => MutexUnlock(IoMutex)
    case Put => KrefPut
    case DropUdev => PutUdev
    case DropBuf => FreeInBuf
    case DropDev => FreeDev
    case Returned => Nothing
  }

  function DiscThen(k: Shared, d: DiscPc): DiscPc {
    match d
    case NotCalled => NotCalled
    case Flush => Lock
    case Lock => Clear
    case Clear => Minor
    case Minor => Unlock
    case Unlock => IoLock
    case IoLock => Gone
    case Gone => IoUnlock
    case IoUnlock => Put
    case Put => if k.kref == 1 then DropUdev else Returned
    case DropUdev => DropBuf
    case DropBuf => DropDev
    case DropDev => Returned
    case Returned => Returned
  }

  /** The callback frees the buffer by the length and pointer in the URB, then ups; then the core lets go of the URB. */
  function CompletionAction(b: Urb, u: nat): Op {
    match b.phase
    case InFlight => FreeBuffer(u, b.length)
    case BufferGone => Up
    case Upped => FreeUrb(u)
    case _ => Nothing
  }

  function CompletionThen(phase: Phase): Phase {
    match phase
    case InFlight => BufferGone
    case BufferGone => Upped
    case Upped => Retired
    case _ => phase
  }

  // ---------------------------------------------------------------- steps

  predicate Operating(th: Thread, f: nat) {
    (th.call.Read? || th.call.Write?) && th.call.file == f && !th.pc.Done?
  }

  predicate CanStep(s: State, t: nat, c: Choice) {
    && t < |s.threads|
    && Fits(s.threads[t]) && Offers(s.threads[t].pc, c)
    && Exists(s.k, Action(t, s.threads[t], c)) && CanDo(s.k, Action(t, s.threads[t], c))
  }

  predicate CanDisc(s: State) { !s.disc.NotCalled? && !s.disc.Returned? && CanDo(s.k, DiscAction(s.disc)) }

  predicate CanComplete(s: State, u: nat) {
    u < |s.k.urbs| && !s.k.urbs[u].phase.Idle? && !s.k.urbs[u].phase.Retired?
  }

  predicate Enabled(s: State, l: Label) {
    match l
    case CallOpen => true
    case CallRelease(f) =>
      f < |s.k.files| && s.k.files[f] && forall t :: 0 <= t < |s.threads| ==> !Operating(s.threads[t], f)
    case CallRead(f, _) => f < |s.k.files| && s.k.files[f]
    case CallWrite(f, _) => f < |s.k.files| && s.k.files[f]
    case Unplug => s.disc.NotCalled?
    case Step(t, c) => CanStep(s, t, c)
    case Complete(u) => CanComplete(s, u)
    case Disc => CanDisc(s)
  }

  function Enter(s: State, call: Call): State {
    var pc := match call
              case Open => OpenLock
              case Release(_) => RelLock
              case Read(_, _) => ReadLock
              case Write(_, _) => WrSize;
    s.(threads := s.threads + [Thread(call, pc)])
  }

  function StepNext(s: State, t: nat, c: Choice): State
    requires CanStep(s, t, c)
  {
    var th := s.threads[t];
    State(s.threads[t := Thread(th.call, Then(s.k, th, c))], s.disc, Apply(s.k, Caller(t), Action(t, th, c)))
  }

  function DiscNext(s: State): State
    requires CanDisc(s)
  {
    State(s.threads, DiscThen(s.k, s.disc), Apply(s.k, Disconnector, DiscAction(s.disc)))
  }

  function CompleteNext(s: State, u: nat): State
    requires CanComplete(s, u)
  {
    var b := s.k.urbs[u];
    s.(k := Apply(Apply(s.k, Nobody, CompletionAction(b, u)), Nobody, Advance(u, CompletionThen(b.phase))))
  }

  function Next(s: State, l: Label): State
    requires Enabled(s, l)
  {
    match l
    case CallOpen => Enter(s, Open)
    case CallRelease(f) => Enter(s.(k := Apply(s.k, Nobody, CloseFile(f))), Release(f))
    case CallRead(f, n) => Enter(s, Read(f, n))
    case CallWrite(f, data) => Enter(s, Write(f, data))
    case Unplug => s.(disc := Flush, k := Apply(s.k, Disconnector, DisableEndpoints))
    case Step(t, c) => StepNext(s, t, c)
    case Complete(u) => CompleteNext(s, u)
    case Disc => DiscNext(s)
  }

  /** The operation a step performs, and on whose behalf. */
  function OpOf(s: State, l: Label): Op
    requires Enabled(s, l)
  {
    match l
    case Step(t, c) => Action(t, s.threads[t], c)
    case Disc => DiscAction(s.disc)
    case Complete(u) => CompletionAction(s.k.urbs[u], u)
    case CallRelease(f) => CloseFile(f)
    case Unplug => DisableEndpoints
    case _ => Nothing
  }

  function WhoOf(l: Label): Owner {
    match l
    case Step(t, _) => Caller(t)
    case Disc => Disconnector
    case _ => Nobody
  }

  // ---------------------------------------------------------------- runs

  ghost predicate Legal(s: State, ls: seq<Label>)
    decreases |ls|
  {
    ls == [] || (Enabled(s, ls[0]) && Legal(Next(s, ls[0]), ls[1..]))
  }

  ghost function Exec(s: State, ls: seq<Label>): State
    requires Legal(s, ls)
    decreases |ls|
  {
    if ls == [] then s else Exec(Next(s, ls[0]), ls[1..])
  }
}
