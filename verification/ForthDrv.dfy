/**
 The button driver: interrupt handler, blocking reader and poll share `key_val` and `ev_press`. On the
 driver's single-processor board the handler runs to its end before the reader goes on, so it is one step;
 the reader can be interrupted between any two of its own.
 */
module ForthDrv {
  import opened Bytes

  const EINVAL := -22

  /** The code of each of the three pins, and the value the handler stores for a pin and its level. */
  type Pin = p: int | 0 <= p < 3

  function Encode(pin: Pin, level: bool): (v: byte)
    ensures v != 0 && (v >= 0x80 <==> level) && v % 0x80 == pin + 1
  {
    if level then 0x80 + pin + 1 else pin + 1
  }

  /** Where the reader is: outside the call, waiting for ev_press, about to copy, about to clear the flag. */
  datatype Reader = Idle | Waiting | Copying | Clearing

  /** A value handed to user space, and how many interrupts there had been by then. */
  datatype Got = Got(pos: nat, value: byte)

  datatype State = State(keyVal: byte, evPress: bool, reader: Reader, irqs: seq<byte>, got: seq<Got>)

  datatype Label =
    | Irq(pin: Pin, level: bool)
    | ReadCall(size: nat)
    | Wake(signal: bool)  // wait_event_interruptible returns; its value is not looked at
    | Copy
    | Clear
    | Poll

  const INIT := State(0, false, Idle, [], [])

  predicate Enabled(s: State, l: Label) {
    match l
    case Irq(_, _) => true
    case ReadCall(_) => s.reader.Idle?
    case Wake(signal) => s.reader.Waiting? && (s.evPress || signal)
    case Copy => s.reader.Copying?
    case Clear => s.reader.Clearing?
    case Poll => s.reader.Idle?
  }

  function Next(s: State, l: Label): State
    requires Enabled(s, l)
  {
    match l
    case Irq(pin, level) =>
      s.(keyVal := Encode(pin, level), evPress := true, irqs := s.irqs + [Encode(pin, level)])
    case ReadCall(size) => if size == 1 then s.(reader := Waiting) else s
    case Wake(_) => s.(reader := Copying)
    case Copy => s.(reader := Clearing, got := s.got + [Got(|s.irqs|, s.keyVal)])
    case Clear => s.(reader := Idle, evPress := false)
    case Poll => s
  }

  ghost predicate Legal(s: State, ls: seq<Label>)
    decreases |ls|
  {
    ls == [] || (Enabled(s, ls[0]) && Legal(Next(s, ls[0]), ls[1..]))
  }

  ghost function Exec(s: State, ls: seq<Label>): State
    requires Legal(s, ls)
    decreases |ls|
  {
    if ls == [] then s else Exec(Next(s, ls[0]), ls[1..])
  }

  lemma {:induction false} RunFront(s: State, ls: seq<Label>)
    requires Legal(s, ls) && ls != []
    ensures var front, l := ls[..|ls| - 1], ls[|ls| - 1];
            Legal(s, front) && Enabled(Exec(s, front), l) && Exec(s, ls) == Next(Exec(s, front), l)
    decreases |ls|
  {
    var front := ls[..|ls| - 1];
    if |ls| > 1 {
      assert front[1..] == ls[1..][..|ls| - 2];
      RunFront(Next(s, ls[0]), ls[1..]);
    }
  }

  lemma {:induction false} RunExtends(s: State, ls: seq<Label>, l: Label)
    requires Legal(s, ls) && Enabled(Exec(s, ls), l)
    ensures Legal(s, ls + [l]) && Exec(s, ls + [l]) == Next(Exec(s, ls), l)
    decreases |ls|
  {
    if ls == [] {
      assert [l][1..] == [];
    } else {
      assert (ls + [l])[1..] == ls[1..] + [l];
      RunExtends(Next(s, ls[0]), ls[1..], l);
    }
  }

  // ---------------------------------------------------------------- order of events

  function LastPos(got: seq<Got>): nat { if got == [] then 0 else got[|got| - 1].pos }

  /** The reads are at strictly increasing positions of the interrupt sequence, from the first on. */
  predicate InOrder(got: seq<Got>) {
    && (forall i :: 0 <= i < |got| ==> got[i].pos >= 1)
    && (forall i, j :: 0 <= i < j < |got| ==> got[i].pos < got[j].pos)
  }

  /** Every value read is the one stored by the interrupt at its position (0 if there had been none). */
  predicate Faithful(s: State) {
    && s.keyVal == (if s.irqs == [] then 0 else s.irqs[|s.irqs| - 1])
    && (forall i :: 0 <= i < |s.got| ==>
          s.got[i].pos <= |s.irqs| && s.got[i].value == if s.got[i].pos == 0 then 0 else s.irqs[s.got[i].pos - 1])
    && (forall i, j :: 0 <= i < j < |s.got| ==> s.got[i].pos <= s.got[j].pos)
  }

  /** An interrupt has come since the last copy. */
  predicate Unread(s: State) { LastPos(s.got) < |s.irqs| }

  /** What poll reports. */
  predicate Readable(s: State) { s.evPress }

  /** Set flag means unread event, except while the reader is between copy and clear. */
  predicate Inv(s: State) {
    && Faithful(s)
    && ((s.reader.Idle? || s.reader.Waiting?) && s.evPress ==> Unread(s))
  }

  lemma NextKeeps(s: State, l: Label)
    requires Inv(s) && Enabled(s, l)
    ensures Inv(Next(s, l))
  {
  }

  lemma {:induction false} RunKeeps(s: State, ls: seq<Label>)
    requires Inv(s) && Legal(s, ls)
    ensures Inv(Exec(s, ls))
    decreases |ls|
  {
    if ls != [] {
      NextKeeps(s, ls[0]);
      RunKeeps(Next(s, ls[0]), ls[1..]);
    }
  }

  lemma CopyInOrder(s: State)
    requires Inv(s) && s.reader.Copying?
    ensures InOrder(Next(s, Copy).got) <==> InOrder(s.got) && Unread(s)
  {
    var got' := Next(s, Copy).got;
    assert forall i :: 0 <= i < |s.got| ==> got'[i] == s.got[i];
    if InOrder(got') && s.got != [] {
      assert got'[|s.got| - 1].pos < got'[|s.got|].pos;
    }
  }

  /** The wait is over although the flag is not set: only a signal can do that. */
  predicate CutsShort(s: State, l: Label) { l == Wake(true) && !s.evPress }

  /**
   Each copy whose wait was cut short by a signal finds an event not yet read. `cut` is whether the reader,
   if it is about to copy, got there that way. Other copies are not asked anything.
   */
  ghost predicate CutCopiesFresh(s: State, ls: seq<Label>, cut: bool)
    requires Legal(s, ls)
    decreases |ls|
  {
    || ls == []
    || (&& (ls[0].Copy? && cut ==> Unread(s))
        && CutCopiesFresh(Next(s, ls[0]), ls[1..], if ls[0].Wake? then CutsShort(s, ls[0]) else cut))
  }

  lemma {:induction false} OrderIff(s: State, ls: seq<Label>, cut: bool)
    requires Inv(s) && Legal(s, ls) && (s.reader.Copying? && !cut ==> Unread(s))
    ensures InOrder(Exec(s, ls).got) <==> InOrder(s.got) && CutCopiesFresh(s, ls, cut)
    decreases |ls|
  {
    if ls != [] {
      NextKeeps(s, ls[0]);
      if ls[0].Copy? {
        CopyInOrder(s);
      }
      OrderIff(Next(s, ls[0]), ls[1..], if ls[0].Wake? then CutsShort(s, ls[0]) else cut);
    }
  }

  /**
   Exactly when the events of a run are reported in order and none twice: whenever a signal ends a wait with the
   flag clear, an event not yet read must be there by the copy. A read woken by the flag never repeats one.
   */
  lemma EventOrderIff(ls: seq<Label>)
    requires Legal(INIT, ls)
    ensures InOrder(Exec(INIT, ls).got) <==> CutCopiesFresh(INIT, ls, false)
  {
    OrderIff(INIT, ls, false);
  }

  /** No wait of the run is ended by a signal before the flag is set. */
  ghost predicate Undisturbed(s: State, ls: seq<Label>)
    requires Legal(s, ls)
    decreases |ls|
  {
    ls == [] || (!CutsShort(s, ls[0]) && Undisturbed(Next(s, ls[0]), ls[1..]))
  }

  lemma {:induction false} UndisturbedFresh(s: State, ls: seq<Label>)
    requires Legal(s, ls) && Undisturbed(s, ls)
    ensures CutCopiesFresh(s, ls, false)
    decreases |ls|
  {
    if ls != [] {
      UndisturbedFresh(Next(s, ls[0]), ls[1..]);
    }
  }

  /** What the buttons did over a run, in the bytes user space knows: the pin's number, and 0x80 for a high level. */
  function Pressed(ls: seq<Label>): seq<byte> {
    if ls == [] then
      []
    else
      (if ls[0].Irq? then [(if ls[0].level then 0x80 else 0) + ls[0].pin + 1] else []) + Pressed(ls[1..])
  }

  lemma {:induction false} IrqsRecorded(s: State, ls: seq<Label>)
    requires Legal(s, ls)
    ensures Exec(s, ls).irqs == s.irqs + Pressed(ls)
    decreases |ls|
  {
    if ls != [] {
      IrqsRecorded(Next(s, ls[0]), ls[1..]);
    }
  }

  /**
   The values read form a subsequence of the interrupts' values, at strictly increasing positions, whatever
   interrupts fall between the wake-up, the copy and the clearing of the flag.
   */
  lemma EventOrder(ls: seq<Label>)
    requires Legal(INIT, ls) && Undisturbed(INIT, ls)
    ensures var s := Exec(INIT, ls);
            && InOrder(s.got)
            && s.irqs == Pressed(ls)
            && forall i :: 0 <= i < |s.got| ==> s.got[i].pos <= |s.irqs| && s.got[i].value == s.irqs[s.got[i].pos - 1]
  {
    IrqsRecorded(INIT, ls);
    UndisturbedFresh(INIT, ls);
    EventOrderIff(ls);
    RunKeeps(INIT, ls);
  }

  // ---------------------------------------------------------------- one call of read

  /** What can happen between the call and the copy. */
  predicate WaitLabels(wait: seq<Label>) { forall i :: 0 <= i < |wait| ==> wait[i].Irq? || wait[i].Wake? }

  /** A read of one byte up to its copy. */
  function OneRead(wait: seq<Label>): seq<Label> { [ReadCall(1)] + wait + [Copy] }

  predicate HasIrq(ls: seq<Label>) { exists i :: 0 <= i < |ls| && ls[i].Irq? }

  lemma HasIrqFirst(ls: seq<Label>)
    requires ls != []
    ensures HasIrq(ls) <==> ls[0].Irq? || HasIrq(ls[1..])
  {
    if i :| 0 <= i < |ls[1..]| && ls[1..][i].Irq? {
      assert ls[i + 1].Irq?;
    }
    if i :| 0 < i < |ls| && ls[i].Irq? {
      assert ls[1..][i - 1].Irq?;
    }
  }

  /** The wait itself: it copies nothing, and without an interrupt or a flag only a signal ends it. */
  lemma {:induction false} WaitEnds(s: State, wait: seq<Label>)
    requires Legal(s, wait) && WaitLabels(wait) && (s.reader.Waiting? || s.reader.Copying?)
    ensures var e := Exec(s, wait);
            && e.got == s.got && |e.irqs| >= |s.irqs| && (|e.irqs| > |s.irqs| <==> HasIrq(wait))
            && (s.reader.Waiting? && e.reader.Copying? && !s.evPress && !HasIrq(wait) ==> Wake(true) in wait)
    decreases |wait|
  {
    if wait != [] {
      HasIrqFirst(wait);
      WaitEnds(Next(s, wait[0]), wait[1..]);
    }
  }

  lemma ReadSplits(s: State, wait: seq<Label>)
    requires Legal(s, OneRead(wait)) && s.reader.Idle?
    ensures var s1 := Next(s, ReadCall(1));
            && Legal(s1, wait) && Exec(s1, wait).reader.Copying?
            && Exec(s, OneRead(wait)) == Next(Exec(s1, wait), Copy)
  {
    var ls := OneRead(wait);
    assert ls[1..] == wait + [Copy] && (wait + [Copy])[..|wait|] == wait;
    RunFront(Next(s, ReadCall(1)), wait + [Copy]);
  }

  /** What one way a read can go does to the order; it goes wrong only by a signal. */
  lemma ReadInOrder(s: State, wait: seq<Label>)
    requires Inv(s) && s.reader.Idle? && InOrder(s.got) && WaitLabels(wait) && Legal(s, OneRead(wait))
    ensures InOrder(Exec(s, OneRead(wait)).got) <==> Unread(s) || HasIrq(wait)
    ensures !InOrder(Exec(s, OneRead(wait)).got) ==> Wake(true) in wait && !Readable(s)
  {
    var s1 := Next(s, ReadCall(1));
    ReadSplits(s, wait);
    WaitEnds(s1, wait);
    NextKeeps(s, ReadCall(1));
    RunKeeps(s1, wait);
    CopyInOrder(Exec(s1, wait));
  }

  /** With nothing unread, a signal and no interrupt make the read report an old event. */
  lemma SignalRead(s: State)
    requires Inv(s) && s.reader.Idle? && InOrder(s.got) && !Unread(s)
    ensures Legal(s, OneRead([Wake(true)])) && !InOrder(Exec(s, OneRead([Wake(true)])).got)
  {
    RunExtends(s, [], ReadCall(1));
    RunExtends(s, [ReadCall(1)], Wake(true));
    RunExtends(s, [ReadCall(1), Wake(true)], Copy);
    assert [] + [ReadCall(1)] == [ReadCall(1)];
    assert [ReadCall(1)] + [Wake(true)] == [ReadCall(1), Wake(true)];
    assert [ReadCall(1), Wake(true)] + [Copy] == OneRead([Wake(true)]);
    ReadInOrder(s, [Wake(true)]);
  }

  /**
   What a caller must know before it calls read for every way the read can go, signals included, to report a
   new event: that one has not been read yet. Poll saying readable is enough.
   */
  lemma NextReadIff(before: seq<Label>)
    requires Legal(INIT, before) && Exec(INIT, before).reader.Idle? && InOrder(Exec(INIT, before).got)
    ensures var s := Exec(INIT, before);
            && ((forall wait :: WaitLabels(wait) && Legal(s, OneRead(wait)) ==> InOrder(Exec(s, OneRead(wait)).got))
                <==> Unread(s))
            && (Readable(s) ==> Unread(s))
  {
    var s := Exec(INIT, before);
    RunKeeps(INIT, before);
    if Unread(s) {
      forall wait | WaitLabels(wait) && Legal(s, OneRead(wait)) ensures InOrder(Exec(s, OneRead(wait)).got) {
        ReadInOrder(s, wait);
      }
    } else {
      SignalRead(s);
      assert WaitLabels([Wake(true)]);
    }
  }

  lemma Extend(ls: seq<Label>, l: Label) returns (longer: seq<Label>)
    requires Legal(INIT, ls) && Enabled(Exec(INIT, ls), l)
    ensures Legal(INIT, longer) && Exec(INIT, longer) == Next(Exec(INIT, ls), l)
  {
    RunExtends(INIT, ls, l);
    longer := ls + [l];
  }

  /** A read of any other size is refused at once: the reader is not inside it, and nothing has been read or cleared. */
  lemma RefusedRead(before: seq<Label>, size: nat)
    requires Legal(INIT, before + [ReadCall(size)]) && size != 1
    ensures Legal(INIT, before) && Exec(INIT, before + [ReadCall(size)]) == Exec(INIT, before)
    ensures Exec(INIT, before).reader.Idle?
  {
    RunFront(INIT, before + [ReadCall(size)]);
    assert (before + [ReadCall(size)])[..|before|] == before;
  }

  /** A read of one byte waits until the flag is set or a signal comes, and copies only then. */
  lemma AcceptedRead(before: seq<Label>)
    requires Legal(INIT, before) && Exec(INIT, before).reader.Idle?
    ensures Legal(INIT, before + [ReadCall(1)])
    ensures var s, s' := Exec(INIT, before), Exec(INIT, before + [ReadCall(1)]);
            && s' == s.(reader := Waiting) && !Enabled(s', Copy) && !Enabled(s', Clear)
            && Enabled(s', Wake(true)) && (Enabled(s', Wake(false)) <==> Readable(s))
  {
    RunExtends(INIT, before, ReadCall(1));
  }

  /** Poll can be called whenever the reader is outside read, and changes nothing. */
  lemma PollIsFree(before: seq<Label>)
    requires Legal(INIT, before) && Exec(INIT, before).reader.Idle?
    ensures Legal(INIT, before + [Poll]) && Exec(INIT, before + [Poll]) == Exec(INIT, before)
  {
    RunExtends(INIT, before, Poll);
  }

  /** A signal during the second wait makes the driver report the first event again: the wait's result is ignored. */
  lemma SignalRepeatsEvent() returns (ls: seq<Label>)
    ensures Legal(INIT, ls) && !InOrder(Exec(INIT, ls).got)
    ensures var got := Exec(INIT, ls).got; |got| == 2 && got[0] == got[1]
  {
    ls := [];
    ls := Extend(ls, Irq(0, false));
    ls := Extend(ls, ReadCall(1));
    ls := Extend(ls, Wake(false));
    ls := Extend(ls, Copy);
    ls := Extend(ls, Clear);
    ls := Extend(ls, ReadCall(1));
    ls := Extend(ls, Wake(true));
    ls := Extend(ls, Copy);
    var got := Exec(INIT, ls).got;
    assert got == [Got(1, Encode(0, false)), Got(1, Encode(0, false))];
    assert !(got[0].pos < got[1].pos);
  }

  // ---------------------------------------------------------------- coalescing and poll

  /** The index of the last label of a kind, or -1. */
  function Last(ls: seq<Label>, kind: Label -> bool): (i: int)
    ensures -1 <= i < |ls|
  {
    if ls == [] then -1 else if kind(ls[|ls| - 1]) then |ls| - 1 else Last(ls[..|ls| - 1], kind)
  }

  predicate IsCopy(l: Label) { l.Copy? }

  predicate IsClear(l: Label) { l.Clear? }

  /** An interrupt came after the label at `lo` and before the one at `hi`. */
  predicate IrqIn(ls: seq<Label>, lo: int, hi: int)
    requires -1 <= lo && hi <= |ls|
  {
    exists i :: lo < i < hi && ls[i].Irq?
  }

  /** An interrupt fell between the last copy and its clear, and none has come since. */
  predicate LostOne(ls: seq<Label>) {
    var copy, clear := Last(ls, IsCopy), Last(ls, IsClear);
    copy < clear && IrqIn(ls, copy, clear) && !IrqIn(ls, clear, |ls|)
  }

  /** What the labels so far say of the state. */
  ghost predicate Tracks(s: State, ls: seq<Label>) {
    var copy, clear := Last(ls, IsCopy), Last(ls, IsClear);
    if s.reader.Clearing? then clear < copy && (Unread(s) <==> IrqIn(ls, copy, |ls|))
    else copy <= clear && (Unread(s) && !s.evPress <==> LostOne(ls))
  }

  lemma IrqInMore(ls: seq<Label>, l: Label, lo: int, hi: int)
    requires -1 <= lo && hi <= |ls|
    ensures IrqIn(ls + [l], lo, hi) == IrqIn(ls, lo, hi)
    ensures IrqIn(ls + [l], lo, |ls| + 1) <==> IrqIn(ls, lo, |ls|) || (l.Irq? && lo < |ls|)
  {
    var more := ls + [l];
    if i :| lo < i < hi && ls[i].Irq? {
      assert more[i].Irq?;
    }
    if i :| lo < i < |ls| && ls[i].Irq? {
      assert more[i].Irq?;
    }
    if l.Irq? && lo < |ls| {
      assert more[|ls|].Irq?;
    }
  }

  lemma TracksStep(s: State, ls: seq<Label>, l: Label)
    requires Inv(s) && Enabled(s, l) && Tracks(s, ls)
    ensures Tracks(Next(s, l), ls + [l])
  {
    assert (ls + [l])[..|ls|] == ls;
    var copy, clear := Last(ls, IsCopy), Last(ls, IsClear);
    IrqInMore(ls, l, copy, if copy < clear then clear else |ls|);
    IrqInMore(ls, l, clear, |ls|);
  }

  lemma {:induction false} RunTracks(ls: seq<Label>)
    requires Legal(INIT, ls)
    ensures Tracks(Exec(INIT, ls), ls)
    decreases |ls|
  {
    if ls != [] {
      var front, l := ls[..|ls| - 1], ls[|ls| - 1];
      RunFront(INIT, ls);
      RunTracks(front);
      RunKeeps(INIT, front);
      TracksStep(Exec(INIT, front), front, l);
      assert ls == front + [l];
    }
  }

  /**
   Unless the reader is between copy and clear: an event is unread and unannounced exactly when an interrupt
   fell between the last copy and its clear and none has come since.
   */
  lemma LostInTheWindow(ls: seq<Label>)
    requires Legal(INIT, ls) && !Exec(INIT, ls).reader.Clearing?
    ensures var s := Exec(INIT, ls); Unread(s) && !Readable(s) <==> LostOne(ls)
  {
    RunTracks(ls);
  }

  lemma {:induction false} FlagStays(s: State, ls: seq<Label>)
    requires Legal(s, ls) && s.evPress && forall i :: 0 <= i < |ls| ==> !ls[i].Clear?
    ensures Exec(s, ls).evPress
    decreases |ls|
  {
    if ls != [] {
      FlagStays(Next(s, ls[0]), ls[1..]);
    }
  }

  /**
   Once poll has said readable, nothing but the reader's own clear unsays it, and a read entered before that
   does not block.
   */
  lemma PollIsStable(s: State, ls: seq<Label>)
    requires Readable(s) && Legal(s, ls) && forall i :: 0 <= i < |ls| ==> !ls[i].Clear?
    ensures var t := Exec(s, ls); Readable(t) && (t.reader.Waiting? ==> Enabled(t, Wake(false)))
  {
    FlagStays(s, ls);
  }

  /** And poll does not promise what a read cannot deliver: between reads, readable means an event not yet read. */
  lemma PollMeansUnread(ls: seq<Label>)
    requires Legal(INIT, ls) && Exec(INIT, ls).reader.Idle? && Readable(Exec(INIT, ls))
    ensures Unread(Exec(INIT, ls))
  {
    RunKeeps(INIT, ls);
  }

  // ---------------------------------------------------------------- the driver

  class Buttons {
    var keyVal: byte
    var evPress: bool
    ghost var reader: Reader
    ghost var irqs: seq<byte>
    ghost var got: seq<Got>

    ghost function View(): State
      reads this
    {
      State(keyVal, evPress, reader, irqs, got)
    }

    ghost predicate Valid()
      reads this
    {
      Inv(View())
    }

    constructor ()
      ensures Valid() && View() == INIT
    {
      keyVal, evPress, reader, irqs, got := 0, false, Idle, [], [];
    }

    method ButtonsIrq(pin: Pin, pinval: bool)
      requires Valid()
      modifies this
      ensures Valid() && View() == Next(old(View()), Irq(pin, pinval))
      ensures keyVal == (if pinval then 0x80 else 0) + pin + 1 && evPress && reader == old(reader) && got == old(got)
    {
      if pinval {
        keyVal := 0x80 + (pin + 1);
      } else {
        keyVal := pin + 1;
      }
      evPress := true;
      irqs := irqs + [keyVal];
    }

    /** The call is refused at once unless one byte is asked for. */
    method ReadCheckSize(size: nat) returns (ret: int)
      requires Valid() && reader.Idle?
      modifies this
      ensures Valid() && View() == Next(old(View()), ReadCall(size))
      ensures ret == if size != 1 then -22 else 0
      ensures size != 1 ==> View() == old(View())
      ensures size == 1 ==> View() == old(View()).(reader := Waiting)
    {
      if size != 1 {
        return EINVAL;
      }
      reader := Waiting;
      return 0;
    }

    method ReadWait(signal: bool)
      requires Valid() && Enabled(View(), Wake(signal))
      modifies this
      ensures Valid() && View() == Next(old(View()), Wake(signal))
    {
      reader := Copying;
    }

    method ReadCopy() returns (user: byte)
      requires Valid() && reader.Copying?
      modifies this
      ensures Valid() && View() == Next(old(View()), Copy)
      ensures user == got[|got| - 1].value
    {
      user := keyVal;
      got := got + [Got(|irqs|, keyVal)];
      reader := Clearing;
    }

    method ReadClear() returns (ret: int)
      requires Valid() && reader.Clearing?
      modifies this
      ensures Valid() && View() == Next(old(View()), Clear) && ret == 1
    {
      evPress := false;
      reader := Idle;
      ret := 1;
    }

    method DrvPoll() returns (readable: bool)
      requires Valid()
      ensures readable == Readable(View())
      ensures readable && reader.Idle? ==> Unread(View())
    {
      readable := evPress;
    }
  }
}
