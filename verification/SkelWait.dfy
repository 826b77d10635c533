/**
 Why the USB core must let the URBs finish before it calls skel_disconnect: a URB holds no reference on the
 device. Without that wait the callback of a URB whose file has been released acts on a deleted device.
 */
module SkelWait {
  import opened Bytes
  import opened Sums
  import opened SkelModel
  import opened SkelInvariant
  import opened SkelSafety
  import opened SkelDrain
  import SkelKeeps
  import SkelReach
  import SkelRuns

  /** Only the disconnect is at work, past the wait; its reference is the last. */
  predicate Sweeping(s: State) {
    && Rank(s.disc) >= Rank(Lock)
    && s.k.openLock == (if InsideD(SkelOpenLock, s.disc) then Disconnector else Nobody)
    && s.k.ioMutex == (if InsideD(IoMutex, s.disc) then Disconnector else Nobody)
    && s.k.kref == RegW(s.disc)
    && s.k.devFrees == One(s.disc.Returned?)
  }

  lemma SweepStep(s: State)
    requires Sweeping(s) && !s.disc.Returned?
    ensures CanDisc(s) && Sweeping(DiscNext(s)) && DiscNext(s).k.urbs == s.k.urbs
    ensures Rank(DiscNext(s).disc) > Rank(s.disc)
  {
  }

  /** Left to itself, the disconnect deletes the device; the URBs are where they were. */
  lemma {:induction false} Sweep(s: State) returns (ls: seq<Label>)
    requires Sweeping(s)
    ensures Legal(s, ls)
    ensures var e := Exec(s, ls); e.disc.Returned? && e.k.devFrees == 1 && e.k.urbs == s.k.urbs
    decreases 13 - Rank(s.disc)
  {
    ls := [];
    if !s.disc.Returned? {
      SweepStep(s);
      ls := Sweep(DiscNext(s));
      ls := Prepend(s, Disc, ls);
    }
  }

  /** The callback of a URB in flight is about to, or after its next step will, act on freed memory. */
  predicate ActsOnFreed(s: State, u: nat) {
    && CanComplete(s, u)
    && if s.k.urbs[u].phase.InFlight? then
         && CanComplete(CompleteNext(s, u), u)
         && !Safe(CompleteNext(s, u).k, Nobody, CompletionAction(CompleteNext(s, u).k.urbs[u], u))
       else
         !Safe(s.k, Nobody, CompletionAction(s.k.urbs[u], u))
  }

  lemma TooLate(s: State, u: nat)
    requires s.k.devFrees == 1 && u < |s.k.urbs| && Pending(s.k.urbs[u])
    ensures ActsOnFreed(s, u)
  {
  }

  // ---------------------------------------------------------------- a core that does not wait

  /** skel_disconnect is called without waiting for the URBs. */
  function Hurry(s: State): State { s.(disc := Lock) }

  /** From `s`, a run of a core that goes on without the wait after `a`; its `b` ends at a callback on freed memory. */
  ghost predicate GoesWrong(s: State, a: seq<Label>, b: seq<Label>, u: nat) {
    && Legal(s, a) && Exec(s, a).disc.Flush?
    && Legal(Hurry(Exec(s, a)), b) && ActsOnFreed(Exec(Hurry(Exec(s, a)), b), u)
  }

  lemma StartsSweep(s: State)
    requires Inv(s) && s.disc.Flush? && Calm(s)
    ensures Sweeping(Hurry(s))
  {
    SumZero(RefW, s.threads);
    SumZero(FileW, s.k.files);
    assert LockOwned(s, SkelOpenLock) && LockOwned(s, IoMutex);
  }

  /** Whatever else is going on, a URB in flight lets a core that does not wait run into its callback. */
  lemma WaitIsNeeded(s: State, u: nat) returns (a: seq<Label>, b: seq<Label>)
    requires Inv(s) && s.disc.Flush? && u < |s.k.urbs| && Pending(s.k.urbs[u])
    ensures GoesWrong(s, a, b, u)
  {
    a := Drain(s);
    StartsSweep(Exec(s, a));
    b := Sweep(Hurry(Exec(s, a)));
    TooLate(Exec(Hurry(Exec(s, a)), b), u);
  }

  // ---------------------------------------------------------------- and exactly then

  ghost predicate NonePending(s: State) { forall u :: 0 <= u < |s.k.urbs| ==> !Pending(s.k.urbs[u]) }

  lemma StepSubmitsNone(s: State, t: nat, c: Choice)
    requires Inv(s) && CanStep(s, t, c) && s.k.disabled && NonePending(s)
    ensures NonePending(StepNext(s, t, c))
  {
    SkelKeeps.ActionKind(s.k, t, s.threads[t], c);
  }

  lemma CompletesNone(s: State, u: nat)
    requires CanComplete(s, u) && NonePending(s)
    ensures NonePending(CompleteNext(s, u))
  {
    SkelKeeps.CompleteShape(s, u);
  }

  lemma StaysDisabled(s: State, l: Label)
    requires Enabled(s, l) && s.k.disabled
    ensures Next(s, l).k.disabled
    ensures !l.Step? && !l.Complete? ==> Next(s, l).k.urbs == s.k.urbs
  {
  }

  lemma SubmitsNone(s: State, l: Label)
    requires Inv(s) && Enabled(s, l) && s.k.disabled && NonePending(s)
    ensures NonePending(Next(s, l)) && Next(s, l).k.disabled
  {
    StaysDisabled(s, l);
    match l
    case Step(t, c) => StepSubmitsNone(s, t, c);
    case Complete(u) => CompletesNone(s, u);
    case _ =>
  }

  lemma {:induction false} StaysIdle(s: State, ls: seq<Label>)
    requires Inv(s) && Legal(s, ls) && s.k.disabled && NonePending(s)
    ensures NonePending(Exec(s, ls))
    decreases |ls|
  {
    if ls != [] {
      SubmitsNone(s, ls[0]);
      SkelKeeps.NextKeeps(s, ls[0]);
      StaysIdle(Next(s, ls[0]), ls[1..]);
    }
  }

  lemma HurryIsDisc(s: State)
    requires Inv(s) && s.disc.Flush? && NonePending(s)
    ensures CanDisc(s) && DiscNext(s) == Hurry(s) && Inv(Hurry(s))
  {
    SkelKeeps.DiscKeeps(s);
  }

  lemma NeverOnFreed(s: State, u: nat)
    requires Inv(s)
    ensures !ActsOnFreed(s, u)
  {
    if CanComplete(s, u) {
      CompletionSafe(s, u);
      SkelKeeps.CompleteKeeps(s, u);
      if CanComplete(CompleteNext(s, u), u) {
        CompletionSafe(CompleteNext(s, u), u);
      }
    }
  }

  lemma NoHarm(s: State, a: seq<Label>, b: seq<Label>, u: nat)
    requires Inv(s) && s.disc.Flush? && NonePending(s)
    ensures !GoesWrong(s, a, b, u)
  {
    if GoesWrong(s, a, b, u) {
      var e := Exec(s, a);
      SkelRuns.RunInv(s, a);
      StaysIdle(s, a);
      HurryIsDisc(e);
      SkelRuns.RunInv(Hurry(e), b);
      NeverOnFreed(Exec(Hurry(e), b), u);
    }
  }

  lemma NeverHarm(s: State)
    requires Inv(s) && s.disc.Flush? && NonePending(s)
    ensures forall a, b, u :: !GoesWrong(s, a, b, u)
  {
    forall a, b, u: nat ensures !GoesWrong(s, a, b, u) {
      NoHarm(s, a, b, u);
    }
  }

  lemma PendingHarms(s: State)
    requires Inv(s) && s.disc.Flush? && !NonePending(s)
    ensures exists a, b, u :: GoesWrong(s, a, b, u)
  {
    var u :| 0 <= u < |s.k.urbs| && Pending(s.k.urbs[u]);
    var a, b := WaitIsNeeded(s, u);
  }

  /**
   What the core's wait tests is exactly what is needed: a core that goes on without waiting can run into a
   callback on a freed device if and only if a URB is in flight, whatever calls and open files there are.
   */
  lemma WaitIsExact(s: State)
    requires Inv(s) && s.disc.Flush?
    ensures (exists a, b, u :: GoesWrong(s, a, b, u)) <==> !CanDo(s.k, WaitForUrbs)
  {
    if NonePending(s) {
      NeverHarm(s);
    } else {
      PendingHarms(s);
    }
  }

  // ---------------------------------------------------------------- a run that shows it

  /** A file is opened, a write on it submits its URB, and the device is unplugged before the URB completes. */
  lemma PendingAtUnplug(buf: seq<byte>, data: seq<byte>) returns (ls: seq<Label>, u: nat)
    requires data != []
    ensures Legal(Init(buf), ls)
    ensures var e := Exec(Init(buf), ls); e.disc.Flush? && u < |e.k.urbs| && Pending(e.k.urbs[u])
  {
    ls := SkelReach.EightInFlight(buf, data, 1);
    u := SumWitness(UrbW, Exec(Init(buf), ls).k.urbs);
    ls := Extend(Init(buf), ls, Unplug);
  }

  /** So without the wait the driver has a run, from a successful probe, to a callback on a freed device. */
  lemma WithoutTheWait(buf: seq<byte>, data: seq<byte>)
    returns (before: seq<Label>, a: seq<Label>, b: seq<Label>, u: nat)
    requires data != []
    ensures Legal(Init(buf), before) && GoesWrong(Exec(Init(buf), before), a, b, u)
  {
    before, u := PendingAtUnplug(buf, data);
    SkelRuns.Reached(buf, before);
    a, b := WaitIsNeeded(Exec(Init(buf), before), u);
  }
}
