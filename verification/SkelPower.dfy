/**
 The autosuspend count. It balances while the device is there; skel_release gives its count back only while
 dev->interface is set, so what is outstanding when skel_disconnect clears the field is never given back.
 Exactly which disconnects leave the count unbalanced, and a run that does.
 */
module SkelPower {
  import opened Bytes
  import opened Sums
  import opened SkelModel
  import opened SkelInvariant
  import opened SkelDrain
  import SkelKeeps
  import SkelProgress
  import SkelRuns

  /** Opens that got their autosuspend count and have not come to the place in skel_release that gives it back. */
  function Outstanding(s: State): nat { Sum(PmW, s.threads) + Sum(FileW, s.k.files) }

  function ResumeW(th: Thread): nat { One(th.pc.OpenGet? || th.pc.OpenUnlock? || th.pc.OpenResume?) }

  /** Opens that have found the device and are still to ask for their autosuspend count. */
  function Resuming(s: State): nat { Sum(ResumeW, s.threads) }

  lemma PowerBalanced(buf: seq<byte>, ls: seq<Label>)
    requires Legal(Init(buf), ls) && Exec(Init(buf), ls).k.iface
    ensures Exec(Init(buf), ls).k.pm == Outstanding(Exec(Init(buf), ls))
  {
    SkelRuns.Reached(buf, ls);
  }

  // ---------------------------------------------------------------- after the disconnect

  /** The step is a successful usb_autopm_get_interface. */
  predicate Resumes(s: State, l: Label)
    requires Enabled(s, l)
  {
    var op := OpOf(s, l);
    op.PmGet? && op.ok
  }

  /** How many opens resume the device during the run. */
  ghost function Resumed(s: State, ls: seq<Label>): nat
    requires Legal(s, ls)
    decreases |ls|
  {
    if ls == [] then 0 else One(Resumes(s, ls[0])) + Resumed(Next(s, ls[0]), ls[1..])
  }

  lemma GoneStep(s: State, l: Label)
    requires Enabled(s, l) && !s.k.iface && !s.k.intfdata
    ensures var s' := Next(s, l); !s'.k.iface && !s'.k.intfdata && s'.k.pm == s.k.pm + One(Resumes(s, l))
  {
  }

  lemma ResumePcs(k: Shared, t: nat, th: Thread, c: Choice)
    requires Fits(th) && Offers(th.pc, c) && !k.intfdata
    ensures var x, op := Thread(th.call, Then(k, th, c)), Action(t, th, c);
            ResumeW(x) + One(op.PmGet? && op.ok) <= ResumeW(th)
  {
  }

  lemma ResumingStep(s: State, l: Label)
    requires Enabled(s, l) && !s.k.intfdata
    ensures Resuming(Next(s, l)) + One(Resumes(s, l)) <= Resuming(s)
  {
    if l.Step? {
      ResumePcs(s.k, l.t, s.threads[l.t], l.choice);
      SumUpdate(ResumeW, s.threads, l.t, Next(s, l).threads[l.t]);
    } else if !l.Complete? && !l.Disc? && !l.Unplug? {
      SumAppend(ResumeW, s.threads, Next(s, l).threads[|s.threads|]);
    }
  }

  /** Nothing is given back any more; only opens that had already found the device can still add to the count. */
  lemma {:induction false} GoneRun(s: State, ls: seq<Label>)
    requires Legal(s, ls) && !s.k.iface && !s.k.intfdata
    ensures Exec(s, ls).k.pm == s.k.pm + Resumed(s, ls) && Resumed(s, ls) <= Resuming(s)
    decreases |ls|
  {
    if ls != [] {
      GoneStep(s, ls[0]);
      ResumingStep(s, ls[0]);
      GoneRun(Next(s, ls[0]), ls[1..]);
    }
  }

  lemma Clearing(s: State)
    requires Inv(s) && s.disc.Gone?
    ensures CanDisc(s)
    ensures var s' := DiscNext(s);
            && Inv(s') && !s'.k.iface && !s'.k.intfdata && Rank(s'.disc) > Rank(Gone)
            && s'.threads == s.threads && s'.k.files == s.k.files && s'.k.pm == Outstanding(s)
  {
    SkelKeeps.DiscKeeps(s);
  }

  /**
   From the step that clears dev->interface on, the count is what was outstanding then plus the opens that
   resumed later; so once everything is released it is balanced if and only if there were none of either.
   */
  lemma PowerAfterDisconnect(buf: seq<byte>, before: seq<Label>, after: seq<Label>)
    requires Legal(Init(buf), before) && Exec(Init(buf), before).disc.Gone?
    requires Legal(DiscNext(Exec(Init(buf), before)), after)
    ensures var s := Exec(Init(buf), before);
            var resumed, e := Resumed(DiscNext(s), after), Exec(DiscNext(s), after);
            && e.k.pm == Outstanding(s) + resumed
            && resumed <= Resuming(s)
            && (Outstanding(e) == 0 ==> (e.k.pm == 0 <==> Outstanding(s) == 0 && resumed == 0))
  {
    SkelRuns.Reached(buf, before);
    Clearing(Exec(Init(buf), before));
    GoneRun(DiscNext(Exec(Init(buf), before)), after);
  }

  // ---------------------------------------------------------------- exactly when

  lemma PastClearing(s: State)
    requires Inv(s) && Rank(s.disc) > Rank(Gone)
    ensures !s.k.iface && !s.k.intfdata && s.k.pm >= 0
  {
  }

  lemma Finishes(s: State) returns (ls: seq<Label>)
    requires Inv(s) && Rank(s.disc) > Rank(Gone)
    ensures Legal(s, ls) && Calm(Exec(s, ls)) && Exec(s, ls).disc.Returned?
  {
    var a := DiscFinishes(s);
    SkelRuns.RunInv(s, a);
    var b := Drain(Exec(s, a));
    SkelRuns.RunsJoin(s, a, b);
    ls := a + b;
  }

  /** A positive count left by the disconnect outlives every call and file. */
  lemma Outlives(s: State) returns (ls: seq<Label>)
    requires Inv(s) && Rank(s.disc) > Rank(Gone) && s.k.pm > 0
    ensures Legal(s, ls) && Calm(Exec(s, ls)) && Exec(s, ls).k.pm > 0
  {
    PastClearing(s);
    ls := Finishes(s);
    GoneRun(s, ls);
  }

  lemma ResumesNow(s: State, t: nat)
    requires Inv(s) && t < |s.threads| && s.threads[t].pc.OpenResume?
    ensures CanStep(s, t, Go) && StepNext(s, t, Go).k.pm == s.k.pm + 1 && StepNext(s, t, Go).disc == s.disc
  {
    assert LocalOk(s.k, s.threads[t]);
  }

  lemma UnlocksFirst(s: State, t: nat)
    requires Inv(s) && t < |s.threads| && s.threads[t].pc.OpenUnlock?
    ensures CanStep(s, t, Go)
    ensures var s' := StepNext(s, t, Go);
            t < |s'.threads| && s'.threads[t].pc.OpenResume? && s'.disc == s.disc && s'.k.pm == s.k.pm
  {
    assert LocalOk(s.k, s.threads[t]);
  }

  /** An open that has dropped skel_open_lock, or is about to, can get its count although the device is gone. */
  lemma ResumesLate(s: State, t: nat) returns (ls: seq<Label>)
    requires Inv(s) && Rank(s.disc) > Rank(Gone) && t < |s.threads| && ResumeW(s.threads[t]) > 0
    ensures Legal(s, ls) && Exec(s, ls).disc == s.disc && Exec(s, ls).k.pm > 0
    decreases if s.threads[t].pc.OpenResume? then 0 else 1
  {
    PastClearing(s);
    assert LocalOk(s.k, s.threads[t]);
    if s.threads[t].pc.OpenResume? {
      ResumesNow(s, t);
      ls := Prepend(s, Step(t, Go), []);
    } else {
      UnlocksFirst(s, t);
      SkelKeeps.StepKeeps(s, t, Go);
      ls := ResumesLate(StepNext(s, t, Go), t);
      ls := Prepend(s, Step(t, Go), ls);
    }
  }

  lemma Leaks(s: State) returns (after: seq<Label>)
    requires Inv(s) && s.disc.Gone? && (Outstanding(s) > 0 || Resuming(s) > 0)
    ensures Legal(DiscNext(s), after) && Calm(Exec(DiscNext(s), after)) && Exec(DiscNext(s), after).k.pm > 0
  {
    Clearing(s);
    var s' := DiscNext(s);
    if Outstanding(s) > 0 {
      after := Outlives(s');
    } else {
      var t := SumWitness(ResumeW, s'.threads);
      var a := ResumesLate(s', t);
      SkelRuns.RunInv(s', a);
      var b := Outlives(Exec(s', a));
      SkelRuns.RunsJoin(s', a, b);
      after := a + b;
    }
  }

  /**
   What skel_disconnect would have to find when it clears dev->interface for the count to be balanced in the
   end, however the run goes on: no open outstanding, and none on its way between its kref_get and its get.
   */
  lemma PowerExactly(buf: seq<byte>, before: seq<Label>)
    requires Legal(Init(buf), before) && Exec(Init(buf), before).disc.Gone?
    ensures var s := Exec(Init(buf), before);
            (forall after :: Legal(DiscNext(s), after) && Calm(Exec(DiscNext(s), after)) ==>
               Exec(DiscNext(s), after).k.pm == 0)
            <==> Outstanding(s) == 0 && Resuming(s) == 0
  {
    var s := Exec(Init(buf), before);
    SkelRuns.Reached(buf, before);
    if Outstanding(s) == 0 && Resuming(s) == 0 {
      forall after | Legal(DiscNext(s), after) ensures Exec(DiscNext(s), after).k.pm == 0 {
        PowerAfterDisconnect(buf, before, after);
      }
    } else {
      var after := Leaks(s);
    }
  }

  // ---------------------------------------------------------------- the get that comes too late

  predicate AboutToGet(s: State, t: nat) { t < |s.threads| && s.threads[t].pc.OpenResume? }

  /** skel_disconnect has returned, and an open is about to pass the interface to usb_autopm_get_interface. */
  ghost predicate GetsAfterReturn(s: State) { s.disc.Returned? && exists t :: AboutToGet(s, t) }

  ghost predicate CanGetLate(s: State) { exists after :: Legal(s, after) && GetsAfterReturn(Exec(s, after)) }

  lemma DiscStep(s: State)
    requires CanDisc(s) && Rank(s.disc) >= Rank(Clear)
    ensures Rank(DiscNext(s).disc) > Rank(s.disc) && DiscNext(s).threads == s.threads
  {
  }

  /** The disconnect can be held up only by a call inside io_mutex, and that call can go on. */
  lemma DiscOrOwner(s: State, t: nat) returns (l: Label)
    requires Inv(s) && Rank(s.disc) >= Rank(Clear) && !s.disc.Returned? && AboutToGet(s, t)
    ensures Enabled(s, l) && (l.Disc? || (l.Step? && l.t != t))
  {
    if s.disc.IoLock? && !s.k.ioMutex.Nobody? {
      assert LockOwned(s, IoMutex);
      l := SkelProgress.OwnerMoves(s, IoMutex);
    } else {
      l := Disc;
    }
  }

  lemma StillAboutToGet(s: State, l: Label, t: nat)
    requires Enabled(s, l) && AboutToGet(s, t) && Rank(s.disc) >= Rank(Clear) && (l.Disc? || (l.Step? && l.t != t))
    ensures AboutToGet(Next(s, l), t) && Rank(Next(s, l).disc) >= Rank(Clear)
  {
    if l.Disc? {
      DiscStep(s);
    }
  }

  /** The disconnect can run to its end while the open stays where it is. */
  lemma {:induction false} DiscPassesOpen(s: State, t: nat) returns (ls: seq<Label>)
    requires Inv(s) && Rank(s.disc) >= Rank(Clear) && AboutToGet(s, t)
    ensures Legal(s, ls) && GetsAfterReturn(Exec(s, ls))
    decreases SkelProgress.Measure(s)
  {
    ls := [];
    if !s.disc.Returned? {
      var l := DiscOrOwner(s, t);
      StillAboutToGet(s, l, t);
      SkelProgress.MeasureMoves(s, l);
      SkelKeeps.NextKeeps(s, l);
      ls := DiscPassesOpen(Next(s, l), t);
      ls := Prepend(s, l, ls);
    }
  }

  /** With the lock in the disconnect's hands, or the data cleared, no open comes past its own look at the data. */
  lemma NoneJoins(k: Shared, t: nat, th: Thread, c: Choice)
    requires Fits(th) && Offers(th.pc, c) && (!k.intfdata || !th.pc.OpenData?)
    ensures ResumeW(Thread(th.call, Then(k, th, c))) <= ResumeW(th)
  {
  }

  lemma StepNoneJoins(s: State, t: nat, c: Choice)
    requires LockOwned(s, SkelOpenLock) && Published(s) && CanStep(s, t, c) && Rank(s.disc) >= Rank(Clear)
    ensures Resuming(StepNext(s, t, c)) <= Resuming(s)
  {
    NoneJoins(s.k, t, s.threads[t], c);
    SumUpdate(ResumeW, s.threads, t, StepNext(s, t, c).threads[t]);
  }

  lemma NoneComesLate(s: State, l: Label)
    requires Inv(s) && Enabled(s, l) && Rank(s.disc) >= Rank(Clear) && Resuming(s) == 0
    ensures Resuming(Next(s, l)) == 0 && Rank(Next(s, l).disc) >= Rank(Clear)
  {
    if l.Step? {
      StepNoneJoins(s, l.t, l.choice);
    } else if l.Disc? {
      DiscStep(s);
    } else if !l.Complete? && !l.Unplug? {
      SumAppend(ResumeW, s.threads, Next(s, l).threads[|s.threads|]);
    }
  }

  lemma {:induction false} NoneComesInTheRun(s: State, ls: seq<Label>)
    requires Inv(s) && Legal(s, ls) && Rank(s.disc) >= Rank(Clear) && Resuming(s) == 0
    ensures Resuming(Exec(s, ls)) == 0
    decreases |ls|
  {
    if ls != [] {
      NoneComesLate(s, ls[0]);
      SkelKeeps.NextKeeps(s, ls[0]);
      NoneComesInTheRun(Next(s, ls[0]), ls[1..]);
    }
  }

  lemma NoneToCome(s: State)
    requires Inv(s) && s.disc.Clear? && forall t :: !AboutToGet(s, t)
    ensures Resuming(s) == 0
  {
    assert LockOwned(s, SkelOpenLock);
    forall t | 0 <= t < |s.threads| ensures ResumeW(s.threads[t]) == 0 {
      assert !AboutToGet(s, t);
    }
    SumZero(ResumeW, s.threads);
  }

  lemma NoLateGet(s: State, after: seq<Label>)
    requires Inv(s) && s.disc.Clear? && Legal(s, after) && forall t :: !AboutToGet(s, t)
    ensures !GetsAfterReturn(Exec(s, after))
  {
    NoneToCome(s);
    NoneComesInTheRun(s, after);
    var e := Exec(s, after);
    if t :| AboutToGet(e, t) {
      SumAtLeast(ResumeW, e.threads, t);
    }
  }

  lemma NeverGetsLate(s: State)
    requires Inv(s) && s.disc.Clear? && forall t :: !AboutToGet(s, t)
    ensures !CanGetLate(s)
  {
    forall after | Legal(s, after) ensures !GetsAfterReturn(Exec(s, after)) {
      NoLateGet(s, after);
    }
  }

  lemma GetsLate(s: State, t: nat)
    requires Inv(s) && s.disc.Clear? && AboutToGet(s, t)
    ensures CanGetLate(s)
  {
    var after := DiscPassesOpen(s, t);
  }

  /**
   skel_open_lock keeps an open from finding the device after the disconnect has cleared the data, but not from
   using the interface: when the disconnect holds the lock and is about to clear the data, an open can still make its
   get after skel_disconnect has returned if and only if one has dropped the lock and not made it yet.
   */
  lemma LateGetIff(buf: seq<byte>, before: seq<Label>)
    requires Legal(Init(buf), before) && Exec(Init(buf), before).disc.Clear?
    ensures var s := Exec(Init(buf), before); CanGetLate(s) <==> exists t :: AboutToGet(s, t)
  {
    var s := Exec(Init(buf), before);
    SkelRuns.Reached(buf, before);
    if t :| AboutToGet(s, t) {
      GetsLate(s, t);
    } else {
      NeverGetsLate(s);
    }
  }

  // ---------------------------------------------------------------- a run that leaks

  /** The disconnect on its way to clearing dev->interface, with one file open. */
  function PluggedOut(buf: seq<byte>, d: DiscPc): State {
    var s := Opened(buf);
    s.(disc := d,
       k := s.k.(openLock := if InsideD(SkelOpenLock, d) then Disconnector else Nobody,
                 ioMutex := if InsideD(IoMutex, d) then Disconnector else Nobody,
                 intfdata := Before(d, Clear), minor := Before(d, Minor), disabled := true))
  }

  lemma DiscGoes(buf: seq<byte>, d: DiscPc)
    requires Rank(Flush) <= Rank(d) < Rank(Gone)
    ensures var s := PluggedOut(buf, d);
            && CanDisc(s) && DiscNext(s) == PluggedOut(buf, DiscThen(s.k, d))
            && Rank(DiscThen(s.k, d)) == Rank(d) + 1
  {
  }

  lemma {:induction false} DiscOn(buf: seq<byte>, d: DiscPc) returns (ls: seq<Label>)
    requires Rank(Flush) <= Rank(d) <= Rank(Gone)
    ensures Legal(PluggedOut(buf, d), ls) && Exec(PluggedOut(buf, d), ls) == PluggedOut(buf, Gone)
    decreases 13 - Rank(d)
  {
    ls := [];
    if !d.Gone? {
      DiscGoes(buf, d);
      ls := DiscOn(buf, DiscThen(PluggedOut(buf, d).k, d));
      ls := Prepend(PluggedOut(buf, d), Disc, ls);
    }
  }

  /** The device is unplugged while one file is open; disconnect has come to the clearing of dev->interface. */
  lemma OpenThenUnplug(buf: seq<byte>) returns (ls: seq<Label>)
    ensures Legal(Init(buf), ls) && Exec(Init(buf), ls) == PluggedOut(buf, Gone)
  {
    var a := OpenRun(buf);
    var b := DiscOn(buf, Flush);
    assert Next(Opened(buf), Unplug) == PluggedOut(buf, Flush);
    b := Prepend(Opened(buf), Unplug, b);
    SkelRuns.RunsJoin(Init(buf), a, b);
    ls := a + b;
  }

  lemma OneOpen(buf: seq<byte>)
    ensures Outstanding(PluggedOut(buf, Gone)) == 1 && Resuming(PluggedOut(buf, Gone)) == 0
  {
    var s := PluggedOut(buf, Gone);
    SumAppend(FileW, [], true);
    assert [] + [true] == s.k.files;
    SumZero(PmW, s.threads);
    SumZero(ResumeW, s.threads);
  }

  lemma CalmHolds(s: State)
    requires Calm(s)
    ensures Outstanding(s) == 0
  {
    SumZero(PmW, s.threads);
    SumZero(FileW, s.k.files);
  }

  /** One open, the device unplugged, the file released: everything is finished, and the count is still 1. */
  lemma CountLeaks(buf: seq<byte>) returns (before: seq<Label>, after: seq<Label>)
    ensures Legal(Init(buf), before) && Exec(Init(buf), before).disc.Gone?
    ensures var s := Exec(Init(buf), before);
            && Legal(DiscNext(s), after)
            && var e := Exec(DiscNext(s), after);
               Calm(e) && e.disc.Returned? && Outstanding(e) == 0 && e.k.pm == 1
  {
    before := OpenThenUnplug(buf);
    var s := PluggedOut(buf, Gone);
    SkelRuns.Reached(buf, before);
    Clearing(s);
    after := Finishes(DiscNext(s));
    OneOpen(buf);
    PowerAfterDisconnect(buf, before, after);
    CalmHolds(Exec(DiscNext(s), after));
  }
}
