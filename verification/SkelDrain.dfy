/**
 From any state the calls under way can be brought to their end and every file released, by steps of the calls
 and releases alone: no completion and no step of the disconnect is needed, whatever permits the URBs hold.
 And two short runs from the start that the counterexamples of SkelPower and SkelWait begin with.
 */
module SkelDrain {
  import opened Bytes
  import opened Sums
  import opened SkelModel
  import opened SkelInvariant
  import opened SkelProgress
  import SkelKeeps
  import SkelRuns

  /** No call is under way and no file is open. */
  predicate Calm(s: State) {
    && (forall t :: 0 <= t < |s.threads| ==> s.threads[t].pc.Done?)
    && (forall f :: 0 <= f < |s.k.files| ==> !s.k.files[f])
  }

  /** The disconnect holds no lock. */
  predicate HandsFree(d: DiscPc) { !InsideD(SkelOpenLock, d) && !InsideD(IoMutex, d) }

  predicate Drains(l: Label) { l.Step? || l.CallRelease? }

  /** A writer waiting for a permit gives up at a signal; any other call moves, or another one holds its lock. */
  lemma CallMoves(s: State, t: nat) returns (l: Label)
    requires Inv(s) && t < |s.threads| && !s.threads[t].pc.Done?
    requires s.k.openLock.Nobody? && s.k.ioMutex.Nobody?
    ensures Enabled(s, l) && l.Step?
  {
    if s.threads[t].pc.WrDown? {
      assert LocalOk(s.k, s.threads[t]);
      l := Step(t, Fail(ERESTARTSYS));
    } else {
      OnlyWaitersWait(s, t);
      l := Step(t, Usual(s.threads[t].pc));
    }
  }

  lemma CallOwnerMoves(s: State, m: Mutex) returns (l: Label)
    requires Inv(s) && HandsFree(s.disc) && !OwnerOf(s.k, m).Nobody?
    ensures Enabled(s, l) && l.Step?
  {
    assert LockOwned(s, m);
    l := OwnerMoves(s, m);
  }

  lemma SomethingDrains(s: State) returns (l: Label)
    requires Inv(s) && HandsFree(s.disc) && !Calm(s)
    ensures Enabled(s, l) && Drains(l)
  {
    if !s.k.openLock.Nobody? {
      l := CallOwnerMoves(s, SkelOpenLock);
    } else if !s.k.ioMutex.Nobody? {
      l := CallOwnerMoves(s, IoMutex);
    } else if t: nat :| t < |s.threads| && !s.threads[t].pc.Done? {
      l := CallMoves(s, t);
    } else {
      var f :| 0 <= f < |s.k.files| && s.k.files[f];
      l := CallRelease(f);
    }
  }

  // ---------------------------------------------------------------- it comes to an end

  function OpenW(th: Thread): nat { One(th.call.Open? && !th.pc.Done?) }

  function OpensLeft(s: State): nat { Sum(OpenW, s.threads) }

  function FilesLeft(s: State): nat { Sum(FileW, s.k.files) }

  /** An open may leave a file, a file costs a release, and every step counts. */
  ghost predicate Closer(s: State, s': State) {
    || OpensLeft(s') < OpensLeft(s)
    || (OpensLeft(s') == OpensLeft(s) && FilesLeft(s') < FilesLeft(s))
    || (OpensLeft(s') == OpensLeft(s) && FilesLeft(s') == FilesLeft(s) && Measure(s') < Measure(s))
  }

  lemma OpenEnds(k: Shared, t: nat, th: Thread, c: Choice)
    requires LocalOk(k, th) && Offers(th.pc, c)
    ensures var x, op := Thread(th.call, Then(k, th, c)), Action(t, th, c);
            OpenW(x) <= OpenW(th) && (op.NewFile? ==> OpenW(x) < OpenW(th)) && !op.CloseFile?
  {
  }

  lemma StepCloser(s: State, t: nat, c: Choice)
    requires Inv(s) && CanStep(s, t, c)
    ensures Closer(s, StepNext(s, t, c))
  {
    var s' := StepNext(s, t, c);
    assert LocalOk(s.k, s.threads[t]);
    OpenEnds(s.k, t, s.threads[t], c);
    SumUpdate(OpenW, s.threads, t, s'.threads[t]);
    StepDecreases(s, t, c);
  }

  lemma ReleaseCloser(s: State, f: nat)
    requires Enabled(s, CallRelease(f))
    ensures Closer(s, Next(s, CallRelease(f)))
  {
    SumAppend(OpenW, s.threads, Thread(Release(f), RelLock));
    SumUpdate(FileW, s.k.files, f, false);
  }

  lemma DrainCloser(s: State, l: Label)
    requires Inv(s) && Enabled(s, l) && Drains(l)
    ensures Closer(s, Next(s, l)) && Next(s, l).disc == s.disc
  {
    match l
    case Step(t, c) => StepCloser(s, t, c);
    case CallRelease(f) => ReleaseCloser(s, f);
    case _ =>
  }

  // ---------------------------------------------------------------- URBs in flight stay so

  ghost predicate StillPending(s: State, s': State) {
    |s.k.urbs| <= |s'.k.urbs| && forall u :: 0 <= u < |s.k.urbs| && Pending(s.k.urbs[u]) ==> Pending(s'.k.urbs[u])
  }

  lemma StepLeavesPending(s: State, t: nat, c: Choice)
    requires Inv(s) && CanStep(s, t, c)
    ensures StillPending(s, StepNext(s, t, c))
  {
    SkelKeeps.ActionKind(s.k, t, s.threads[t], c);
    if UrbOf(s.threads[t].pc).Some? {
      SkelKeeps.HeldUrb(s, t);
    }
  }

  lemma DrainLeavesPending(s: State, l: Label)
    requires Inv(s) && Enabled(s, l) && Drains(l)
    ensures StillPending(s, Next(s, l))
  {
    if l.Step? {
      StepLeavesPending(s, l.t, l.choice);
    }
  }

  lemma Prepend(s: State, l: Label, rest: seq<Label>) returns (ls: seq<Label>)
    requires Enabled(s, l) && Legal(Next(s, l), rest)
    ensures Legal(s, ls) && Exec(s, ls) == Exec(Next(s, l), rest)
  {
    ls := [l] + rest;
    assert ls[1..] == rest;
  }

  /** All calls can be finished and all files released without any completion, and without the disconnect. */
  lemma {:induction false} Drain(s: State) returns (ls: seq<Label>)
    requires Inv(s) && HandsFree(s.disc)
    ensures Legal(s, ls)
    ensures var e := Exec(s, ls); Inv(e) && Calm(e) && e.disc == s.disc && StillPending(s, e)
    decreases OpensLeft(s), FilesLeft(s), Measure(s)
  {
    ls := [];
    if !Calm(s) {
      var l := SomethingDrains(s);
      SkelKeeps.NextKeeps(s, l);
      DrainCloser(s, l);
      DrainLeavesPending(s, l);
      ls := Drain(Next(s, l));
      ls := Prepend(s, l, ls);
    }
  }

  lemma DiscGoesOn(s: State)
    requires Rank(s.disc) > Rank(Gone) && !s.disc.Returned?
    ensures CanDisc(s) && Rank(DiscNext(s).disc) > Rank(s.disc)
  {
  }

  /** Past the clearing of the interface nothing can hold the disconnect up. */
  lemma {:induction false} DiscFinishes(s: State) returns (ls: seq<Label>)
    requires Rank(s.disc) > Rank(Gone)
    ensures Legal(s, ls) && Exec(s, ls).disc.Returned?
    decreases 13 - Rank(s.disc)
  {
    ls := [];
    if !s.disc.Returned? {
      DiscGoesOn(s);
      ls := DiscFinishes(DiscNext(s));
      ls := Prepend(s, Disc, ls);
    }
  }

  // ---------------------------------------------------------------- two runs from the start

  lemma Extend(s0: State, ls: seq<Label>, l: Label) returns (longer: seq<Label>)
    requires Legal(s0, ls) && Enabled(Exec(s0, ls), l)
    ensures Legal(s0, longer) && Exec(s0, longer) == Next(Exec(s0, ls), l)
  {
    longer := ls + [l];
    assert [l][1..] == [];
    SkelRuns.RunsJoin(s0, ls, [l]);
  }

  /** A first open that finds the device, on its way, with nothing else happening. */
  function OpenAt(buf: seq<byte>, pc: Pc): State {
    var got := RefW(Thread(Open, pc)) == 1 || pc.Done?;
    State([Thread(Open, pc)], NotCalled,
          Shared(if pc.Done? then [true] else [], [], if Inside(SkelOpenLock, pc) then Caller(0) else Nobody, Nobody,
                 if got then 2 else 1, WRITES_IN_FLIGHT, true, true, true, false,
                 if pc.OpenSave? || pc.Done? then 1 else 0, 0, 1, buf, 0, 0, [], []))
  }

  /** One file has been opened, and nothing else has happened. */
  function Opened(buf: seq<byte>): State { OpenAt(buf, Done(0)) }

  lemma OpenGoesOn(buf: seq<byte>, pc: Pc)
    requires OpenPc(pc) && !pc.OpenMiss? && !pc.OpenPut?
    ensures var s := OpenAt(buf, pc);
            && CanStep(s, 0, Go) && StepNext(s, 0, Go) == OpenAt(buf, Then(s.k, s.threads[0], Go))
  {
    var s := OpenAt(buf, pc);
    assert StepNext(s, 0, Go).threads == [Thread(Open, Then(s.k, s.threads[0], Go))];
  }

  lemma {:induction false} OpenFrom(buf: seq<byte>, pc: Pc) returns (ls: seq<Label>)
    requires (OpenPc(pc) && !pc.OpenMiss? && !pc.OpenPut?) || pc == Done(0)
    ensures Legal(OpenAt(buf, pc), ls) && Exec(OpenAt(buf, pc), ls) == Opened(buf)
    decreases PcRank(pc)
  {
    ls := [];
    if !pc.Done? {
      OpenGoesOn(buf, pc);
      var s := OpenAt(buf, pc);
      ls := OpenFrom(buf, Then(s.k, s.threads[0], Go));
      ls := Prepend(s, Step(0, Go), ls);
    }
  }

  lemma OpenRun(buf: seq<byte>) returns (ls: seq<Label>)
    ensures Legal(Init(buf), ls) && Exec(Init(buf), ls) == Opened(buf)
  {
    assert Next(Init(buf), CallOpen) == OpenAt(buf, OpenLock);
    ls := OpenFrom(buf, OpenLock);
    ls := Prepend(Init(buf), CallOpen, ls);
  }
}
