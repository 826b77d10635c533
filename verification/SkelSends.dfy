/**
 What reaches the device, in order: the submissions of a run are those of the writes that succeed, each with the
 first bytes of its own data, and writes one after the other are submitted one after the other.
 */
module SkelSends {
  import opened Bytes
  import opened SkelModel
  import opened SkelInvariant
  import opened SkelResults
  import SkelKeeps
  import SkelRuns
  import Sums

  /** A successful submission: who made it, of which URB, and the bytes in its buffer at that moment. */
  datatype Sent = Sent(t: nat, u: nat, bytes: seq<byte>)

  function SentBy(s: State, l: Label): seq<Sent>
    requires Enabled(s, l)
  {
    if l.Step? then
      var op := Action(l.t, s.threads[l.t], l.choice);
      if op.Submit? && op.ok then [Sent(l.t, op.u, s.k.urbs[op.u].data)] else []
    else
      []
  }

  /** The submissions of a run. They are made under io_mutex, so this is the order in which the writers held it. */
  ghost function Submissions(s: State, ls: seq<Label>): seq<Sent>
    requires Legal(s, ls)
    decreases |ls|
  {
    if ls == [] then [] else SentBy(s, ls[0]) + Submissions(Next(s, ls[0]), ls[1..])
  }

  predicate Describes(x: Sent, s: State) {
    && x.u < |s.k.urbs| && s.k.urbs[x.u].writer == x.t
    && !s.k.urbs[x.u].phase.Idle? && s.k.urbs[x.u].data == x.bytes
  }

  predicate Names(log: seq<Sent>, u: nat) { exists i :: 0 <= i < |log| && log[i].u == u }

  /** The log names exactly the URBs that have been submitted, each once, with what they carry. */
  ghost predicate Recorded(log: seq<Sent>, s: State) {
    && (forall i :: 0 <= i < |log| ==> Describes(log[i], s))
    && (forall i, j :: 0 <= i < j < |log| ==> log[i].u != log[j].u)
    && (forall u :: 0 <= u < |s.k.urbs| && !s.k.urbs[u].phase.Idle? ==> Names(log, u))
  }

  // ---------------------------------------------------------------- every step

  /** URBs submitted before are as they were; the ones submitted by the step are those it logs. */
  ghost predicate Follows(s: State, s': State, sent: seq<Sent>) {
    && |s.k.urbs| <= |s'.k.urbs| && |sent| <= 1
    && (forall u :: 0 <= u < |s.k.urbs| && !s.k.urbs[u].phase.Idle? ==>
          && !s'.k.urbs[u].phase.Idle?
          && s'.k.urbs[u].writer == s.k.urbs[u].writer && s'.k.urbs[u].data == s.k.urbs[u].data)
    && (forall u :: 0 <= u < |s'.k.urbs| && !s'.k.urbs[u].phase.Idle? ==>
          (u < |s.k.urbs| && !s.k.urbs[u].phase.Idle?) || (sent != [] && sent[0].u == u))
    && (sent != [] ==>
          Describes(sent[0], s') && sent[0].u < |s.k.urbs| && s.k.urbs[sent[0].u].phase.Idle?)
  }

  lemma HeldMoves(t: nat, th: Thread, c: Choice, b: Urb, u: nat)
    requires Fits(th) && Offers(th.pc, c) && UrbOf(th.pc) == Some(u) && UrbFits(b, u, th, true)
    ensures var op := Action(t, th, c);
            var b' := if Target(op).Some? then UrbAfter(b, op) else b;
            && b'.writer == b.writer && (!b.phase.Idle? ==> !b'.phase.Idle? && b'.data == b.data)
            && (if op.Submit? && op.ok then op.u == u && b.phase.Idle? && !b'.phase.Idle? && b'.data == b.data
                else b'.phase.Idle? == b.phase.Idle?)
  {
  }

  lemma HolderFollows(s: State, t: nat, c: Choice, u: nat)
    requires Inv(s) && CanStep(s, t, c) && UrbOf(s.threads[t].pc) == Some(u)
    ensures Follows(s, StepNext(s, t, c), SentBy(s, Step(t, c)))
  {
    SkelKeeps.ActionKind(s.k, t, s.threads[t], c);
    SkelKeeps.HeldUrb(s, t);
    HeldMoves(t, s.threads[t], c, s.k.urbs[u], u);
    var op := Action(t, s.threads[t], c);
    assert StepNext(s, t, c).k.urbs == if Target(op).Some? then s.k.urbs[u := UrbAfter(s.k.urbs[u], op)] else s.k.urbs;
  }

  lemma NoUrbFollows(s: State, t: nat, c: Choice)
    requires Inv(s) && CanStep(s, t, c) && UrbOf(s.threads[t].pc).None?
    ensures Follows(s, StepNext(s, t, c), SentBy(s, Step(t, c)))
  {
    assert LocalOk(s.k, s.threads[t]);
    SkelKeeps.ActionKind(s.k, t, s.threads[t], c);
    SkelKeeps.UrbStarts(s.k, t, s.threads[t], c);
  }

  lemma StepFollows(s: State, t: nat, c: Choice)
    requires Inv(s) && CanStep(s, t, c)
    ensures Follows(s, StepNext(s, t, c), SentBy(s, Step(t, c)))
  {
    match UrbOf(s.threads[t].pc)
    case None => NoUrbFollows(s, t, c);
    case Some(u) => HolderFollows(s, t, c, u);
  }

  lemma CompleteFollows(s: State, u: nat)
    requires CanComplete(s, u)
    ensures Follows(s, CompleteNext(s, u), [])
  {
    SkelKeeps.CompleteShape(s, u);
  }

  lemma OtherFollows(s: State, l: Label)
    requires Enabled(s, l) && !l.Step? && !l.Complete?
    ensures Follows(s, Next(s, l), [])
  {
  }

  lemma NextFollows(s: State, l: Label)
    requires Inv(s) && Enabled(s, l)
    ensures Follows(s, Next(s, l), SentBy(s, l))
  {
    match l
    case Step(t, c) => StepFollows(s, t, c);
    case Complete(u) => CompleteFollows(s, u);
    case _ => OtherFollows(s, l);
  }

  lemma FollowsRecorded(s: State, s': State, log: seq<Sent>, sent: seq<Sent>)
    requires Recorded(log, s) && Follows(s, s', sent)
    ensures Recorded(log + sent, s')
  {
    var log' := log + sent;
    forall i | 0 <= i < |log'| ensures Describes(log'[i], s') {
      if i < |log| {
        assert Describes(log[i], s);
      }
    }
    forall i, j | 0 <= i < j < |log'| ensures log'[i].u != log'[j].u {
      assert Describes(log[i], s);
    }
    forall u | 0 <= u < |s'.k.urbs| && !s'.k.urbs[u].phase.Idle? ensures Names(log', u) {
      if u < |s.k.urbs| && !s.k.urbs[u].phase.Idle? {
        var i :| 0 <= i < |log| && log[i].u == u;
        assert log'[i].u == u;
      } else {
        assert log'[|log|].u == u;
      }
    }
  }

  lemma {:induction false} RunRecorded(s: State, ls: seq<Label>, log: seq<Sent>)
    requires Inv(s) && Legal(s, ls) && Recorded(log, s)
    ensures Recorded(log + Submissions(s, ls), Exec(s, ls))
    decreases |ls|
  {
    if ls == [] {
      assert log + [] == log;
    } else {
      var s', sent := Next(s, ls[0]), SentBy(s, ls[0]);
      NextFollows(s, ls[0]);
      FollowsRecorded(s, s', log, sent);
      SkelKeeps.NextKeeps(s, ls[0]);
      RunRecorded(s', ls[1..], log + sent);
      Sums.Regroup(log, sent, Submissions(s', ls[1..]));
    }
  }

  // ---------------------------------------------------------------- the write stream

  predicate Sends(log: seq<Sent>, t: nat) { exists i :: 0 <= i < |log| && log[i].t == t }

  lemma ReachedRecorded(buf: seq<byte>, ls: seq<Label>)
    requires Legal(Init(buf), ls)
    ensures Recorded(Submissions(Init(buf), ls), Exec(Init(buf), ls))
  {
    InitInv(buf);
    RunRecorded(Init(buf), ls, []);
    assert [] + Submissions(Init(buf), ls) == Submissions(Init(buf), ls);
  }

  lemma EntryIsOwnData(s: State, x: Sent)
    requires Inv(s) && Describes(x, s)
    ensures x.t < |s.threads| && s.threads[x.t].call.Write? && x.bytes == Outgoing(s.threads[x.t].call)
  {
    assert UrbOk(s, x.u);
  }

  lemma WriterSends(s: State, log: seq<Sent>, t: nat)
    requires Results(s) && Recorded(log, s) && t < |s.threads| && s.threads[t].call.Write? && s.threads[t].pc.Done?
    ensures Sends(log, t) <==> s.threads[t].pc.ret > 0
  {
    var ret := s.threads[t].pc.ret;
    assert Finished(s.threads[t]) && WriteResult(s, t, ret);
    if ret > 0 {
      var u :| 0 <= u < |s.k.urbs| && s.k.urbs[u].writer == t;
      assert Names(log, u);
      var i :| 0 <= i < |log| && log[i].u == u;
      assert Describes(log[i], s);
    }
    if i :| 0 <= i < |log| && log[i].t == t {
      assert Describes(log[i], s);
    }
  }

  lemma OneEach(s: State, log: seq<Sent>)
    requires OneUrb(s) && Recorded(log, s)
    ensures forall i, j :: 0 <= i < j < |log| ==> log[i].t != log[j].t
  {
    forall i, j | 0 <= i < j < |log| ensures log[i].t != log[j].t {
      assert Describes(log[i], s) && Describes(log[j], s);
    }
  }

  /**
   The bytes submitted over a run are, in the order in which io_mutex was held, the first min(count, 3584) bytes
   of different writes' data; a finished write is among them exactly if it returned a positive count.
   */
  lemma WriteStream(buf: seq<byte>, ls: seq<Label>)
    requires Legal(Init(buf), ls)
    ensures var e, log := Exec(Init(buf), ls), Submissions(Init(buf), ls);
            && (forall i :: 0 <= i < |log| ==>
                  && log[i].t < |e.threads| && e.threads[log[i].t].call.Write?
                  && var data := e.threads[log[i].t].call.data; log[i].bytes == data[..Min(|data|, 3584)])
            && (forall i, j :: 0 <= i < j < |log| ==> log[i].t != log[j].t)
            && (forall t :: 0 <= t < |e.threads| && e.threads[t].call.Write? && e.threads[t].pc.Done? ==>
                  (Sends(log, t) <==> e.threads[t].pc.ret > 0))
  {
    var e, log := Exec(Init(buf), ls), Submissions(Init(buf), ls);
    SkelRuns.Reached(buf, ls);
    ReachedRecorded(buf, ls);
    forall i | 0 <= i < |log|
      ensures log[i].t < |e.threads| && e.threads[log[i].t].call.Write?
      ensures log[i].bytes == Outgoing(e.threads[log[i].t].call)
    {
      EntryIsOwnData(e, log[i]);
    }
    OneEach(e, log);
    forall t | 0 <= t < |e.threads| && e.threads[t].call.Write? && e.threads[t].pc.Done?
      ensures Sends(log, t) <==> e.threads[t].pc.ret > 0
    {
      WriterSends(e, log, t);
    }
  }

  // ---------------------------------------------------------------- one after the other

  lemma {:induction false} SubmissionsSplit(s: State, a: seq<Label>, b: seq<Label>)
    requires Legal(s, a + b) && Legal(s, a) && Legal(Exec(s, a), b)
    ensures Submissions(s, a + b) == Submissions(s, a) + Submissions(Exec(s, a), b)
    decreases |a|
  {
    if a == [] {
      assert a + b == b;
    } else {
      var s' := Next(s, a[0]);
      assert (a + b)[0] == a[0] && (a + b)[1..] == a[1..] + b;
      SubmissionsSplit(s', a[1..], b);
      Sums.Regroup(SentBy(s, a[0]), Submissions(s', a[1..]), Submissions(Exec(s, a), b));
    }
  }

  /** A write made after another one has returned its count is sent after it. */
  lemma WritesKeepOrder(buf: seq<byte>, before: seq<Label>, after: seq<Label>, t: nat, j: nat)
    requires Legal(Init(buf), before) && Legal(Exec(Init(buf), before), after)
    requires var s := Exec(Init(buf), before);
             t < |s.threads| && s.threads[t].call.Write? && s.threads[t].pc.Done? && s.threads[t].pc.ret > 0
    requires Legal(Init(buf), before + after)
    requires var log := Submissions(Init(buf), before + after);
             j < |log| && log[j].t >= |Exec(Init(buf), before).threads|
    ensures var log := Submissions(Init(buf), before + after);
            exists i :: 0 <= i < j && log[i].t == t
  {
    var first, log := Submissions(Init(buf), before), Submissions(Init(buf), before + after);
    SubmissionsSplit(Init(buf), before, after);
    WriteStream(buf, before);
    assert Sends(first, t);
    var i :| 0 <= i < |first| && first[i].t == t;
    assert forall k :: 0 <= k < |first| ==> log[k] == first[k];
  }
}
