/** What comes from the device, and what becomes of it: the input stream, the shared buffer, and the deliveries. */
module SkelStream {
  import opened Bytes
  import opened Sums
  import opened SkelModel
  import opened SkelInvariant
  import SkelRuns

  function XferBytes(xs: seq<Xfer>): seq<byte> {
    if xs == [] then [] else xs[0].bytes + XferBytes(xs[1..])
  }

  function LogBytes(ds: seq<Delivery>): seq<byte> {
    if ds == [] then [] else ds[0].bytes + LogBytes(ds[1..])
  }

  lemma {:induction false} SameStream(xs: seq<Xfer>, ds: seq<Delivery>, rest: seq<Xfer>)
    requires |xs| == |ds| && forall i :: 0 <= i < |ds| ==> SameChunk(xs[i], ds[i])
    ensures XferBytes(xs + rest) == LogBytes(ds) + XferBytes(rest)
  {
    if xs == [] {
      assert xs + rest == rest;
    } else {
      assert SameChunk(xs[0], ds[0]);
      assert (xs + rest)[1..] == xs[1..] + rest;
      forall i | 0 <= i < |ds[1..]| ensures SameChunk(xs[1..][i], ds[1..][i]) {
        assert SameChunk(xs[i + 1], ds[i + 1]);
      }
      SameStream(xs[1..], ds[1..], rest);
    }
  }

  /** The chunk a reader has received and not yet copied out. */
  function InHand(s: State): seq<byte> {
    if Copying(s) then s.k.inBuf[..Min(s.threads[s.k.ioMutex.t].pc.n, |s.k.inBuf|)] else []
  }

  lemma BufferStep(s: State, l: Label)
    requires Enabled(s, l)
    ensures |Next(s, l).k.inBuf| == |s.k.inBuf|
  {
  }

  lemma {:induction false} BufferSize(s: State, ls: seq<Label>)
    requires Legal(s, ls)
    ensures |Exec(s, ls).k.inBuf| == |s.k.inBuf|
    decreases |ls|
  {
    if ls != [] {
      BufferStep(s, ls[0]);
      BufferSize(Next(s, ls[0]), ls[1..]);
    }
  }

  lemma ChunksFit(s: State)
    requires ReadsOk(s)
    ensures forall i :: 0 <= i < |s.k.xfers| ==> |s.k.xfers[i].bytes| <= Min(|s.k.inBuf|, s.k.xfers[i].count)
  {
    forall i | 0 <= i < |s.k.xfers| ensures |s.k.xfers[i].bytes| <= Min(|s.k.inBuf|, s.k.xfers[i].count) {
      assert XferOk(s, s.k.xfers[i]);
    }
  }

  /** The transfers beyond the log: the one whose reader is about to copy, if any. */
  lemma BeyondLog(s: State)
    requires ReadsOk(s)
    ensures |s.k.log| <= |s.k.xfers| && XferBytes(s.k.xfers[|s.k.log|..]) == InHand(s)
  {
    var rest := s.k.xfers[|s.k.log|..];
    if Copying(s) {
      assert rest == [s.k.xfers[|s.k.log|]];
      assert XferBytes(rest) == rest[0].bytes + XferBytes([]);
    }
  }

  lemma StreamOf(s: State)
    requires ReadsOk(s)
    ensures XferBytes(s.k.xfers) == LogBytes(s.k.log) + InHand(s)
  {
    BeyondLog(s);
    var done, rest := s.k.xfers[..|s.k.log|], s.k.xfers[|s.k.log|..];
    assert s.k.xfers == done + rest;
    forall i | 0 <= i < |s.k.log| ensures SameChunk(done[i], s.k.log[i]) {
      assert SameChunk(s.k.xfers[i], s.k.log[i]);
    }
    SameStream(done, s.k.log, rest);
  }

  /** What the device has sent over a run, in the order of its transfers. */
  function InputOf(ls: seq<Label>): seq<byte> {
    if ls == [] then [] else (if ls[0].Step? && ls[0].choice.Data? then ls[0].choice.bytes else []) + InputOf(ls[1..])
  }

  lemma {:induction false} XferBytesAdd(a: seq<Xfer>, b: seq<Xfer>)
    ensures XferBytes(a + b) == XferBytes(a) + XferBytes(b)
  {
    if a == [] {
      assert a + b == b;
    } else {
      assert (a + b)[1..] == a[1..] + b;
      XferBytesAdd(a[1..], b);
    }
  }

  /** The transfer a step records. */
  function XfersOf(s: State, l: Label): seq<Xfer>
    requires Enabled(s, l)
  {
    if l.Step? && l.choice.Data? then [Xfer(l.t, CountOf(s, l.t), l.choice.bytes)] else []
  }

  function CountOf(s: State, t: nat): nat
    requires t < |s.threads|
  {
    if s.threads[t].call.Read? then s.threads[t].call.count else 0
  }

  lemma StepInput(s: State, t: nat, c: Choice)
    requires CanStep(s, t, c)
    ensures StepNext(s, t, c).k.xfers == s.k.xfers + XfersOf(s, Step(t, c))
  {
  }

  lemma OtherInput(s: State, l: Label)
    requires Enabled(s, l) && !l.Step?
    ensures Next(s, l).k.xfers == s.k.xfers
  {
  }

  lemma NextInput(s: State, l: Label)
    requires Enabled(s, l)
    ensures XferBytes(Next(s, l).k.xfers) == XferBytes(s.k.xfers) + InputOf([l])
  {
    assert [l][1..] == [];
    if l.Step? {
      StepInput(s, l.t, l.choice);
      XferBytesAdd(s.k.xfers, XfersOf(s, l));
    } else {
      OtherInput(s, l);
    }
  }

  lemma InputFirst(ls: seq<Label>)
    requires ls != []
    ensures InputOf(ls) == InputOf([ls[0]]) + InputOf(ls[1..])
  {
    assert [ls[0]][1..] == [];
  }

  lemma {:induction false} InputRecorded(s: State, ls: seq<Label>)
    requires Legal(s, ls)
    ensures XferBytes(Exec(s, ls).k.xfers) == XferBytes(s.k.xfers) + InputOf(ls)
    decreases |ls|
  {
    if ls != [] {
      NextInput(s, ls[0]);
      InputRecorded(Next(s, ls[0]), ls[1..]);
      InputFirst(ls);
      Regroup(XferBytes(s.k.xfers), InputOf([ls[0]]), InputOf(ls[1..]));
    }
  }

  lemma InputOfRun(buf: seq<byte>, ls: seq<Label>)
    requires Legal(Init(buf), ls)
    ensures XferBytes(Exec(Init(buf), ls).k.xfers) == InputOf(ls)
  {
    InputRecorded(Init(buf), ls);
    assert XferBytes([]) + InputOf(ls) == InputOf(ls);
  }

  lemma StepRest(s: State, t: nat, c: Choice, p: nat)
    requires CanStep(s, t, c) && p < |s.k.inBuf| && (c.Data? ==> |c.bytes| <= p)
    ensures |StepNext(s, t, c).k.inBuf| == |s.k.inBuf| && StepNext(s, t, c).k.inBuf[p] == s.k.inBuf[p]
  {
    assert StepNext(s, t, c).k.inBuf == InBufAfter(s.k.inBuf, Action(t, s.threads[t], c));
  }

  lemma OtherRest(s: State, l: Label)
    requires Enabled(s, l) && !l.Step?
    ensures Next(s, l).k.inBuf == s.k.inBuf
  {
  }

  lemma RestStep(s: State, l: Label, p: nat)
    requires Enabled(s, l) && p < |s.k.inBuf| && (l.Step? && l.choice.Data? ==> |l.choice.bytes| <= p)
    ensures |Next(s, l).k.inBuf| == |s.k.inBuf| && Next(s, l).k.inBuf[p] == s.k.inBuf[p]
  {
    if l.Step? {
      StepRest(s, l.t, l.choice, p);
    } else {
      OtherRest(s, l);
    }
  }

  /** A transfer overwrites no more of bulk_in_buffer than it brings. */
  lemma {:induction false} RestOfBuffer(s: State, ls: seq<Label>, p: nat)
    requires Legal(s, ls) && p < |s.k.inBuf|
    requires forall i :: 0 <= i < |ls| && ls[i].Step? && ls[i].choice.Data? ==> |ls[i].choice.bytes| <= p
    ensures |Exec(s, ls).k.inBuf| == |s.k.inBuf| && Exec(s, ls).k.inBuf[p] == s.k.inBuf[p]
    decreases |ls|
  {
    if ls != [] {
      RestStep(s, ls[0], p);
      RestOfBuffer(Next(s, ls[0]), ls[1..], p);
    }
  }

  /**
   What the readers copied out or dropped, in lock order, is the device's input stream; only the chunk of
   the reader now between its transfer and its copy is still to come, and lies in the shared buffer.
   */
  lemma ReadStream(buf: seq<byte>, ls: seq<Label>)
    requires Legal(Init(buf), ls)
    ensures var s := Exec(Init(buf), ls);
            && (forall i :: 0 <= i < |s.k.log| ==> i < |s.k.xfers| && SameChunk(s.k.xfers[i], s.k.log[i]))
            && (forall i :: 0 <= i < |s.k.xfers| ==> |s.k.xfers[i].bytes| <= Min(|buf|, s.k.xfers[i].count))
            && InputOf(ls) == XferBytes(s.k.xfers) == LogBytes(s.k.log) + InHand(s)
  {
    SkelRuns.Reached(buf, ls);
    BufferSize(Init(buf), ls);
    InputOfRun(buf, ls);
    ChunksFit(Exec(Init(buf), ls));
    StreamOf(Exec(Init(buf), ls));
  }
}
