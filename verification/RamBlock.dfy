/**
 The RAM disk's request function. The block layer hands over requests of several segments; the loop copies
 one segment at a time and `end_request` completes just that segment, leaving the rest at the queue's head.
 */
module RamBlock {
  import opened Bytes
  import Sums

  const RAMBLOCK_SIZE: nat := 1024 * 1024
  const CAPACITY: nat := RAMBLOCK_SIZE / 512
  const WORD: nat := 0x1_0000_0000  // unsigned long has 32 bits on this machine

  /** `buf` names the memory the segment lies in. */
  datatype Segment = Segment(buf: nat, sectors: nat)

  datatype Request = Request(read: bool, sector: nat, segs: seq<Segment>)

  type Memory = map<nat, seq<byte>>

  datatype World = World(disk: seq<byte>, mem: Memory)

  function Total(segs: seq<Segment>): nat {
    if segs == [] then 0 else segs[0].sectors + Total(segs[1..])
  }

  predicate Fits(mem: Memory, seg: Segment) {
    seg.sectors >= 1 && seg.buf in mem && seg.sectors * 512 <= |mem[seg.buf]|
  }

  /** What the block layer promises of a request: segments of at least a sector, within the capacity. */
  predicate Good(mem: Memory, r: Request) {
    && r.segs != []
    && (forall i :: 0 <= i < |r.segs| ==> Fits(mem, r.segs[i]))
    && r.sector + Total(r.segs) <= CAPACITY
  }

  predicate AllGood(mem: Memory, q: seq<Request>) {
    forall i :: 0 <= i < |q| ==> Good(mem, q[i])
  }

  // ---------------------------------------------------------------- whole requests

  function Splice(disk: seq<byte>, at: nat, data: seq<byte>): seq<byte>
    requires at + |data| <= |disk|
  {
    disk[..at] + data + disk[at + |data|..]
  }

  predicate SegsFit(mem: Memory, segs: seq<Segment>) { forall i :: 0 <= i < |segs| ==> Fits(mem, segs[i]) }

  /** The bytes of a request's segments, one after the other. */
  function Gather(mem: Memory, segs: seq<Segment>): (data: seq<byte>)
    requires SegsFit(mem, segs)
    ensures |data| == Total(segs) * 512
  {
    if segs == [] then [] else mem[segs[0].buf][..segs[0].sectors * 512] + Gather(mem, segs[1..])
  }

  function Fill(mem: Memory, seg: Segment, data: seq<byte>): Memory
    requires Fits(mem, seg) && |data| == seg.sectors * 512
  {
    mem[seg.buf := Splice(mem[seg.buf], 0, data)]
  }

  predicate SameShape(m: Memory, m': Memory) {
    m.Keys == m'.Keys && forall b :: b in m ==> |m[b]| == |m'[b]|
  }

  /** The bytes, dealt out to the segments in order. */
  function Scatter(mem: Memory, segs: seq<Segment>, data: seq<byte>): (mem': Memory)
    requires SegsFit(mem, segs) && |data| == Total(segs) * 512
    ensures SameShape(mem, mem')
    decreases |segs|
  {
    if segs == [] then
      mem
    else
      var n := segs[0].sectors * 512;
      Scatter(Fill(mem, segs[0], data[..n]), segs[1..], data[n..])
  }

  predicate WellFormed(w: World, r: Request) { |w.disk| == RAMBLOCK_SIZE && Good(w.mem, r) }

  /** A whole request at once. */
  function Execute(w: World, r: Request): (w': World)
    requires WellFormed(w, r)
    ensures |w'.disk| == |w.disk| && SameShape(w.mem, w'.mem)
  {
    var at, len := r.sector * 512, Total(r.segs) * 512;
    if r.read then w.(mem := Scatter(w.mem, r.segs, w.disk[at..at + len]))
    else w.(disk := Splice(w.disk, at, Gather(w.mem, r.segs)))
  }

  function ExecuteAll(w: World, q: seq<Request>): (w': World)
    requires |w.disk| == RAMBLOCK_SIZE && AllGood(w.mem, q)
    ensures |w'.disk| == |w.disk| && SameShape(w.mem, w'.mem)
    decreases |q|
  {
    if q == [] then w else ExecuteAll(Execute(w, q[0]), q[1..])
  }

  // ---------------------------------------------------------------- segment by segment

  /** The copy of one turn of the loop. */
  function CopySegment(w: World, r: Request): World
    requires WellFormed(w, r)
  {
    var at, len := r.sector * 512, r.segs[0].sectors * 512;
    if r.read then w.(mem := Fill(w.mem, r.segs[0], w.disk[at..at + len]))
    else w.(disk := Splice(w.disk, at, w.mem[r.segs[0].buf][..len]))
  }

  /** end_request: the current segment is done; the request stays at the head until its last one is. */
  function Ended(q: seq<Request>): seq<Request>
    requires q != [] && q[0].segs != []
  {
    var r := q[0];
    if |r.segs| == 1 then q[1..]
    else [Request(r.read, r.sector + r.segs[0].sectors, r.segs[1..])] + q[1..]
  }

  /** Sectors still to be copied. */
  function Work(q: seq<Request>): nat {
    if q == [] then 0 else Total(q[0].segs) + Work(q[1..])
  }

  lemma SpliceTwice(disk: seq<byte>, at: nat, a: seq<byte>, b: seq<byte>)
    requires at + |a| + |b| <= |disk|
    ensures Splice(Splice(disk, at, a), at + |a|, b) == Splice(disk, at, a + b)
  {
    var once := Splice(disk, at, a);
    assert once[..at + |a|] == disk[..at] + a;
    assert once[at + |a| + |b|..] == disk[at + |a| + |b|..];
  }

  lemma {:induction false} SplitWrite(w: World, r: Request)
    requires WellFormed(w, r) && !r.read && |r.segs| > 1
    ensures var w', r' := CopySegment(w, r), Ended([r])[0];
            WellFormed(w', r') && Execute(w', r') == Execute(w, r)
  {
    var w', r' := CopySegment(w, r), Ended([r])[0];
    assert Ended([r]) == [r'];
    var at, n := r.sector * 512, r.segs[0].sectors * 512;
    assert forall i :: 0 <= i < |r'.segs| ==> r'.segs[i] == r.segs[i + 1];
    var first, rest := w.mem[r.segs[0].buf][..n], Gather(w.mem, r'.segs);
    assert Gather(w.mem, r.segs) == first + rest;
    SpliceTwice(w.disk, at, first, rest);
  }

  lemma {:induction false} SplitRead(w: World, r: Request)
    requires WellFormed(w, r) && r.read && |r.segs| > 1
    ensures var w', r' := CopySegment(w, r), Ended([r])[0];
            WellFormed(w', r') && Execute(w', r') == Execute(w, r)
  {
    var r' := Ended([r])[0];
    assert Ended([r]) == [r'];
    var at, n, len := r.sector * 512, r.segs[0].sectors * 512, Total(r.segs) * 512;
    assert forall i :: 0 <= i < |r'.segs| ==> r'.segs[i] == r.segs[i + 1];
    assert w.disk[at..at + len][..n] == w.disk[at..at + n];
    assert w.disk[at..at + len][n..] == w.disk[at + n..at + len];
  }

  lemma {:induction false} LastSegment(w: World, r: Request)
    requires WellFormed(w, r) && |r.segs| == 1
    ensures CopySegment(w, r) == Execute(w, r)
  {
    var len := r.segs[0].sectors * 512;
    assert r.segs[1..] == [];
    assert Total(r.segs) == r.segs[0].sectors;
    if r.read {
      var data := w.disk[r.sector * 512..r.sector * 512 + len];
      assert data[..len] == data && data[len..] == [];
      assert Scatter(w.mem, r.segs, data) == Scatter(Fill(w.mem, r.segs[0], data[..len]), [], []);
    } else {
      assert Gather(w.mem, r.segs) == w.mem[r.segs[0].buf][..len] + [];
    }
  }

  lemma ShapeKeepsGood(m: Memory, m': Memory, q: seq<Request>)
    requires SameShape(m, m') && AllGood(m, q)
    ensures AllGood(m', q)
  {
    forall i | 0 <= i < |q| ensures Good(m', q[i]) {
      forall j | 0 <= j < |q[i].segs| ensures Fits(m', q[i].segs[j]) {
        assert Fits(m, q[i].segs[j]);
      }
    }
  }

  /** One turn of the loop leaves the outcome of the whole queue as it was, with less to do. */
  lemma TurnKeepsOutcome(w: World, q: seq<Request>)
    requires |w.disk| == RAMBLOCK_SIZE && AllGood(w.mem, q) && q != []
    ensures var w', q' := CopySegment(w, q[0]), Ended(q);
            && |w'.disk| == RAMBLOCK_SIZE && AllGood(w'.mem, q')
            && ExecuteAll(w', q') == ExecuteAll(w, q)
            && Work(q') < Work(q)
  {
    var r, w', q' := q[0], CopySegment(w, q[0]), Ended(q);
    assert Good(w.mem, r) && Fits(w.mem, r.segs[0]);
    ShapeKeepsGood(w.mem, w'.mem, q[1..]);
    if |r.segs| == 1 {
      LastSegment(w, r);
      assert r.segs[1..] == [];
    } else {
      if r.read {
        SplitRead(w, r);
      } else {
        SplitWrite(w, r);
      }
      assert q'[1..] == q[1..] && q'[0] == Ended([r])[0];
    }
  }

  // ---------------------------------------------------------------- what stays as it was

  /** Byte `p` of the disk lies in the request's range. */
  predicate Covers(r: Request, p: nat) { r.sector * 512 <= p < (r.sector + Total(r.segs)) * 512 }

  lemma {:induction false} OutsideWritesUnchanged(w: World, q: seq<Request>, p: nat)
    requires |w.disk| == RAMBLOCK_SIZE && AllGood(w.mem, q) && p < RAMBLOCK_SIZE
    requires forall i :: 0 <= i < |q| && !q[i].read ==> !Covers(q[i], p)
    ensures ExecuteAll(w, q).disk[p] == w.disk[p]
    decreases |q|
  {
    if q != [] {
      assert Good(w.mem, q[0]);
      var w' := Execute(w, q[0]);
      ShapeKeepsGood(w.mem, w'.mem, q[1..]);
      assert w'.disk[p] == w.disk[p];
      OutsideWritesUnchanged(w', q[1..], p);
    }
  }

  lemma {:induction false} ScatterLeaves(mem: Memory, segs: seq<Segment>, data: seq<byte>, b: nat)
    requires SegsFit(mem, segs) && |data| == Total(segs) * 512 && b in mem
    requires forall i :: 0 <= i < |segs| ==> segs[i].buf != b
    ensures Scatter(mem, segs, data)[b] == mem[b]
    decreases |segs|
  {
    if segs != [] {
      var n := segs[0].sectors * 512;
      ScatterLeaves(Fill(mem, segs[0], data[..n]), segs[1..], data[n..], b);
    }
  }

  lemma {:induction false} OtherMemoryUnchanged(w: World, q: seq<Request>, b: nat)
    requires |w.disk| == RAMBLOCK_SIZE && AllGood(w.mem, q) && b in w.mem
    requires forall i, j :: 0 <= i < |q| && q[i].read && 0 <= j < |q[i].segs| ==> q[i].segs[j].buf != b
    ensures ExecuteAll(w, q).mem[b] == w.mem[b]
    decreases |q|
  {
    if q != [] {
      var r := q[0];
      assert Good(w.mem, r);
      if r.read {
        ScatterLeaves(w.mem, r.segs, w.disk[r.sector * 512..r.sector * 512 + Total(r.segs) * 512], b);
      }
      ShapeKeepsGood(w.mem, Execute(w, r).mem, q[1..]);
      OtherMemoryUnchanged(Execute(w, r), q[1..], b);
    }
  }

  lemma ShapeKeepsFit(m: Memory, m': Memory, segs: seq<Segment>)
    requires SameShape(m, m') && SegsFit(m, segs)
    ensures SegsFit(m', segs)
  {
    forall i | 0 <= i < |segs| ensures Fits(m', segs[i]) {
      assert Fits(m, segs[i]);
    }
  }

  lemma FillsFront(mem: Memory, seg: Segment, data: seq<byte>)
    requires Fits(mem, seg) && |data| == seg.sectors * 512
    ensures Fill(mem, seg, data)[seg.buf][..|data|] == data
  {
  }

  /** A read's segments in memory `b` end at or before byte `p`. */
  predicate Spares(r: Request, b: nat, p: nat) {
    r.read ==> forall j :: 0 <= j < |r.segs| && r.segs[j].buf == b ==> r.segs[j].sectors * 512 <= p
  }

  lemma {:induction false} ScatterSpares(mem: Memory, segs: seq<Segment>, data: seq<byte>, b: nat, p: nat)
    requires SegsFit(mem, segs) && |data| == Total(segs) * 512 && b in mem && p < |mem[b]|
    requires forall j :: 0 <= j < |segs| && segs[j].buf == b ==> segs[j].sectors * 512 <= p
    ensures Scatter(mem, segs, data)[b][p] == mem[b][p]
    decreases |segs|
  {
    if segs != [] {
      var n := segs[0].sectors * 512;
      ScatterSpares(Fill(mem, segs[0], data[..n]), segs[1..], data[n..], b, p);
    }
  }

  /** A read writes no further than its segments: the bytes behind them keep their value. */
  lemma {:induction false} BeyondSegmentsUnchanged(w: World, q: seq<Request>, b: nat, p: nat)
    requires |w.disk| == RAMBLOCK_SIZE && AllGood(w.mem, q) && b in w.mem && p < |w.mem[b]|
    requires forall i :: 0 <= i < |q| ==> Spares(q[i], b, p)
    ensures ExecuteAll(w, q).mem[b][p] == w.mem[b][p]
    decreases |q|
  {
    if q != [] {
      var r := q[0];
      assert Good(w.mem, r) && Spares(r, b, p);
      if r.read {
        ScatterSpares(w.mem, r.segs, w.disk[r.sector * 512..r.sector * 512 + Total(r.segs) * 512], b, p);
      }
      ShapeKeepsGood(w.mem, Execute(w, r).mem, q[1..]);
      BeyondSegmentsUnchanged(Execute(w, r), q[1..], b, p);
    }
  }

  predicate SparedBy(q: seq<Request>, b: nat, p: nat) { forall i :: 0 <= i < |q| ==> Spares(q[i], b, p) }

  lemma KeepsTheRest(w: World, q: seq<Request>)
    requires |w.disk| == RAMBLOCK_SIZE && AllGood(w.mem, q)
    ensures forall b, p :: b in w.mem && 0 <= p < |w.mem[b]| && SparedBy(q, b, p) ==>
              ExecuteAll(w, q).mem[b][p] == w.mem[b][p]
    ensures forall p :: 0 <= p < RAMBLOCK_SIZE && (forall r :: r in q && !r.read ==> !Covers(r, p)) ==>
              ExecuteAll(w, q).disk[p] == w.disk[p]
  {
    forall b, p | b in w.mem && 0 <= p < |w.mem[b]| && SparedBy(q, b, p)
      ensures ExecuteAll(w, q).mem[b][p] == w.mem[b][p]
    {
      BeyondSegmentsUnchanged(w, q, b, p);
    }
    forall p | 0 <= p < RAMBLOCK_SIZE && (forall r :: r in q && !r.read ==> !Covers(r, p))
      ensures ExecuteAll(w, q).disk[p] == w.disk[p]
    {
      OutsideWritesUnchanged(w, q, p);
    }
  }

  /** Each segment of a read gets its own stretch of the disk, if no two share memory. */
  lemma {:induction false} GatherScatter(mem: Memory, segs: seq<Segment>, data: seq<byte>)
    requires SegsFit(mem, segs) && |data| == Total(segs) * 512
    requires forall i, j :: 0 <= i < j < |segs| ==> segs[i].buf != segs[j].buf
    ensures SegsFit(Scatter(mem, segs, data), segs) && Gather(Scatter(mem, segs, data), segs) == data
    decreases |segs|
  {
    if segs != [] {
      var n := segs[0].sectors * 512;
      var filled := Fill(mem, segs[0], data[..n]);
      var mem' := Scatter(filled, segs[1..], data[n..]);
      assert Scatter(mem, segs, data) == mem';
      ShapeKeepsFit(mem, mem', segs);
      GatherScatter(filled, segs[1..], data[n..]);
      ScatterLeaves(filled, segs[1..], data[n..], segs[0].buf);
      FillsFront(mem, segs[0], data[..n]);
      assert mem'[segs[0].buf] == filled[segs[0].buf];
      assert Gather(mem', segs) == data[..n] + data[n..];
    }
  }

  // ---------------------------------------------------------------- read your last write

  /** The transfer of one sector, as seen from outside: what was written, or what the reader was given. */
  datatype Event = Event(write: bool, sector: nat, data: seq<byte>)

  /** The events of the first `n` sectors of a request, or of its current segment. */
  function EventsOf(r: Request, data: seq<byte>, n: nat): (es: seq<Event>)
    requires n * 512 <= |data|
    ensures |es| == n
  {
    if n == 0 then []
    else EventsOf(r, data, n - 1) + [Event(!r.read, r.sector + n - 1, data[(n - 1) * 512..n * 512])]
  }

  /** The bytes in the current segment's memory right after its turn: those the reader gets, or those written. */
  function Payload(w: World, r: Request): (data: seq<byte>)
    requires WellFormed(w, r)
    ensures |data| == r.segs[0].sectors * 512
  {
    assert Fits(w.mem, r.segs[0]);
    CopySegment(w, r).mem[r.segs[0].buf][..r.segs[0].sectors * 512]
  }

  function TurnEvents(w: World, r: Request): seq<Event>
    requires WellFormed(w, r)
  {
    EventsOf(r, Payload(w, r), r.segs[0].sectors)
  }

  /** What the loop transfers, turn by turn. */
  function QueueEvents(w: World, q: seq<Request>): seq<Event>
    requires |w.disk| == RAMBLOCK_SIZE && AllGood(w.mem, q)
    decreases Work(q)
  {
    if q == [] then
      []
    else
      TurnKeepsOutcome(w, q);
      assert Good(w.mem, q[0]);
      TurnEvents(w, q[0]) + QueueEvents(CopySegment(w, q[0]), Ended(q))
  }

  /** One run of the request function: the memory as it is then, and the queue. */
  datatype Invocation = Invocation(mem: Memory, q: seq<Request>)

  predicate Sound(invs: seq<Invocation>) {
    forall i :: 0 <= i < |invs| ==> AllGood(invs[i].mem, invs[i].q)
  }

  function DiskAfter(disk: seq<byte>, invs: seq<Invocation>): (disk': seq<byte>)
    requires |disk| == RAMBLOCK_SIZE && Sound(invs)
    ensures |disk'| == RAMBLOCK_SIZE
    decreases |invs|
  {
    if invs == [] then disk else DiskAfter(ExecuteAll(World(disk, invs[0].mem), invs[0].q).disk, invs[1..])
  }

  function History(disk: seq<byte>, invs: seq<Invocation>): seq<Event>
    requires |disk| == RAMBLOCK_SIZE && Sound(invs)
    decreases |invs|
  {
    if invs == [] then
      []
    else
      var w := World(disk, invs[0].mem);
      QueueEvents(w, invs[0].q) + History(ExecuteAll(w, invs[0].q).disk, invs[1..])
  }

  function Zeros(n: nat): (z: seq<byte>)
    ensures |z| == n && forall i :: 0 <= i < n ==> z[i] == 0
  {
    seq(n, _ => 0)
  }

  /** The data of the latest write to the sector, or zeros if there was none. */
  function LastWrite(log: seq<Event>, sector: nat): seq<byte> {
    if log == [] then
      Zeros(512)
    else
      var last := log[|log| - 1];
      if last.write && last.sector == sector then last.data else LastWrite(log[..|log| - 1], sector)
  }

  function SectorOf(disk: seq<byte>, k: nat): seq<byte>
    requires |disk| == RAMBLOCK_SIZE && k < CAPACITY
  {
    disk[k * 512..(k + 1) * 512]
  }

  /** The disk holds the last write of every sector. */
  ghost predicate Holds(disk: seq<byte>, log: seq<Event>) {
    |disk| == RAMBLOCK_SIZE && forall k :: 0 <= k < CAPACITY ==> SectorOf(disk, k) == LastWrite(log, k)
  }

  /** Every read got the last write before it. */
  ghost predicate ReadsSeeWrites(log: seq<Event>) {
    forall i :: 0 <= i < |log| && !log[i].write ==> log[i].data == LastWrite(log[..i], log[i].sector)
  }

  lemma {:induction false} LastWriteOf(log: seq<Event>, r: Request, data: seq<byte>, n: nat, k: nat)
    requires n * 512 <= |data|
    ensures LastWrite(log + EventsOf(r, data, n), k) ==
            if !r.read && r.sector <= k < r.sector + n then data[(k - r.sector) * 512..(k - r.sector + 1) * 512]
            else LastWrite(log, k)
  {
    var all := log + EventsOf(r, data, n);
    if n == 0 {
      assert all == log;
    } else {
      assert all[..|all| - 1] == log + EventsOf(r, data, n - 1);
      LastWriteOf(log, r, data, n - 1, k);
    }
  }

  lemma SubSlice(disk: seq<byte>, at: nat, len: nat, lo: nat, hi: nat)
    requires at + len <= |disk| && lo <= hi <= len
    ensures disk[at..at + len][lo..hi] == disk[at + lo..at + hi]
  {
    var part := disk[at..at + len];
    assert forall j :: 0 <= j < hi - lo ==>
      part[lo..hi][j] == part[lo + j] == disk[at + lo + j] == disk[at + lo..at + hi][j];
  }

  lemma SpliceParts(disk: seq<byte>, at: nat, data: seq<byte>)
    requires at + |data| <= |disk|
    ensures var spliced := Splice(disk, at, data);
            && spliced[0..at] == disk[0..at]
            && spliced[at..at + |data|] == data
            && spliced[at + |data|..|disk|] == disk[at + |data|..|disk|]
  {
  }

  lemma SpliceAt(disk: seq<byte>, at: nat, data: seq<byte>, lo: nat, hi: nat)
    requires at + |data| <= |disk| && lo <= hi <= |disk|
    ensures at <= lo && hi <= at + |data| ==> Splice(disk, at, data)[lo..hi] == data[lo - at..hi - at]
    ensures hi <= at || at + |data| <= lo ==> Splice(disk, at, data)[lo..hi] == disk[lo..hi]
  {
    var spliced, end := Splice(disk, at, data), at + |data|;
    SpliceParts(disk, at, data);
    if at <= lo && hi <= end {
      SubSlice(spliced, at, |data|, lo - at, hi - at);
    }
    if hi <= at {
      SubSlice(spliced, 0, at, lo, hi);
      SubSlice(disk, 0, at, lo, hi);
    } else if end <= lo {
      SubSlice(spliced, end, |disk| - end, lo - end, hi - end);
      SubSlice(disk, end, |disk| - end, lo - end, hi - end);
    }
  }

  lemma ReadPayload(w: World, r: Request)
    requires WellFormed(w, r) && r.read
    ensures Payload(w, r) == w.disk[r.sector * 512..r.sector * 512 + r.segs[0].sectors * 512]
  {
    assert Fits(w.mem, r.segs[0]);
  }

  /** A read's events carry what the disk held. */
  lemma ReadEvents(w: World, r: Request, i: nat)
    requires WellFormed(w, r) && r.read && i < r.segs[0].sectors
    ensures Payload(w, r)[i * 512..(i + 1) * 512] == SectorOf(w.disk, r.sector + i)
  {
    ReadPayload(w, r);
    SubSlice(w.disk, r.sector * 512, r.segs[0].sectors * 512, i * 512, (i + 1) * 512);
  }

  lemma SpliceSector(disk: seq<byte>, sector: nat, data: seq<byte>, n: nat, k: nat)
    requires |disk| == RAMBLOCK_SIZE && |data| == n * 512 && sector + n <= CAPACITY && k < CAPACITY
    ensures SectorOf(Splice(disk, sector * 512, data), k) ==
            if sector <= k < sector + n then data[(k - sector) * 512..(k - sector + 1) * 512] else SectorOf(disk, k)
  {
    SpliceAt(disk, sector * 512, data, k * 512, (k + 1) * 512);
  }

  lemma WriteHolds(w: World, r: Request, log: seq<Event>, k: nat)
    requires WellFormed(w, r) && !r.read && k < CAPACITY && SectorOf(w.disk, k) == LastWrite(log, k)
    ensures SectorOf(CopySegment(w, r).disk, k) == LastWrite(log + TurnEvents(w, r), k)
  {
    LastWriteOf(log, r, Payload(w, r), r.segs[0].sectors, k);
    SpliceSector(w.disk, r.sector, Payload(w, r), r.segs[0].sectors, k);
  }

  lemma DiskHolds(w: World, r: Request, log: seq<Event>)
    requires WellFormed(w, r) && Holds(w.disk, log)
    ensures Holds(CopySegment(w, r).disk, log + TurnEvents(w, r))
  {
    forall k | 0 <= k < CAPACITY ensures SectorOf(CopySegment(w, r).disk, k) == LastWrite(log + TurnEvents(w, r), k) {
      assert SectorOf(w.disk, k) == LastWrite(log, k);
      if r.read {
        LastWriteOf(log, r, Payload(w, r), r.segs[0].sectors, k);
      } else {
        WriteHolds(w, r, log, k);
      }
    }
  }

  lemma {:induction false} EventsPrefix(r: Request, data: seq<byte>, n: nat, j: nat)
    requires n * 512 <= |data| && j < n
    ensures EventsOf(r, data, n)[..j] == EventsOf(r, data, j)
    ensures EventsOf(r, data, n)[j] == Event(!r.read, r.sector + j, data[j * 512..(j + 1) * 512])
  {
    var front := EventsOf(r, data, n - 1);
    if j < n - 1 {
      EventsPrefix(r, data, n - 1, j);
      assert EventsOf(r, data, n)[..j] == front[..j];
    } else {
      assert EventsOf(r, data, n)[..j] == front;
    }
  }

  /** A read's event sees the last write, earlier events of the same read being no writes. */
  lemma EventSees(r: Request, data: seq<byte>, n: nat, log: seq<Event>, j: nat)
    requires r.read && n * 512 <= |data| && j < n && data[j * 512..(j + 1) * 512] == LastWrite(log, r.sector + j)
    ensures var es := EventsOf(r, data, n);
            es[j].data == LastWrite(log + es[..j], es[j].sector)
  {
    EventsPrefix(r, data, n, j);
    LastWriteOf(log, r, data, j, r.sector + j);
  }

  lemma TurnHolds(w: World, r: Request, log: seq<Event>)
    requires WellFormed(w, r) && Holds(w.disk, log) && ReadsSeeWrites(log)
    ensures Holds(CopySegment(w, r).disk, log + TurnEvents(w, r)) && ReadsSeeWrites(log + TurnEvents(w, r))
  {
    var data, n, es := Payload(w, r), r.segs[0].sectors, TurnEvents(w, r);
    var log' := log + es;
    DiskHolds(w, r, log);
    forall i | 0 <= i < |log'| && !log'[i].write ensures log'[i].data == LastWrite(log'[..i], log'[i].sector) {
      if i < |log| {
        assert log'[..i] == log[..i];
      } else {
        assert log'[..i] == log + es[..i - |log|];
        var j := i - |log|;
        EventsPrefix(r, data, n, j);
        ReadEvents(w, r, j);
        assert SectorOf(w.disk, r.sector + j) == LastWrite(log, r.sector + j);
        EventSees(r, data, n, log, j);
      }
    }
  }

  lemma {:induction false} QueueHolds(w: World, q: seq<Request>, log: seq<Event>)
    requires AllGood(w.mem, q) && Holds(w.disk, log) && ReadsSeeWrites(log)
    ensures var log' := log + QueueEvents(w, q);
            Holds(ExecuteAll(w, q).disk, log') && ReadsSeeWrites(log')
    decreases Work(q)
  {
    if q == [] {
      assert log + [] == log;
    } else {
      assert Good(w.mem, q[0]);
      var w', es := CopySegment(w, q[0]), TurnEvents(w, q[0]);
      TurnKeepsOutcome(w, q);
      TurnHolds(w, q[0], log);
      QueueHolds(w', Ended(q), log + es);
      Sums.Regroup(log, es, QueueEvents(w', Ended(q)));
    }
  }

  lemma {:induction false} HistoryHolds(disk: seq<byte>, invs: seq<Invocation>, log: seq<Event>)
    requires Sound(invs) && Holds(disk, log) && ReadsSeeWrites(log)
    ensures var log' := log + History(disk, invs);
            Holds(DiskAfter(disk, invs), log') && ReadsSeeWrites(log')
    decreases |invs|
  {
    if invs == [] {
      assert log + [] == log;
    } else {
      assert AllGood(invs[0].mem, invs[0].q);
      var w := World(disk, invs[0].mem);
      var es, disk' := QueueEvents(w, invs[0].q), ExecuteAll(w, invs[0].q).disk;
      QueueHolds(w, invs[0].q, log);
      HistoryHolds(disk', invs[1..], log + es);
      Sums.Regroup(log, es, History(disk', invs[1..]));
    }
  }

  lemma ZerosHold()
    ensures Holds(Zeros(RAMBLOCK_SIZE), []) && ReadsSeeWrites([])
  {
    forall k | 0 <= k < CAPACITY ensures SectorOf(Zeros(RAMBLOCK_SIZE), k) == LastWrite([], k) {
      assert SectorOf(Zeros(RAMBLOCK_SIZE), k) == Zeros(512);
    }
  }

  /**
   From the zeroed disk, over any number of runs of the request function with any queues and any memory
   contents in between: every sector read is the last one written there, or zeros, even if segments share memory.
   */
  lemma ReadYourLastWrite(invs: seq<Invocation>)
    requires Sound(invs)
    ensures var log := History(Zeros(RAMBLOCK_SIZE), invs);
            ReadsSeeWrites(log) && Holds(DiskAfter(Zeros(RAMBLOCK_SIZE), invs), log)
  {
    var disk := Zeros(RAMBLOCK_SIZE);
    ZerosHold();
    HistoryHolds(disk, invs, []);
    assert [] + History(disk, invs) == History(disk, invs);
  }

  // ---------------------------------------------------------------- the driver

  function Mul512(x: nat): nat { x * 512 % WORD }

  /** The 32-bit product is the mathematical one up to 0x800000 sectors, and no further. */
  lemma WrapsIff(x: nat)
    ensures Mul512(x) == x * 512 <==> x < 0x80_0000
  {
  }

  /** In range, the 32-bit products are the mathematical ones and the copy stays inside the buffer. */
  lemma NoWrap(mem: Memory, r: Request)
    requires Good(mem, r)
    ensures Mul512(r.sector) == r.sector * 512 && Mul512(r.segs[0].sectors) == r.segs[0].sectors * 512
    ensures Mul512(r.sector) + Mul512(r.segs[0].sectors) <= RAMBLOCK_SIZE
    ensures r.segs[0].sectors * 512 <= |mem[r.segs[0].buf]|
  {
    assert Fits(mem, r.segs[0]);
  }

  class RamDisk {
    const ramblockBuf: array<byte>
    var queue: seq<Request>
    var mem: Memory
    ghost var log: seq<Event>  // every sector transferred so far

    ghost function Contents(): World
      reads this, ramblockBuf
    {
      World(ramblockBuf[..], mem)
    }

    ghost predicate Valid()
      reads this, ramblockBuf
    {
      && ramblockBuf.Length == RAMBLOCK_SIZE && AllGood(mem, queue)
      && Holds(ramblockBuf[..], log) && ReadsSeeWrites(log)
    }

    /** ramblock_init: a zeroed buffer, and an empty queue of capacity RAMBLOCK_SIZE / 512 sectors. */
    constructor ()
      ensures Valid() && queue == [] && log == [] && fresh(ramblockBuf)
      ensures ramblockBuf.Length == 1048576 && forall i :: 0 <= i < ramblockBuf.Length ==> ramblockBuf[i] == 0
    {
      ramblockBuf := new byte[RAMBLOCK_SIZE](_ => 0);
      queue, mem, log := [], map[], [];
      new;
      assert ramblockBuf[..] == Zeros(RAMBLOCK_SIZE);
      ZerosHold();
    }

    /** The block layer sets the memory up and queues requests. */
    method Submit(m: Memory, q: seq<Request>)
      requires Valid() && queue == [] && AllGood(m, q)
      modifies this`queue, this`mem
      ensures Valid() && queue == q && mem == m
    {
      mem, queue := m, q;
    }

    /** end_request(req, 1): only the current segment is completed. */
    method EndRequest()
      requires queue != [] && queue[0].segs != []
      modifies this`queue
      ensures queue == Ended(old(queue))
    {
      var r := queue[0];
      if |r.segs| == 1 {
        queue := queue[1..];
      } else {
        queue := queue[0 := Request(r.read, r.sector + r.segs[0].sectors, r.segs[1..])];
      }
    }

    /** memcpy from and to the disk buffer. */
    method CopyOut(buf: nat, offset: nat, len: nat)
      requires offset + len <= ramblockBuf.Length && buf in mem && len <= |mem[buf]|
      modifies this`mem
      ensures mem == old(mem)[buf := Splice(old(mem)[buf], 0, ramblockBuf[offset..offset + len])]
      ensures mem[buf][..len] == ramblockBuf[offset..offset + len] && mem[buf][len..] == old(mem)[buf][len..]
    {
      var data := ramblockBuf[offset..offset + len];
      assert data + mem[buf][len..] == Splice(mem[buf], 0, data);
      mem := mem[buf := data + mem[buf][len..]];
    }

    method CopyIn(buf: nat, offset: nat, len: nat)
      requires offset + len <= ramblockBuf.Length && buf in mem && len <= |mem[buf]|
      modifies ramblockBuf
      ensures ramblockBuf[..] == Splice(old(ramblockBuf[..]), offset, mem[buf][..len])
      ensures ramblockBuf[offset..offset + len] == mem[buf][..len]
      ensures ramblockBuf[..offset] == old(ramblockBuf[..offset])
      ensures ramblockBuf[offset + len..] == old(ramblockBuf[offset + len..])
    {
      forall i | 0 <= i < len {
        ramblockBuf[offset + i] := mem[buf][i];
      }
      ghost var was := old(ramblockBuf[..]);
      assert |ramblockBuf[..]| == |Splice(was, offset, mem[buf][..len])|;
    }

    /** One turn of the loop, on the segment at the head of the queue. */
    method CopyAndEnd()
      requires Valid() && queue != []
      modifies this, ramblockBuf
      ensures Contents() == CopySegment(old(Contents()), old(queue)[0]) && queue == Ended(old(queue))
      ensures log == old(log) + TurnEvents(old(Contents()), old(queue)[0])
    {
      var req := queue[0];
      log := log + TurnEvents(Contents(), req);
      assert Good(mem, req) && Fits(mem, req.segs[0]);
      NoWrap(mem, req);
      var offset := Mul512(req.sector);
      var len := Mul512(req.segs[0].sectors);
      if req.read {
        CopyOut(req.segs[0].buf, offset, len);
      } else {
        CopyIn(req.segs[0].buf, offset, len);
      }
      EndRequest();
    }

    /**
     The loop leaves disk and memory as if every request had been executed whole, in queue order; each read in
     it, and in every earlier call, has been given the last write of its sector.
     */
    method DoRamblockRequest()
      requires Valid()
      modifies this, ramblockBuf
      ensures Valid() && queue == [] && Contents() == ExecuteAll(old(Contents()), old(queue))
      ensures log == old(log) + QueueEvents(old(Contents()), old(queue))
      ensures forall b, p :: b in old(mem) && 0 <= p < |old(mem)[b]| && SparedBy(old(queue), b, p) ==>
                b in mem && |mem[b]| == |old(mem)[b]| && mem[b][p] == old(mem)[b][p]
      ensures forall p :: 0 <= p < RAMBLOCK_SIZE && (forall r :: r in old(queue) && !r.read ==> !Covers(r, p)) ==>
                ramblockBuf[p] == old(ramblockBuf[..])[p]
    {
      KeepsTheRest(Contents(), queue);
      ghost var outcome, total := ExecuteAll(Contents(), queue), log + QueueEvents(Contents(), queue);
      while queue != []
        invariant Valid()
        invariant ExecuteAll(Contents(), queue) == outcome && log + QueueEvents(Contents(), queue) == total
        decreases Work(queue)
      {
        assert Good(mem, queue[0]);
        ghost var w, q, was := Contents(), queue, log;
        TurnKeepsOutcome(w, q);
        TurnHolds(w, q[0], was);
        CopyAndEnd();
        Sums.Regroup(was, TurnEvents(w, q[0]), QueueEvents(Contents(), queue));
      }
    }
  }
}
