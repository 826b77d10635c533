/** The USB mouse handler: reports become key events where a button bit differs from the report before. */
module MouseKb {
  import Sums

  datatype Key = KEY_L | KEY_S

  /** One input_event with its input_sync: `bit` is the button that caused it. */
  datatype Event = Event(bit: Bit, key: Key, down: bool)

  /** The buttons looked at. Bits 0 and 2 both stand for KEY_L. */
  type Bit = b: int | 0 <= b < 3

  function KeyOf(b: Bit): Key { if b == 1 then KEY_S else KEY_L }

  /** The three bits of a report that matter. */
  datatype Buttons = Buttons(b0: bool, b1: bool, b2: bool)

  const RELEASED := Buttons(false, false, false)

  function Low(report: bv8): Buttons {
    Buttons(report & 1 != 0, report & 2 != 0, report & 4 != 0)
  }

  function On(report: Buttons, b: Bit): bool {
    if b == 0 then report.b0 else if b == 1 then report.b1 else report.b2
  }

  function Change(pre: Buttons, cur: Buttons, b: Bit): seq<Event> {
    if On(pre, b) != On(cur, b) then [Event(b, KeyOf(b), On(cur, b))] else []
  }

  function Changes(pre: Buttons, cur: Buttons): seq<Event> {
    Change(pre, cur, 0) + Change(pre, cur, 1) + Change(pre, cur, 2)
  }

  /** The events of a series of reports, `pre` being the report before it. */
  function Emitted(pre: Buttons, reports: seq<Buttons>): seq<Event>
    decreases |reports|
  {
    if reports == [] then [] else Changes(pre, reports[0]) + Emitted(reports[0], reports[1..])
  }

  function Last(pre: Buttons, reports: seq<Buttons>): Buttons {
    if reports == [] then pre else reports[|reports| - 1]
  }

  // ---------------------------------------------------------------- order

  /** Events for bits below `n`, one by one: in bit order, each changed bit's once, with its key and new state. */
  ghost predicate OneReport(es: seq<Event>, pre: Buttons, cur: Buttons, n: nat) {
    && (forall i, j :: 0 <= i < j < |es| ==> es[i].bit < es[j].bit)
    && (forall i :: 0 <= i < |es| ==> es[i].bit < n && es[i].key == (if es[i].bit == 1 then KEY_S else KEY_L))
    && (forall i :: 0 <= i < |es| ==> On(pre, es[i].bit) != On(cur, es[i].bit) && es[i].down == On(cur, es[i].bit))
    && (forall b: Bit {:trigger HasBit(es, b)} :: b < n && On(pre, b) != On(cur, b) ==> HasBit(es, b))
  }

  predicate HasBit(es: seq<Event>, b: Bit) { exists i :: 0 <= i < |es| && es[i].bit == b }

  lemma OneMoreBit(es: seq<Event>, pre: Buttons, cur: Buttons, b: Bit)
    requires OneReport(es, pre, cur, b)
    ensures OneReport(es + Change(pre, cur, b), pre, cur, b + 1)
  {
    var more := es + Change(pre, cur, b);
    assert forall i :: 0 <= i < |es| ==> more[i] == es[i];
    forall c: Bit | c < b + 1 && On(pre, c) != On(cur, c) ensures HasBit(more, c) {
      if c < b {
        assert HasBit(es, c);
        var i :| 0 <= i < |es| && es[i].bit == c;
        assert more[i].bit == c;
      } else {
        assert more[|es|].bit == c;
      }
    }
  }

  lemma FirstBit(pre: Buttons, cur: Buttons)
    ensures OneReport(Change(pre, cur, 0), pre, cur, 1)
  {
    if On(pre, 0) != On(cur, 0) {
      assert Change(pre, cur, 0)[0].bit == 0;
    }
  }

  /** A report's events come in bit order, so KEY_L of bit 0 before KEY_S, and say all that changed and nothing else. */
  lemma ChangesInOrder(pre: Buttons, cur: Buttons)
    ensures OneReport(Changes(pre, cur), pre, cur, 3)
  {
    FirstBit(pre, cur);
    OneMoreBit(Change(pre, cur, 0), pre, cur, 1);
    OneMoreBit(Change(pre, cur, 0) + Change(pre, cur, 1), pre, cur, 2);
  }

  lemma BitsChanged(pre: Buttons, cur: Buttons)
    ensures forall b: Bit :: HasBit(Changes(pre, cur), b) <==> On(pre, b) != On(cur, b)
  {
    ChangesInOrder(pre, cur);
    forall b: Bit ensures HasBit(Changes(pre, cur), b) <==> On(pre, b) != On(cur, b) {
      if HasBit(Changes(pre, cur), b) {
        var i :| 0 <= i < |Changes(pre, cur)| && Changes(pre, cur)[i].bit == b;
      }
    }
  }

  /** The button bits of a report are its three lowest. */
  lemma LowBits(report: bv8)
    ensures On(Low(report), 0) <==> report & 1 == 1
    ensures On(Low(report), 1) <==> report & 2 == 2
    ensures On(Low(report), 2) <==> report & 4 == 4
  {
  }

  lemma EmittedSnoc(pre: Buttons, rs: seq<Buttons>, cur: Buttons)
    ensures Emitted(pre, rs + [cur]) == Emitted(pre, rs) + Changes(Last(pre, rs), cur)
    decreases |rs|
  {
    if rs == [] {
      assert Emitted(pre, [cur]) == Changes(pre, cur) + Emitted(cur, []);
    } else {
      assert (rs + [cur])[1..] == rs[1..] + [cur] && Last(pre, rs) == Last(rs[0], rs[1..]);
      EmittedSnoc(rs[0], rs[1..], cur);
    }
  }

  /** Over any series of reports, what each one adds is exactly its own changes, in bit order. */
  lemma ReportsInOrder(pre: Buttons, reports: seq<Buttons>, i: nat)
    requires i < |reports|
    ensures var sofar, more := Emitted(pre, reports[..i]), Emitted(pre, reports[..i + 1]);
            && sofar <= more
            && OneReport(more[|sofar|..], Last(pre, reports[..i]), reports[i], 3)
  {
    var before := Last(pre, reports[..i]);
    assert reports[..i + 1] == reports[..i] + [reports[i]];
    EmittedSnoc(pre, reports[..i], reports[i]);
    ChangesInOrder(before, reports[i]);
    var sofar := Emitted(pre, reports[..i]);
    assert (sofar + Changes(before, reports[i]))[|sofar|..] == Changes(before, reports[i]);
  }

  // ---------------------------------------------------------------- balance

  /** Presses less releases of a key. */
  function Balance(es: seq<Event>, key: Key): int {
    if es == [] then 0
    else (if es[0].key != key then 0 else if es[0].down then 1 else -1) + Balance(es[1..], key)
  }

  function One(b: bool): int { if b then 1 else 0 }

  /** How many buttons of the key are down. */
  function DownCount(report: Buttons, key: Key): int {
    if key.KEY_S? then One(On(report, 1)) else One(On(report, 0)) + One(On(report, 2))
  }

  lemma {:induction false} BalanceAdds(a: seq<Event>, b: seq<Event>, key: Key)
    ensures Balance(a + b, key) == Balance(a, key) + Balance(b, key)
  {
    if a == [] {
      assert a + b == b;
    } else {
      assert (a + b)[1..] == a[1..] + b;
      BalanceAdds(a[1..], b, key);
    }
  }

  lemma ChangesBalance(pre: Buttons, cur: Buttons, key: Key)
    ensures Balance(Changes(pre, cur), key) == DownCount(cur, key) - DownCount(pre, key)
  {
    BalanceAdds(Change(pre, cur, 0) + Change(pre, cur, 1), Change(pre, cur, 2), key);
    BalanceAdds(Change(pre, cur, 0), Change(pre, cur, 1), key);
  }

  lemma LastRest(pre: Buttons, reports: seq<Buttons>)
    requires reports != []
    ensures Last(pre, reports) == Last(reports[0], reports[1..])
  {
  }

  lemma {:induction false} EmittedBalance(pre: Buttons, reports: seq<Buttons>, key: Key)
    ensures Balance(Emitted(pre, reports), key) == DownCount(Last(pre, reports), key) - DownCount(pre, key)
    decreases |reports|
  {
    if reports != [] {
      BalanceAdds(Changes(pre, reports[0]), Emitted(reports[0], reports[1..]), key);
      ChangesBalance(pre, reports[0], key);
      EmittedBalance(reports[0], reports[1..], key);
      LastRest(pre, reports);
    }
  }

  /** After any reports, presses less releases of a key is the number of its buttons now down. */
  lemma KeyBalance(reports: seq<Buttons>, key: Key)
    ensures Balance(Emitted(RELEASED, reports), key) == DownCount(Last(RELEASED, reports), key)
  {
    EmittedBalance(RELEASED, reports, key);
  }

  // ---------------------------------------------------------------- alternation

  /** The presses (true) and releases (false) of one button. */
  function OfBit(es: seq<Event>, b: Bit): seq<bool> {
    if es == [] then [] else (if es[0].bit == b then [es[0].down] else []) + OfBit(es[1..], b)
  }

  predicate Alternates(ds: seq<bool>, first: bool) {
    forall i :: 0 <= i < |ds| ==> ds[i] == if i % 2 == 0 then first else !first
  }

  lemma {:induction false} OfBitAdds(a: seq<Event>, c: seq<Event>, b: Bit)
    ensures OfBit(a + c, b) == OfBit(a, b) + OfBit(c, b)
  {
    if a == [] {
      assert a + c == c;
    } else {
      var ac := a + c;
      assert ac[0] == a[0] && ac[1..] == a[1..] + c;
      OfBitAdds(a[1..], c, b);
      var first := if a[0].bit == b then [a[0].down] else [];
      assert OfBit(ac, b) == first + OfBit(ac[1..], b);
      assert OfBit(a, b) == first + OfBit(a[1..], b);
      Sums.Regroup(first, OfBit(a[1..], b), OfBit(c, b));
    }
  }

  lemma ChangeOfBit(pre: Buttons, cur: Buttons, c: Bit, b: Bit)
    ensures OfBit(Change(pre, cur, c), b) == if c == b && On(pre, b) != On(cur, b) then [On(cur, b)] else []
  {
    if On(pre, c) != On(cur, c) {
      assert Change(pre, cur, c)[1..] == [];
    }
  }

  lemma ChangesOfBit(pre: Buttons, cur: Buttons, b: Bit)
    ensures OfBit(Changes(pre, cur), b) == if On(pre, b) != On(cur, b) then [On(cur, b)] else []
  {
    OfBitAdds(Change(pre, cur, 0) + Change(pre, cur, 1), Change(pre, cur, 2), b);
    OfBitAdds(Change(pre, cur, 0), Change(pre, cur, 1), b);
    ChangeOfBit(pre, cur, 0, b);
    ChangeOfBit(pre, cur, 1, b);
    ChangeOfBit(pre, cur, 2, b);
    var x0, x1, x2 := OfBit(Change(pre, cur, 0), b), OfBit(Change(pre, cur, 1), b), OfBit(Change(pre, cur, 2), b);
    assert OfBit(Changes(pre, cur), b) == x0 + x1 + x2;
  }

  /** One report's change of a button, `p` to `q`, in front of alternating changes from `q` to `r`. */
  lemma AlternatesPrepend(now: seq<bool>, later: seq<bool>, p: bool, q: bool, r: bool)
    requires now == if p != q then [q] else []
    requires Alternates(later, !q) && |later| % 2 == One(q != r)
    ensures Alternates(now + later, !p) && |now + later| % 2 == One(p != r)
  {
    if p == q {
      assert now + later == later;
    } else {
      forall i | 0 <= i < |now + later| ensures (now + later)[i] == if i % 2 == 0 then !p else p {
        if i > 0 {
          assert (now + later)[i] == later[i - 1];
        }
      }
    }
  }

  lemma {:induction false} EmittedAlternates(pre: Buttons, reports: seq<Buttons>, b: Bit)
    ensures Alternates(OfBit(Emitted(pre, reports), b), !On(pre, b))
    ensures |OfBit(Emitted(pre, reports), b)| % 2 == One(On(pre, b) != On(Last(pre, reports), b))
    decreases |reports|
  {
    if reports != [] {
      var now, later := Changes(pre, reports[0]), Emitted(reports[0], reports[1..]);
      EmittedAlternates(reports[0], reports[1..], b);
      ChangesOfBit(pre, reports[0], b);
      AlternatesPrepend(OfBit(now, b), OfBit(later, b), On(pre, b), On(reports[0], b), On(Last(pre, reports), b));
      OfBitAdds(now, later, b);
    }
  }

  /** Each button's own events alternate, starting with a press, and end as the button now is. */
  lemma ButtonsAlternate(reports: seq<Buttons>, b: Bit)
    ensures Alternates(OfBit(Emitted(RELEASED, reports), b), true)
    ensures |OfBit(Emitted(RELEASED, reports), b)| % 2 == One(On(Last(RELEASED, reports), b))
  {
    EmittedAlternates(RELEASED, reports, b);
  }

  // ---------------------------------------------------------------- what a listener believes

  /** The state of a key as its listener has it: the last event's. */
  function Believed(es: seq<Event>, key: Key, before: bool): bool {
    if es == [] then before
    else if es[|es| - 1].key == key then es[|es| - 1].down
    else Believed(es[..|es| - 1], key, before)
  }

  predicate KeyDown(report: Buttons, key: Key) { DownCount(report, key) > 0 }

  lemma {:induction false} BelievedAdds(a: seq<Event>, b: seq<Event>, key: Key, before: bool)
    ensures Believed(a + b, key, before) == Believed(b, key, Believed(a, key, before))
  {
    if b == [] {
      assert a + b == a;
    } else {
      assert (a + b)[..|a + b| - 1] == a + b[..|b| - 1];
      BelievedAdds(a, b[..|b| - 1], key, before);
    }
  }

  lemma ChangesBelieved(pre: Buttons, cur: Buttons, key: Key, before: bool)
    ensures Believed(Changes(pre, cur), key, before) ==
            if key.KEY_S? then (if On(pre, 1) != On(cur, 1) then On(cur, 1) else before)
            else if On(pre, 2) != On(cur, 2) then On(cur, 2)
            else if On(pre, 0) != On(cur, 0) then On(cur, 0)
            else before
  {
    BelievedAdds(Change(pre, cur, 0) + Change(pre, cur, 1), Change(pre, cur, 2), key, before);
    BelievedAdds(Change(pre, cur, 0), Change(pre, cur, 1), key, before);
  }

  /** A report whose last KEY_L event is a release, although the other KEY_L button is down in it. */
  predicate Masks(pre: Buttons, cur: Buttons) {
    || (On(pre, 2) && !On(cur, 2) && On(cur, 0))
    || (On(pre, 2) && On(cur, 2) && On(pre, 0) && !On(cur, 0))
  }

  predicate TouchesL(pre: Buttons, cur: Buttons) { On(pre, 0) != On(cur, 0) || On(pre, 2) != On(cur, 2) }

  /** Whether the last report that moved a KEY_L button masked the other one. */
  function Masked(pre: Buttons, reports: seq<Buttons>, before: bool): bool
    decreases |reports|
  {
    if reports == [] then before
    else Masked(reports[0], reports[1..], if TouchesL(pre, reports[0]) then Masks(pre, reports[0]) else before)
  }

  lemma {:induction false} BelievedIff(pre: Buttons, reports: seq<Buttons>, key: Key, before: bool, masked: bool)
    requires before == (KeyDown(pre, key) && !(key.KEY_L? && masked))
    requires key.KEY_L? && masked ==> KeyDown(pre, key)
    ensures var last := Last(pre, reports);
            var hidden := key.KEY_L? && Masked(pre, reports, masked);
            && Believed(Emitted(pre, reports), key, before) == (KeyDown(last, key) && !hidden)
            && (hidden ==> KeyDown(last, key))
    decreases |reports|
  {
    if reports != [] {
      var cur := reports[0];
      BelievedAdds(Changes(pre, cur), Emitted(cur, reports[1..]), key, before);
      ChangesBelieved(pre, cur, key, before);
      BelievedIff(cur, reports[1..], key, Believed(Changes(pre, cur), key, before),
                  if TouchesL(pre, cur) then Masks(pre, cur) else masked);
      assert Last(pre, reports) == Last(cur, reports[1..]);
    }
  }

  /**
   A listener always knows whether KEY_S is down. It knows it of KEY_L exactly unless, in the last report that
   moved a KEY_L button, the last event was the release of one of them and the other one was down: bit 2 was let
   go with bit 0 down in that report, newly or still, or bit 0 was let go while bit 2 stayed down.
   */
  lemma ListenerKnows(reports: seq<Buttons>, key: Key)
    ensures Believed(Emitted(RELEASED, reports), key, false) == KeyDown(Last(RELEASED, reports), key)
            <==> !(key.KEY_L? && Masked(RELEASED, reports, false))
  {
    BelievedIff(RELEASED, reports, key, false, false);
  }

  /** Both KEY_L buttons down, then one up: the listener takes the key for released. */
  lemma TwoButtonsOneKey()
    ensures var reports := [Low(1), Low(5), Low(4)];
            !Believed(Emitted(RELEASED, reports), KEY_L, false) && KeyDown(Low(4), KEY_L)
  {
    var reports := [Low(1), Low(5), Low(4)];
    assert reports[1..] == [Low(5), Low(4)] && reports[1..][1..] == [Low(4)];
    assert Masked(RELEASED, reports, false);
    ListenerKnows(reports, KEY_L);
  }

  // ---------------------------------------------------------------- the driver

  class MouseKeyboard {
    var preVal: bv8
    var submitted: nat
    ghost var reports: seq<Buttons>
    var events: seq<Event>

    ghost predicate Valid()
      reads this
    {
      Low(preVal) == Last(RELEASED, reports) && events == Emitted(RELEASED, reports)
    }

    constructor ()
      ensures Valid() && reports == [] && submitted == 0
    {
      preVal, submitted, reports, events := 0, 0, [], [];
    }

    method InputEvent(b: Bit, key: Key, down: bool)
      modifies this`events
      ensures events == old(events) + [Event(b, key, down)]
    {
      events := events + [Event(b, key, down)];
    }

    /** Masking two values with one bit and comparing compares that bit. */
    lemma OneBit(x: bv8, y: bv8)
      ensures (x & 1 != y & 1) == (On(Low(x), 0) != On(Low(y), 0))
      ensures (x & 2 != y & 2) == (On(Low(x), 1) != On(Low(y), 1))
      ensures (x & 4 != y & 4) == (On(Low(x), 2) != On(Low(y), 2))
    {
    }

    /** The three comparisons. */
    method EmitChanges(usbBuf: bv8)
      modifies this`events
      ensures events == old(events) + Changes(Low(preVal), Low(usbBuf))
      ensures OneReport(events[|old(events)|..], Low(preVal), Low(usbBuf), 3)
      ensures HasBit(events[|old(events)|..], 0) <==> preVal & 1 != usbBuf & 1
      ensures HasBit(events[|old(events)|..], 1) <==> preVal & 2 != usbBuf & 2
      ensures HasBit(events[|old(events)|..], 2) <==> preVal & 4 != usbBuf & 4
    {
      OneBit(preVal, usbBuf);
      ghost var es, pre, cur := events, Low(preVal), Low(usbBuf);
      if preVal & 1 != usbBuf & 1 {
        InputEvent(0, KEY_L, usbBuf & 1 != 0);
      }
      assert events == es + Change(pre, cur, 0);
      if preVal & 2 != usbBuf & 2 {
        InputEvent(1, KEY_S, usbBuf & 2 != 0);
      }
      assert events == es + Change(pre, cur, 0) + Change(pre, cur, 1);
      if preVal & 4 != usbBuf & 4 {
        InputEvent(2, KEY_L, usbBuf & 4 != 0);
      }
      assert events == es + Change(pre, cur, 0) + Change(pre, cur, 1) + Change(pre, cur, 2);
      Sums.Regroup(es, Change(pre, cur, 0), Change(pre, cur, 1));
      Sums.Regroup(es, Change(pre, cur, 0) + Change(pre, cur, 1), Change(pre, cur, 2));
      assert events[|es|..] == Changes(pre, cur);
      ChangesInOrder(pre, cur);
      BitsChanged(pre, cur);
    }

    /** The completion of one interrupt transfer: the events out so far stay those of all reports so far. */
    method UsbMousekbIrq(usbBuf: bv8)
      requires Valid()
      modifies this
      ensures Valid() && reports == old(reports) + [Low(usbBuf)] && submitted == old(submitted) + 1
      ensures old(events) <= events && OneReport(events[|old(events)|..], Low(old(preVal)), Low(usbBuf), 3)
    {
      EmittedSnoc(RELEASED, reports, Low(usbBuf));
      ghost var was := events;
      EmitChanges(usbBuf);
      assert was <= events && events == Emitted(RELEASED, reports + [Low(usbBuf)]);
      preVal := usbBuf;
      reports := reports + [Low(usbBuf)];
      submitted := submitted + 1;
    }
  }
}
