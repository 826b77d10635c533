/** skel_probe: the endpoint scan, the registration, and the clean-up on every failure. */
module SkelProbe {
  import opened Bytes
  import opened SkelModel
  import SkelDriver

  type u16 = x: int | 0 <= x < 65536

  datatype Endpoint = Endpoint(address: byte, attributes: byte, maxPacket: u16)

  predicate Bulk(e: Endpoint) { e.attributes % 4 == 2 }

  predicate BulkIn(e: Endpoint) { Bulk(e) && e.address >= 0x80 }

  predicate BulkOut(e: Endpoint) { Bulk(e) && e.address < 0x80 }

  /**
   The descriptor's bits: the transfer type is in the two low bits of bmAttributes, 2 being bulk, and the direction
   in the top bit of bEndpointAddress.
   */
  lemma BulkBits(address: bv8, attributes: bv8, maxPacket: u16)
    ensures var e := Endpoint(address as int, attributes as int, maxPacket);
            && (BulkIn(e) <==> attributes & 0x03 == 0x02 && address & 0x80 == 0x80)
            && (BulkOut(e) <==> attributes & 0x03 == 0x02 && address & 0x80 == 0)
  {
  }

  /** An address of 0 cannot be told from "not found yet". */
  predicate NotableOut(e: Endpoint) { BulkOut(e) && e.address != 0 }

  /** The first endpoint of a kind, found by a scan that stops looking once it has one. */
  function FirstMatch(es: seq<Endpoint>, p: Endpoint -> bool): Option<Endpoint> {
    if es == [] then
      None
    else
      var seen := FirstMatch(es[..|es| - 1], p);
      if seen.Some? then seen else if p(es[|es| - 1]) then Some(es[|es| - 1]) else None
  }

  predicate IsFirst(es: seq<Endpoint>, p: Endpoint -> bool, i: nat) {
    i < |es| && p(es[i]) && forall j :: 0 <= j < i ==> !p(es[j])
  }

  lemma {:induction false} FirstMatchNone(es: seq<Endpoint>, p: Endpoint -> bool)
    ensures FirstMatch(es, p).None? <==> forall j :: 0 <= j < |es| ==> !p(es[j])
  {
    if es != [] {
      var front := es[..|es| - 1];
      FirstMatchNone(front, p);
      assert forall j :: 0 <= j < |front| ==> front[j] == es[j];
      assert (forall j :: 0 <= j < |es| ==> !p(es[j]))
             <==> !p(es[|es| - 1]) && forall j :: 0 <= j < |front| ==> !p(front[j]);
    }
  }

  /** The scan finds the endpoint at the least index. */
  lemma {:induction false} FirstMatchIsFirst(es: seq<Endpoint>, p: Endpoint -> bool, i: nat)
    requires IsFirst(es, p, i)
    ensures FirstMatch(es, p) == Some(es[i])
  {
    var front := es[..|es| - 1];
    if i < |front| {
      assert front[i] == es[i] && forall j :: 0 <= j < i ==> front[j] == es[j];
      FirstMatchIsFirst(front, p, i);
    } else {
      assert forall j :: 0 <= j < |front| ==> front[j] == es[j];
      FirstMatchNone(front, p);
    }
  }

  /** Endpoint number 0 is the control pipe: section 9.6.6 of the USB 2.0 specification. */
  ghost predicate Compliant(es: seq<Endpoint>) {
    forall i :: 0 <= i < |es| && Bulk(es[i]) ==> es[i].address % 16 != 0
  }

  lemma {:induction false} FirstMatchMatches(es: seq<Endpoint>, p: Endpoint -> bool)
    ensures FirstMatch(es, p).Some? ==> p(FirstMatch(es, p).value)
  {
    if es != [] {
      FirstMatchMatches(es[..|es| - 1], p);
    }
  }

  /**
   With the 0 sentinel the scan takes the first bulk-out endpoint exactly when that endpoint's address is
   not 0, as on every compliant device; otherwise it passes over it and takes a later one, if any.
   */
  lemma SentinelSound(es: seq<Endpoint>, i: nat)
    requires IsFirst(es, BulkOut, i)
    ensures FirstMatch(es, BulkOut) == Some(es[i])
    ensures FirstMatch(es, NotableOut) == Some(es[i]) <==> es[i].address != 0
    ensures Compliant(es) ==> es[i].address != 0
  {
    FirstMatchIsFirst(es, BulkOut, i);
    FirstMatchMatches(es, NotableOut);
    if es[i].address != 0 {
      FirstMatchIsFirst(es, NotableOut, i);
    }
  }

  ghost predicate Has(es: seq<Endpoint>, p: Endpoint -> bool) { exists j :: 0 <= j < |es| && p(es[j]) }

  /**
   Both directions are found exactly when there is a bulk-in endpoint and a bulk-out endpoint whose address is
   not 0; on a compliant device, exactly when both directions occur.
   */
  lemma BothFound(es: seq<Endpoint>)
    ensures FirstMatch(es, BulkIn).Some? && FirstMatch(es, NotableOut).Some? <==> Has(es, BulkIn) && Has(es, NotableOut)
    ensures Compliant(es) ==> (Has(es, NotableOut) <==> Has(es, BulkOut))
  {
    FirstMatchNone(es, BulkIn);
    FirstMatchNone(es, NotableOut);
    if Compliant(es) && Has(es, BulkOut) {
      var j :| 0 <= j < |es| && BulkOut(es[j]);
      assert NotableOut(es[j]);
    }
  }

  /** What the driver holds on behalf of one interface. */
  class Interface {
    var devAllocs: nat
    var devFrees: nat
    var bufAllocs: nat
    var bufFrees: nat
    var udev: int
    var intfdata: bool
    var registered: bool
    // struct usb_skel
    var kref: int
    var limitSem: int
    var bulkInSize: nat
    var bulkInAddr: byte
    var bulkOutAddr: byte
    var bulkInBuffer: array?<byte>

    /** Before probe, and after any failed one. */
    ghost predicate Unbound()
      reads this
    {
      devAllocs == devFrees && bufAllocs == bufFrees && udev == 0 && !intfdata && !registered
    }

    /** The structure is allocated and holds one udev reference; the buffer is allocated once the scan has needed it. */
    ghost predicate Holding()
      reads this
    {
      && devAllocs == devFrees + 1 && udev == 1 && kref == 1
      && bufAllocs == bufFrees + (if bulkInBuffer == null then 0 else 1)
      && !intfdata && !registered
    }

    /** After a successful one: a structure, a buffer and a udev reference are held, and the device is published. */
    ghost predicate Bound()
      reads this
    {
      && devAllocs == devFrees + 1 && bufAllocs == bufFrees + 1 && udev == 1 && intfdata && registered
      && kref == 1 && limitSem == WRITES_IN_FLIGHT && bulkInBuffer != null
    }

    constructor ()
      ensures Unbound() && devAllocs == 0 && bufAllocs == 0
    {
      devAllocs, devFrees, bufAllocs, bufFrees, udev, intfdata, registered := 0, 0, 0, 0, 0, false, false;
      bulkInBuffer := null;
    }

    /** The error label, once the structure exists: kref_put drops the only reference, and skel_delete runs. */
    method PutOnError()
      requires Holding()
      modifies this
      ensures Unbound() && devFrees == old(devFrees) + 1 && devAllocs == old(devAllocs) && bufAllocs == old(bufAllocs)
    {
      kref := kref - 1;
      if kref == 0 {
        udev := udev - 1;
        if bulkInBuffer != null {
          bufFrees := bufFrees + 1;
        }
        devFrees := devFrees + 1;
      }
    }

    /** What the scan has recorded about the endpoints it has seen. */
    ghost predicate Recorded(seen: seq<Endpoint>)
      reads this
    {
      && (match FirstMatch(seen, BulkIn)
          case None => bulkInAddr == 0 && bulkInBuffer == null
          case Some(e) =>
            && bulkInAddr == e.address != 0 && bulkInSize == e.maxPacket
            && bulkInBuffer != null && bulkInBuffer.Length == bulkInSize)
      && bulkOutAddr == (if FirstMatch(seen, NotableOut).Some? then FirstMatch(seen, NotableOut).value.address else 0)
      && (FirstMatch(seen, NotableOut).Some? ==> bulkOutAddr != 0)
    }

    /** The address and size of the first bulk-in endpoint, its buffer, and the address of the first bulk-out one. */
    ghost predicate HoldsFirst(es: seq<Endpoint>)
      reads this
    {
      && (forall i: nat :: IsFirst(es, BulkIn, i) ==>
            && bulkInAddr == es[i].address && bulkInSize == es[i].maxPacket
            && bulkInBuffer != null && bulkInBuffer.Length == es[i].maxPacket)
      && (forall i: nat :: IsFirst(es, NotableOut, i) ==> bulkOutAddr == es[i].address)
    }

    lemma RecordedFirst(es: seq<Endpoint>)
      requires Recorded(es)
      ensures HoldsFirst(es)
    {
      forall i: nat | IsFirst(es, BulkIn, i) ensures FirstMatch(es, BulkIn) == Some(es[i]) {
        FirstMatchIsFirst(es, BulkIn, i);
      }
      forall i: nat | IsFirst(es, NotableOut, i) ensures FirstMatch(es, NotableOut) == Some(es[i]) {
        FirstMatchIsFirst(es, NotableOut, i);
      }
    }

    /** One round of the scan; `ok` is false when bulk_in_buffer cannot be allocated. */
    method NoteEndpoint(es: seq<Endpoint>, i: nat, kmallocOk: bool) returns (ok: bool)
      requires i < |es| && Holding() && Recorded(es[..i])
      modifies this`bulkInSize, this`bulkInAddr, this`bulkInBuffer, this`bulkOutAddr, this`bufAllocs
      ensures Holding()
      ensures ok ==> Recorded(es[..i + 1])
      ensures ok <==> kmallocOk || FirstMatch(es[..i], BulkIn).Some? || !BulkIn(es[i])
      ensures bulkInBuffer == old(bulkInBuffer) || fresh(bulkInBuffer)
    {
      assert es[..i + 1][..i] == es[..i];
      if bulkInAddr == 0 && BulkIn(es[i]) {
        bulkInSize := es[i].maxPacket;
        bulkInAddr := es[i].address;
        if !kmallocOk {
          return false;
        }
        bulkInBuffer := new byte[bulkInSize];
        bufAllocs := bufAllocs + 1;
      }
      if bulkOutAddr == 0 && BulkOut(es[i]) {
        bulkOutAddr := es[i].address;
      }
      return true;
    }

    /** The scan over the whole list. */
    method ScanEndpoints(es: seq<Endpoint>, kmallocOk: bool) returns (ok: bool)
      requires Holding() && bulkInAddr == 0 && bulkOutAddr == 0 && bulkInBuffer == null
      modifies this`bulkInSize, this`bulkInAddr, this`bulkInBuffer, this`bulkOutAddr, this`bufAllocs
      ensures Holding()
      ensures ok ==> Recorded(es)
      ensures ok <==> kmallocOk || FirstMatch(es, BulkIn).None?
      ensures bulkInBuffer == null || fresh(bulkInBuffer)
    {
      for i := 0 to |es|
        invariant Holding() && Recorded(es[..i])
        invariant bulkInBuffer == null || fresh(bulkInBuffer)
        invariant kmallocOk || FirstMatch(es[..i], BulkIn).None?
      {
        assert es[..i + 1][..i] == es[..i];
        var noted := NoteEndpoint(es, i, kmallocOk);
        if !noted {
          FirstMatchNone(es, BulkIn);
          return false;
        }
      }
      assert es[..|es|] == es;
      return true;
    }

    /** Everything works out: both directions occur, and no allocation or registration fails. */
    ghost predicate CanBind(es: seq<Endpoint>, kzallocOk: bool, kmallocOk: bool) {
      kzallocOk && kmallocOk && FirstMatch(es, BulkIn).Some? && FirstMatch(es, NotableOut).Some?
    }

    /** The body of skel_probe; the driver's own state follows below. */
    method Bind(es: seq<Endpoint>, kzallocOk: bool, kmallocOk: bool, registration: int) returns (ret: int)
      requires Unbound() && registration <= 0
      modifies this
      ensures ret == if CanBind(es, kzallocOk, kmallocOk) then registration else -12
      ensures devAllocs == old(devAllocs) + (if kzallocOk then 1 else 0)
      ensures if ret == 0 then Bound() && Recorded(es) && fresh(bulkInBuffer) else Unbound()
    {
      if !kzallocOk {
        return ENOMEM;
      }
      devAllocs := devAllocs + 1;
      bulkInAddr, bulkOutAddr, bulkInSize, bulkInBuffer := 0, 0, 0, null;
      kref, limitSem := 1, WRITES_IN_FLIGHT;
      udev := udev + 1;
      var ok := ScanEndpoints(es, kmallocOk);
      if !ok || bulkInAddr == 0 || bulkOutAddr == 0 {
        PutOnError();
        return ENOMEM;
      }
      intfdata := true;
      if registration != 0 {
        intfdata := false;
        PutOnError();
        return registration;
      }
      registered := true;
      return 0;
    }

    /**
     Probe succeeds exactly when both directions occur and no allocation or registration fails; then it has
     recorded the first endpoint of each and the driver starts in the step system's initial state. In every
     other case all that was acquired has been released, once.
     */
    method SkelProbe(es: seq<Endpoint>, kzallocOk: bool, kmallocOk: bool, registration: int)
      returns (ret: int, driver: SkelDriver.Driver?)
      requires Unbound() && registration <= 0
      modifies this
      ensures ret == if CanBind(es, kzallocOk, kmallocOk) then registration else -12
      ensures ret == 0 ==> Has(es, BulkIn) && Has(es, NotableOut)
      ensures ret == 0 ==> HoldsFirst(es)
      ensures if ret == 0 then Bound() && Recorded(es) else Unbound() && driver == null
      ensures Compliant(es) ==>
                (ret == 0 <==> kzallocOk && kmallocOk && registration == 0 && Has(es, BulkIn) && Has(es, BulkOut))
      ensures ret == 0 ==> driver != null && driver.Valid() && driver.View() == Init(bulkInBuffer[..])
    {
      BothFound(es);
      ret := Bind(es, kzallocOk, kmallocOk, registration);
      driver := null;
      if ret == 0 {
        RecordedFirst(es);
        driver := new SkelDriver.Driver(bulkInBuffer);
      }
    }
  }
}
