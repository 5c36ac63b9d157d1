/**
 * `QHidDevicePrivate`: one device session over hidapi.  It holds the
 * vendor/product identity used to (re)open a device, the records found at
 * construction, and an optional handle.
 */
module DevicePrivate {
  import opened HidApi
  import opened DeviceInfo
  import opened Report

  /** The events `enumerate` leaves: the list hidapi returned, then the
      release of the pointer the walk stopped at, which is always null. */
  function EnumerationEvents(vendorId: UShort, productId: UShort, head: InfoList): seq<Event>
  {
    [Event(HidEnumerate(vendorId, productId), Listed(head)), Event(HidFreeEnumeration(Null), Done)]
  }

  /** The `hid_close` a held handle gets; nothing when there is none. */
  function CloseEvents(device: Option<Handle>): seq<Event>
  {
    if device.Some? then [Event(HidClose(device.value), Done)] else []
  }

  /** Every open overload: close what was held, then one open call whose
      answer becomes the new handle. */
  function OpenEvents(previous: Option<Handle>, call: Call, result: Option<Handle>): seq<Event>
  {
    CloseEvents(previous) + [Event(call, Opened(result))]
  }

  /** The serial argument `hid_open` gets: null for the empty string. */
  function SerialArgument(serialNumber: string): Option<string>
  {
    if serialNumber == "" then None else Some(serialNumber)
  }

  /** What a string accessor returns for the getter's answer: the decoded
      buffer unless the status is -1. */
  function Decoded(n: int, text: string): string
  {
    if n != -1 then text else ""
  }

  class HidDevicePrivate {
    static const MaxStr := 255

    const transport: Transport
    var vendorId: UShort    // `quint32` in the source; every assignment stores a `ushort`
    var productId: UShort
    const serialNumber: string    // `mSerialNumber`: default-constructed empty, never assigned
    var deviceInfoList: seq<Info>
    var device: Option<Handle>    // `m_device`
    ghost var obtained: set<Handle> // every handle this session obtained

    ghost function Held(): set<Handle>
      reads this
    {
      if device.Some? then {device.value} else {}
    }

    /** No handle leaks: of the handles this session obtained, only the one it
        still holds may be live.  The held handle itself need not be live:
        `Close` leaves it in place. */
    ghost predicate Valid()
      reads this, transport
    {
      (forall h :: h in obtained ==> h.id < transport.next) &&
      (device.Some? ==> device.value in obtained) &&
      obtained * transport.live <= Held()
    }

    /** Hidapi's live handles and handle counter are as they were. */
    twostate predicate HandlesKept()
      reads this, transport
    {
      transport.live == old(transport.live) && transport.next == old(transport.next)
    }

    /** `enumerate(vendorId, productId)`: walks hidapi's list into records. */
    static method Enumerate(transport: Transport, vendorId: UShort, productId: UShort)
      returns (list: seq<Info>, ghost head: InfoList)
      modifies transport
      ensures transport.trace == old(transport.trace) + EnumerationEvents(vendorId, productId, head)
      ensures list == Records(head)
      ensures transport.live == old(transport.live) && transport.next == old(transport.next)
    {
      var info := transport.Enumerate(vendorId, productId);
      head := info;
      list := [];
      while info != Null
        invariant Records(head) == list + Records(info)
        decreases info
      {
        list := list + [FromNode(info)];
        info := info.next;
      }
      transport.FreeEnumeration(info);
    }

    constructor (transport: Transport, vendorId: UShort, productId: UShort)
      modifies transport
      ensures Valid()
      ensures this.transport == transport
      ensures this.vendorId == vendorId && this.productId == productId && serialNumber == ""
      ensures device == None && obtained == {}
      ensures exists head :: transport.trace == old(transport.trace) + EnumerationEvents(vendorId, productId, head)
                          && deviceInfoList == Records(head)
      ensures transport.live == old(transport.live) && transport.next == old(transport.next)
    {
      this.transport := transport;
      this.vendorId := vendorId;
      this.productId := productId;
      serialNumber := "";
      var list;
      ghost var head;
      list, head := Enumerate(transport, vendorId, productId);
      deviceInfoList := list;
      device := None;
      obtained := {};
    }

    /** The destructor: closes a present handle, even one already closed. */
    method Dispose()
      requires Valid()
      modifies transport
      ensures Valid()
      ensures transport.trace == old(transport.trace) + CloseEvents(device)
      ensures transport.live == old(transport.live) - Held() && transport.next == old(transport.next)
      ensures obtained * transport.live == {}
    {
      if device.Some? {
        transport.Close(device.value);
      }
    }

    /** `close()`: closes a present handle but keeps referring to it. */
    method Close()
      requires Valid()
      modifies transport
      ensures Valid()
      ensures transport.trace == old(transport.trace) + CloseEvents(device)
      ensures transport.live == old(transport.live) - Held() && transport.next == old(transport.next)
      ensures obtained * transport.live == {}
      ensures device.Some? ==> device.value !in transport.live
    {
      if device.Some? {
        transport.Close(device.value);
      }
    }

    /** `open(path)`. */
    method OpenPath(path: string) returns (ok: bool)
      requires Valid()
      modifies this, transport
      ensures Valid()
      ensures transport.trace == old(transport.trace) + OpenEvents(old(device), HidOpenPath(path), device)
      ensures ok <==> device.Some?
      ensures device.Some? ==> device.value in transport.live && device.value !in old(obtained)
      ensures device.Some? ==> device.value == Handle(old(transport.next))
      ensures transport.live == old(transport.live) - old(Held()) + Held()
      ensures transport.next == old(transport.next) + 1
      ensures vendorId == old(vendorId) && productId == old(productId) && deviceInfoList == old(deviceInfoList)
    {
      if device.Some? {
        transport.Close(device.value);
        device := None;
      }
      var h := transport.OpenPath(path);
      if h.Some? {
        device := h;
        obtained := obtained + {h.value};
      }
      ok := h.Some?;
    }

    /** `open(vendorId, productId, serialNumber)`: records the ids, not the serial. */
    method OpenIds(vendorId: UShort, productId: UShort, serialNumber: string) returns (ok: bool)
      requires Valid()
      modifies this, transport
      ensures Valid()
      ensures this.vendorId == vendorId && this.productId == productId
      ensures transport.trace == old(transport.trace) +
        OpenEvents(old(device), HidOpen(vendorId, productId, SerialArgument(serialNumber)), device)
      ensures ok <==> device.Some?
      ensures device.Some? ==> device.value in transport.live && device.value !in old(obtained)
      ensures device.Some? ==> device.value == Handle(old(transport.next))
      ensures transport.live == old(transport.live) - old(Held()) + Held()
      ensures transport.next == old(transport.next) + 1
      ensures deviceInfoList == old(deviceInfoList)
    {
      if device.Some? {
        transport.Close(device.value);
        device := None;
      }
      this.vendorId := vendorId;
      this.productId := productId;
      var h;
      if serialNumber == "" {
        h := transport.Open(vendorId, productId, None);
      } else {
        h := transport.Open(vendorId, productId, Some(serialNumber));
      }
      if h.Some? {
        device := h;
        obtained := obtained + {h.value};
      }
      ok := h.Some?;
    }

    /** `open()`: reopens by the stored ids and the never-assigned serial. */
    method Reopen() returns (ok: bool)
      requires Valid()
      modifies this, transport
      ensures Valid()
      ensures transport.trace == old(transport.trace) +
        OpenEvents(old(device), HidOpen(vendorId, productId, SerialArgument(serialNumber)), device)
      ensures ok <==> device.Some?
      ensures device.Some? ==> device.value in transport.live && device.value !in old(obtained)
      ensures device.Some? ==> device.value == Handle(old(transport.next))
      ensures transport.live == old(transport.live) - old(Held()) + Held()
      ensures transport.next == old(transport.next) + 1
      ensures vendorId == old(vendorId) && productId == old(productId) && deviceInfoList == old(deviceInfoList)
    {
      if device.Some? {
        transport.Close(device.value);
        device := None;
      }
      var h;
      if serialNumber == "" {
        h := transport.Open(vendorId, productId, None);
      } else {
        h := transport.Open(vendorId, productId, Some(serialNumber));
      }
      if h.Some? {
        device := h;
        obtained := obtained + {h.value};
      }
      ok := h.Some?;
    }

    /** `read(data, maxSize)`: 0 without a handle, otherwise hidapi's count. */
    method Read(data: array<Byte>, maxSize: Int64) returns (r: Int64)
      requires Valid()
      modifies transport, data
      ensures HandlesKept()
      ensures Valid()
      ensures device.None? ==> r == 0 && transport.trace == old(transport.trace) && data[..] == old(data[..])
      ensures device.Some? && maxSize >= 0 ==> r <= maxSize
      ensures device.Some? ==>
        transport.trace == old(transport.trace) + [Event(HidRead(device.value, ToSizeT(maxSize)), Filled(r, data[..]))]
    {
      var length := ToSizeT(maxSize);
      if device.Some? {
        var rep := transport.Read(device.value, data, length);
        return rep;
      }
      return 0;
    }

    /** `read(data, maxSize, milliseconds)`. */
    method ReadTimeout(data: array<Byte>, maxSize: Int64, milliseconds: Int32) returns (r: Int64)
      requires Valid()
      modifies transport, data
      ensures HandlesKept()
      ensures Valid()
      ensures device.None? ==> r == 0 && transport.trace == old(transport.trace) && data[..] == old(data[..])
      ensures device.Some? && maxSize >= 0 ==> r <= maxSize
      ensures device.Some? ==>
        transport.trace == old(transport.trace) +
          [Event(HidReadTimeout(device.value, ToSizeT(maxSize), milliseconds), Filled(r, data[..]))]
    {
      var length := ToSizeT(maxSize);
      if device.Some? {
        var rep := transport.ReadTimeout(device.value, data, length, milliseconds);
        return rep;
      }
      return 0;
    }

    /** The protected `read()`: one report of up to 65 bytes. */
    method ReadReport() returns (r: seq<Byte>)
      requires Valid()
      modifies transport
      ensures HandlesKept()
      ensures Valid()
      ensures device.None? ==> r == [] && transport.trace == old(transport.trace)
      ensures device.Some? ==> exists n, filled ::
        |filled| == ScratchSize && n <= ScratchSize &&
        transport.trace == old(transport.trace) + [Event(HidRead(device.value, ScratchSize), Filled(n, filled))] &&
        r == Received(filled, n)
    {
      if device.Some? {
        var buf := new Byte[ScratchSize];
        var rep := transport.Read(device.value, buf, ScratchSize);
        assert transport.trace[|old(transport.trace)|].reply == Filled(rep, buf[..]);
        if rep > 0 {
          return buf[..rep];
        }
      }
      return [];
    }

    /** The protected `read(timeout)`. */
    method ReadReportTimeout(timeout: Int32) returns (r: seq<Byte>)
      requires Valid()
      modifies transport
      ensures HandlesKept()
      ensures Valid()
      ensures device.None? ==> r == [] && transport.trace == old(transport.trace)
      ensures device.Some? ==> exists n, filled ::
        |filled| == ScratchSize && n <= ScratchSize &&
        transport.trace == old(transport.trace) +
          [Event(HidReadTimeout(device.value, ScratchSize, timeout), Filled(n, filled))] &&
        r == Received(filled, n)
    {
      if device.Some? {
        var buf := new Byte[ScratchSize];
        var rep := transport.ReadTimeout(device.value, buf, ScratchSize, timeout);
        assert transport.trace[|old(transport.trace)|].reply == Filled(rep, buf[..]);
        if rep > 0 {
          return buf[..rep];
        }
      }
      return [];
    }

    /** `featureReport(reportId)`: a 65-byte buffer whose byte 0 is the report ID. */
    method FeatureReport(reportId: UInt32) returns (r: seq<Byte>)
      requires Valid()
      modifies transport
      ensures HandlesKept()
      ensures Valid()
      ensures device.None? ==> r == [] && transport.trace == old(transport.trace)
      ensures device.Some? ==> exists scratch, n, filled ::
        |scratch| == ScratchSize && scratch[0] == LowByte(reportId) &&
        |filled| == ScratchSize && n <= ScratchSize &&
        transport.trace == old(transport.trace) +
          [Event(HidGetFeatureReport(device.value, scratch, ScratchSize), Filled(n, filled))] &&
        r == Received(filled, n)
    {
      if device.Some? {
        var buf := new Byte[ScratchSize];
        buf[0] := LowByte(reportId);
        ghost var scratch := buf[..];
        var rep := transport.GetFeatureReport(device.value, buf, ScratchSize);
        assert transport.trace[|old(transport.trace)|] ==
          Event(HidGetFeatureReport(device.value, scratch, ScratchSize), Filled(rep, buf[..]));
        if rep > 0 {
          return buf[..rep];
        }
      }
      return [];
    }

    /** `sendFeatureReport(reportId, data)`: -1 for a payload over 64 bytes or
        without a handle; otherwise the report ID and payload are sent. */
    method SendFeatureReport(reportId: Byte, data: seq<Byte>) returns (r: Int32)
      requires Valid()
      modifies transport
      ensures HandlesKept()
      ensures Valid()
      ensures Numbered(reportId, data).None? || device.None? ==>
        r == -1 && transport.trace == old(transport.trace)
      ensures Numbered(reportId, data).Some? && device.Some? ==>
        var report := Numbered(reportId, data).value;
        transport.trace == old(transport.trace) +
          [Event(HidSendFeatureReport(device.value, report, |report|), Status(r))]
    {
      if |data| > MaxPayload {
        return -1;
      }
      if device.Some? {
        var report := [reportId] + data;
        r := transport.SendFeatureReport(device.value, report, |report|);
        return r;
      }
      return -1;
    }

    /** `write(data, maxlen)` on a raw buffer: no length check at all. */
    method WriteBuffer(data: array<Byte>, maxlen: UInt64) returns (r: Int32)
      requires Valid()
      modifies transport
      ensures HandlesKept()
      ensures Valid()
      ensures device.None? ==> r == -1 && transport.trace == old(transport.trace)
      ensures device.Some? ==>
        transport.trace == old(transport.trace) + [Event(HidWrite(device.value, data[..], maxlen), Status(r))]
    {
      if device.Some? {
        r := transport.Write(device.value, data[..], maxlen);
        return r;
      }
      return -1;
    }

    /** `write(data, reportNumber)`: the payload framed under its report number. */
    method WriteNumbered(data: seq<Byte>, reportNumber: Byte) returns (r: Int32)
      requires Valid()
      modifies transport
      ensures HandlesKept()
      ensures Valid()
      ensures Numbered(reportNumber, data).None? || device.None? ==>
        r == -1 && transport.trace == old(transport.trace)
      ensures Numbered(reportNumber, data).Some? && device.Some? ==>
        var report := Numbered(reportNumber, data).value;
        transport.trace == old(transport.trace) + [Event(HidWrite(device.value, report, |report|), Status(r))]
    {
      if |data| > MaxPayload {
        return -1;
      }
      if device.Some? {
        var report := [reportNumber] + data;
        r := transport.Write(device.value, report, |report|);
        return r;
      }
      return -1;
    }

    /** `write(data)`: a report that already starts with its report ID. */
    method WriteReport(data: seq<Byte>) returns (r: Int32)
      requires Valid()
      modifies transport
      ensures HandlesKept()
      ensures Valid()
      ensures Raw(data).None? || device.None? ==> r == -1 && transport.trace == old(transport.trace)
      ensures Raw(data).Some? && device.Some? ==>
        transport.trace == old(transport.trace) + [Event(HidWrite(device.value, data, |data|), Status(r))]
    {
      if |data| > MaxReport {
        return -1;
      }
      if device.Some? {
        r := transport.Write(device.value, data, |data|);
        return r;
      }
      return -1;
    }

    /** `manufacturerString()`: its guard is inverted, so it answers the empty
        string while a handle is held and otherwise asks hidapi about the
        null handle. */
    method ManufacturerString() returns (r: string)
      requires Valid()
      modifies transport
      ensures HandlesKept()
      ensures Valid()
      ensures |r| < MaxStr
      ensures device.Some? ==> r == "" && transport.trace == old(transport.trace)
      ensures device.None? ==> exists n, text ::
        transport.trace == old(transport.trace) + [Event(HidGetManufacturerString(None, MaxStr), Text(n, text))] &&
        r == Decoded(n, text)
    {
      if device.Some? {
        return "";
      }
      var rep, text := transport.GetManufacturerString(device, MaxStr);
      assert transport.trace[|old(transport.trace)|].reply == Text(rep, text);
      if rep != -1 {
        return text;
      }
      return "";
    }

    method ProductString() returns (r: string)
      requires Valid()
      modifies transport
      ensures HandlesKept()
      ensures Valid()
      ensures |r| < MaxStr
      ensures device.None? ==> r == "" && transport.trace == old(transport.trace)
      ensures device.Some? ==> exists n, text ::
        transport.trace == old(transport.trace) + [Event(HidGetProductString(device.value, MaxStr), Text(n, text))] &&
        r == Decoded(n, text)
    {
      if device.None? {
        return "";
      }
      var rep, text := transport.GetProductString(device.value, MaxStr);
      assert transport.trace[|old(transport.trace)|].reply == Text(rep, text);
      if rep != -1 {
        return text;
      }
      return "";
    }

    method SerialNumberString() returns (r: string)
      requires Valid()
      modifies transport
      ensures HandlesKept()
      ensures Valid()
      ensures |r| < MaxStr
      ensures device.None? ==> r == "" && transport.trace == old(transport.trace)
      ensures device.Some? ==> exists n, text ::
        transport.trace == old(transport.trace) + [Event(HidGetSerialNumberString(device.value, MaxStr), Text(n, text))] &&
        r == Decoded(n, text)
    {
      if device.None? {
        return "";
      }
      var rep, text := transport.GetSerialNumberString(device.value, MaxStr);
      assert transport.trace[|old(transport.trace)|].reply == Text(rep, text);
      if rep != -1 {
        return text;
      }
      return "";
    }

    method IndexedString(index: Int32) returns (r: string)
      requires Valid()
      modifies transport
      ensures HandlesKept()
      ensures Valid()
      ensures |r| < MaxStr
      ensures device.None? ==> r == "" && transport.trace == old(transport.trace)
      ensures device.Some? ==> exists n, text ::
        transport.trace == old(transport.trace) +
          [Event(HidGetIndexedString(device.value, index, MaxStr), Text(n, text))] &&
        r == Decoded(n, text)
    {
      if device.None? {
        return "";
      }
      var rep, text := transport.GetIndexedString(device.value, index, MaxStr);
      assert transport.trace[|old(transport.trace)|].reply == Text(rep, text);
      if rep != -1 {
        return text;
      }
      return "";
    }

    /** `error()`: hidapi's last error text, empty for the null pointer or
        without a handle. */
    method Error() returns (r: string)
      requires Valid()
      modifies transport
      ensures HandlesKept()
      ensures Valid()
      ensures device.None? ==> r == "" && transport.trace == old(transport.trace)
      ensures device.Some? ==> exists message ::
        transport.trace == old(transport.trace) + [Event(HidError(device.value), Message(message))] &&
        r == (if message.Some? then message.value else "")
    {
      if device.Some? {
        var message := transport.Error(device.value);
        assert transport.trace[|old(transport.trace)|].reply == Message(message);
        // a null message decodes to the empty string, which `r == NULL` maps to ""
        r := if message.Some? then message.value else "";
        return r;
      }
      return "";
    }

    /** `setBlocking()`: passes hidapi's nonblock flag 1 and answers
        `rep != 0`, which is true exactly when hidapi reports an error. */
    method SetBlocking() returns (r: bool)
      requires Valid()
      modifies transport
      ensures HandlesKept()
      ensures Valid()
      ensures device.None? ==> !r && transport.trace == old(transport.trace)
      ensures device.Some? ==> exists n ::
        transport.trace == old(transport.trace) + [Event(HidSetNonblocking(device.value, 1), Status(n))] &&
        r == (n != 0)
    {
      if device.Some? {
        var rep := transport.SetNonblocking(device.value, 1);
        assert transport.trace[|old(transport.trace)|].reply == Status(rep);
        return rep != 0;
      }
      return false;
    }

    /** `setNonBlocking()`: passes the flag 0, answering `rep != 0` too. */
    method SetNonBlocking() returns (r: bool)
      requires Valid()
      modifies transport
      ensures HandlesKept()
      ensures Valid()
      ensures device.None? ==> !r && transport.trace == old(transport.trace)
      ensures device.Some? ==> exists n ::
        transport.trace == old(transport.trace) + [Event(HidSetNonblocking(device.value, 0), Status(n))] &&
        r == (n != 0)
    {
      if device.Some? {
        var rep := transport.SetNonblocking(device.value, 0);
        assert transport.trace[|old(transport.trace)|].reply == Status(rep);
        return rep != 0;
      }
      return false;
    }
  }
}
