/**
 * The hidapi library as the device layer sees it.
 *
 * Every `hid_*` primitive is a method of `Transport` whose results are
 * arbitrary: the bodies choose them with `*`, so a caller can rely on nothing
 * but the contracts below, which hold only what hidapi itself documents (a
 * read never reports more bytes than it was asked for, a string getter fits
 * its buffer, an open creates a new device object).  The ghost `trace`
 * records every call together with its reply, and the ghost `live` set
 * holds the handles opened and not yet closed, so that properties of the
 * devices built on top can say what was sent and whether hidapi was touched.
 */
module HidApi {

  /** C integer types the source passes around. */
  type Byte = b: int | 0 <= b < 0x100                                             // uchar, quint8
  type UShort = x: int | 0 <= x < 0x1_0000                                        // ushort
  type Int32 = x: int | -0x8000_0000 <= x < 0x8000_0000                           // int
  type UInt32 = x: int | 0 <= x < 0x1_0000_0000                                   // uint
  type Int64 = x: int | -0x8000_0000_0000_0000 <= x < 0x8000_0000_0000_0000       // qint64
  type UInt64 = x: int | 0 <= x < 0x1_0000_0000_0000_0000                         // quint64, size_t

  /** The `(size_t)` cast of a `qint64`: a negative count wraps around. */
  function ToSizeT(x: Int64): (r: UInt64)
    ensures x >= 0 ==> r == x
    ensures x < 0 ==> r == x + 0x1_0000_0000_0000_0000
  {
    x % 0x1_0000_0000_0000_0000
  }

  datatype Option<T> = None | Some(value: T)

  /** The device object a `hid_device *` points to, not the pointer's value
      (a freed object's address may come back from a later open); `None` in
      an `Option<Handle>` is the null pointer. */
  datatype Handle = Handle(id: nat)

  /** The `hid_device_info` list `hid_enumerate` returns; `Null` ends it. */
  datatype InfoList =
    | Null
    | Node(path: string, vendorId: UShort, productId: UShort, serialNumber: string,
           releaseNumber: UShort, manufacturerString: string, productString: string,
           interfaceNumber: Int32, next: InfoList)

  /** One call into hidapi, with the arguments it was given. */
  datatype Call =
    | HidInit
    | HidExit
    | HidEnumerate(vendorId: UShort, productId: UShort)
    | HidFreeEnumeration(list: InfoList)
    | HidOpen(vendorId: UShort, productId: UShort, serialNumber: Option<string>)
    | HidOpenPath(path: string)
    | HidClose(handle: Handle)
    | HidRead(handle: Handle, length: nat)
    | HidReadTimeout(handle: Handle, length: nat, milliseconds: int)
    | HidWrite(handle: Handle, data: seq<Byte>, length: nat)
    | HidGetFeatureReport(handle: Handle, data: seq<Byte>, length: nat)
    | HidSendFeatureReport(handle: Handle, data: seq<Byte>, length: nat)
    | HidGetManufacturerString(device: Option<Handle>, maxLength: nat)
    | HidGetProductString(handle: Handle, maxLength: nat)
    | HidGetSerialNumberString(handle: Handle, maxLength: nat)
    | HidGetIndexedString(handle: Handle, index: int, maxLength: nat)
    | HidSetNonblocking(handle: Handle, nonblock: int)
    | HidError(handle: Handle)

  /** What hidapi answered: a status or count, a handle, a list, the
      contents of a buffer it filled, a string it decoded, or nothing. */
  datatype Reply =
    | Status(n: int)
    | Opened(result: Option<Handle>)
    | Listed(head: InfoList)
    | Filled(n: int, data: seq<Byte>)
    | Text(n: int, text: string)
    | Message(message: Option<string>)
    | Done

  datatype Event = Event(call: Call, reply: Reply)

  class Transport {
    ghost var trace: seq<Event>
    ghost var live: set<Handle>
    var next: nat   // the id the next opened handle gets

    constructor ()
      ensures trace == [] && live == {}
    {
      trace, live, next := [], {}, 0;
    }

    method Init() returns (r: Int32)
      modifies this
      ensures trace == old(trace) + [Event(HidInit, Status(r))]
      ensures live == old(live) && next == old(next)
    {
      r := *;
      trace := trace + [Event(HidInit, Status(r))];
    }

    method Exit() returns (r: Int32)
      modifies this
      ensures trace == old(trace) + [Event(HidExit, Status(r))]
      ensures live == old(live) && next == old(next)
    {
      r := *;
      trace := trace + [Event(HidExit, Status(r))];
    }

    method Enumerate(vendorId: UShort, productId: UShort) returns (head: InfoList)
      modifies this
      ensures trace == old(trace) + [Event(HidEnumerate(vendorId, productId), Listed(head))]
      ensures live == old(live) && next == old(next)
    {
      head := *;
      trace := trace + [Event(HidEnumerate(vendorId, productId), Listed(head))];
    }

    method FreeEnumeration(list: InfoList)
      modifies this
      ensures trace == old(trace) + [Event(HidFreeEnumeration(list), Done)]
      ensures live == old(live) && next == old(next)
    {
      trace := trace + [Event(HidFreeEnumeration(list), Done)];
    }

    /** `hid_open`: on success a new device object, now live. */
    method Open(vendorId: UShort, productId: UShort, serialNumber: Option<string>)
      returns (h: Option<Handle>)
      modifies this
      ensures trace == old(trace) + [Event(HidOpen(vendorId, productId, serialNumber), Opened(h))]
      ensures h.Some? ==> h.value == Handle(old(next))
      ensures live == (if h.Some? then old(live) + {h.value} else old(live))
      ensures next == old(next) + 1
    {
      var found: bool := *;
      h := if found then Some(Handle(next)) else None;
      trace := trace + [Event(HidOpen(vendorId, productId, serialNumber), Opened(h))];
      live := if found then live + {Handle(next)} else live;
      next := next + 1;
    }

    method OpenPath(path: string) returns (h: Option<Handle>)
      modifies this
      ensures trace == old(trace) + [Event(HidOpenPath(path), Opened(h))]
      ensures h.Some? ==> h.value == Handle(old(next))
      ensures live == (if h.Some? then old(live) + {h.value} else old(live))
      ensures next == old(next) + 1
    {
      var found: bool := *;
      h := if found then Some(Handle(next)) else None;
      trace := trace + [Event(HidOpenPath(path), Opened(h))];
      live := if found then live + {Handle(next)} else live;
      next := next + 1;
    }

    /** `hid_close`; nothing stops a caller from closing a handle twice. */
    method Close(h: Handle)
      modifies this
      ensures trace == old(trace) + [Event(HidClose(h), Done)]
      ensures live == old(live) - {h} && next == old(next)
    {
      trace := trace + [Event(HidClose(h), Done)];
      live := live - {h};
    }

    /** `hid_read`: fills `buf` and returns at most `length`. */
    method Read(h: Handle, buf: array<Byte>, length: nat) returns (n: Int32)
      modifies this, buf
      ensures n <= length
      ensures trace == old(trace) + [Event(HidRead(h, length), Filled(n, buf[..]))]
      ensures live == old(live) && next == old(next)
    {
      n := *;
      if n > length { n := -1; }
      trace := trace + [Event(HidRead(h, length), Filled(n, buf[..]))];
    }

    method ReadTimeout(h: Handle, buf: array<Byte>, length: nat, milliseconds: Int32) returns (n: Int32)
      modifies this, buf
      ensures n <= length
      ensures trace == old(trace) + [Event(HidReadTimeout(h, length, milliseconds), Filled(n, buf[..]))]
      ensures live == old(live) && next == old(next)
    {
      n := *;
      if n > length { n := -1; }
      trace := trace + [Event(HidReadTimeout(h, length, milliseconds), Filled(n, buf[..]))];
    }

    method Write(h: Handle, data: seq<Byte>, length: nat) returns (n: Int32)
      modifies this
      ensures trace == old(trace) + [Event(HidWrite(h, data, length), Status(n))]
      ensures live == old(live) && next == old(next)
    {
      n := *;
      trace := trace + [Event(HidWrite(h, data, length), Status(n))];
    }

    /** `hid_get_feature_report`: `buf` goes in holding the report ID in byte 0
        and comes back filled; the count is at most `length`. */
    method GetFeatureReport(h: Handle, buf: array<Byte>, length: nat) returns (n: Int32)
      modifies this, buf
      ensures n <= length
      ensures trace == old(trace) + [Event(HidGetFeatureReport(h, old(buf[..]), length), Filled(n, buf[..]))]
      ensures live == old(live) && next == old(next)
    {
      n := *;
      if n > length { n := -1; }
      trace := trace + [Event(HidGetFeatureReport(h, buf[..], length), Filled(n, buf[..]))];
    }

    method SendFeatureReport(h: Handle, data: seq<Byte>, length: nat) returns (n: Int32)
      modifies this
      ensures trace == old(trace) + [Event(HidSendFeatureReport(h, data, length), Status(n))]
      ensures live == old(live) && next == old(next)
    {
      n := *;
      trace := trace + [Event(HidSendFeatureReport(h, data, length), Status(n))];
    }

    /** The string getters decode a wide-character buffer of `maxLength`
        characters, the last of which is the terminator. */
    method GetManufacturerString(device: Option<Handle>, maxLength: nat) returns (n: Int32, text: string)
      modifies this
      ensures maxLength > 0 ==> |text| < maxLength
      ensures trace == old(trace) + [Event(HidGetManufacturerString(device, maxLength), Text(n, text))]
      ensures live == old(live) && next == old(next)
    {
      n, text := *, *;
      if |text| >= maxLength { text := []; }
      trace := trace + [Event(HidGetManufacturerString(device, maxLength), Text(n, text))];
    }

    method GetProductString(h: Handle, maxLength: nat) returns (n: Int32, text: string)
      modifies this
      ensures maxLength > 0 ==> |text| < maxLength
      ensures trace == old(trace) + [Event(HidGetProductString(h, maxLength), Text(n, text))]
      ensures live == old(live) && next == old(next)
    {
      n, text := *, *;
      if |text| >= maxLength { text := []; }
      trace := trace + [Event(HidGetProductString(h, maxLength), Text(n, text))];
    }

    method GetSerialNumberString(h: Handle, maxLength: nat) returns (n: Int32, text: string)
      modifies this
      ensures maxLength > 0 ==> |text| < maxLength
      ensures trace == old(trace) + [Event(HidGetSerialNumberString(h, maxLength), Text(n, text))]
      ensures live == old(live) && next == old(next)
    {
      n, text := *, *;
      if |text| >= maxLength { text := []; }
      trace := trace + [Event(HidGetSerialNumberString(h, maxLength), Text(n, text))];
    }

    method GetIndexedString(h: Handle, index: Int32, maxLength: nat) returns (n: Int32, text: string)
      modifies this
      ensures maxLength > 0 ==> |text| < maxLength
      ensures trace == old(trace) + [Event(HidGetIndexedString(h, index, maxLength), Text(n, text))]
      ensures live == old(live) && next == old(next)
    {
      n, text := *, *;
      if |text| >= maxLength { text := []; }
      trace := trace + [Event(HidGetIndexedString(h, index, maxLength), Text(n, text))];
    }

    /** `hid_set_nonblocking(h, nonblock)`: a non-zero `nonblock` makes reads
        return at once; hidapi answers 0 on success and -1 on error. */
    method SetNonblocking(h: Handle, nonblock: Int32) returns (n: Int32)
      modifies this
      ensures trace == old(trace) + [Event(HidSetNonblocking(h, nonblock), Status(n))]
      ensures live == old(live) && next == old(next)
    {
      n := *;
      trace := trace + [Event(HidSetNonblocking(h, nonblock), Status(n))];
    }

    /** `hid_error`: the last error text, or the null pointer. */
    method Error(h: Handle) returns (message: Option<string>)
      modifies this
      ensures trace == old(trace) + [Event(HidError(h), Message(message))]
      ensures live == old(live) && next == old(next)
    {
      message := *;
      trace := trace + [Event(HidError(h), Message(message))];
    }
  }
}
