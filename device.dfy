/**
 * `QHidDevice`: the stream-shaped facade.  It forwards to its session and
 * keeps the stream's open mode; `Statics` holds the file-static `is_init`
 * flag that `init()` and `exit()` share across all devices.
 */
module Device {
  import opened HidApi
  import opened DeviceInfo
  import opened Report
  import opened DevicePrivate

  /** `QIODevice::OpenMode` flags. */
  type OpenMode = m: int | 0 <= m < 0x100
  const NotOpen: OpenMode := 0x00
  const ReadOnly: OpenMode := 0x01
  const WriteOnly: OpenMode := 0x02
  const ReadWrite: OpenMode := 0x03

  /** Process-wide state: the hidapi library and `is_init`. */
  class Statics {
    const transport: Transport
    var isInit: bool

    constructor (transport: Transport)
      ensures this.transport == transport && !isInit
    {
      this.transport := transport;
      isInit := false;
    }
  }

  class HidDevice {
    const statics: Statics
    const d: HidDevicePrivate   // `d_ptr`
    var openMode: OpenMode

    ghost predicate Valid()
      reads this, d, d.transport
    {
      d.Valid() && d.transport == statics.transport
    }

    /** `init()`: calls `hid_init` every time and sets `is_init`. */
    static method Init(statics: Statics) returns (res: Int32)
      modifies statics, statics.transport
      ensures statics.isInit
      ensures statics.transport.trace == old(statics.transport.trace) + [Event(HidInit, Status(res))]
      ensures statics.transport.live == old(statics.transport.live)
      ensures statics.transport.next == old(statics.transport.next)
    {
      statics.isInit := true;
      res := statics.transport.Init();
      return res;
    }

    /** `exit()`: calls `hid_exit` only after some `init()`, and leaves
        `is_init` set. */
    static method Exit(statics: Statics) returns (res: Int32)
      modifies statics.transport
      ensures old(statics.isInit) ==>
        statics.transport.trace == old(statics.transport.trace) + [Event(HidExit, Status(res))]
      ensures !old(statics.isInit) ==> res == 0 && statics.transport.trace == old(statics.transport.trace)
      ensures statics.transport.live == old(statics.transport.live)
      ensures statics.transport.next == old(statics.transport.next)
    {
      if statics.isInit {
        res := statics.transport.Exit();
        return res;
      }
      return 0;
    }

    /** `QHidDevice(parent)`: a session for any vendor and product, then `init()`. */
    constructor (statics: Statics)
      modifies statics, statics.transport
      ensures Valid() && fresh(d)
      ensures this.statics == statics && statics.isInit
      ensures d.serialNumber == ""
      ensures statics.transport.live == old(statics.transport.live)
      ensures statics.transport.next == old(statics.transport.next)
      ensures openMode == NotOpen && d.device == None && d.vendorId == 0 && d.productId == 0
      ensures exists head, res ::
        statics.transport.trace == old(statics.transport.trace) + EnumerationEvents(0, 0, head) +
          [Event(HidInit, Status(res))] && d.deviceInfoList == Records(head)
    {
      this.statics := statics;
      d := new HidDevicePrivate(statics.transport, 0, 0);
      openMode := NotOpen;
      new;
      ghost var enumerated := statics.transport.trace;
      var _ := Init(statics);
      assert statics.transport.trace == enumerated + [statics.transport.trace[|enumerated|]];
    }

    /** `QHidDevice(vendorId, parent)`: no `init()`. */
    constructor ForVendor(statics: Statics, vendorId: UShort)
      modifies statics.transport
      ensures Valid() && fresh(d)
      ensures this.statics == statics && statics.isInit == old(statics.isInit)
      ensures d.serialNumber == ""
      ensures statics.transport.live == old(statics.transport.live)
      ensures statics.transport.next == old(statics.transport.next)
      ensures openMode == NotOpen && d.device == None && d.vendorId == vendorId && d.productId == 0
      ensures exists head ::
        statics.transport.trace == old(statics.transport.trace) + EnumerationEvents(vendorId, 0, head) &&
        d.deviceInfoList == Records(head)
    {
      this.statics := statics;
      d := new HidDevicePrivate(statics.transport, vendorId, 0);
      openMode := NotOpen;
    }

    /** `QHidDevice(vendorId, productId, parent)`: no `init()`. */
    constructor ForProduct(statics: Statics, vendorId: UShort, productId: UShort)
      modifies statics.transport
      ensures Valid() && fresh(d)
      ensures this.statics == statics && statics.isInit == old(statics.isInit)
      ensures d.serialNumber == ""
      ensures statics.transport.live == old(statics.transport.live)
      ensures statics.transport.next == old(statics.transport.next)
      ensures openMode == NotOpen && d.device == None && d.vendorId == vendorId && d.productId == productId
      ensures exists head ::
        statics.transport.trace == old(statics.transport.trace) + EnumerationEvents(vendorId, productId, head) &&
        d.deviceInfoList == Records(head)
    {
      this.statics := statics;
      d := new HidDevicePrivate(statics.transport, vendorId, productId);
      openMode := NotOpen;
    }

    /** `open(vendorId, productId, serialNumber)`: ReadWrite once the session
        opened; the answer is false either way. */
    method OpenIds(vendorId: UShort, productId: UShort, serialNumber: string) returns (r: bool)
      requires Valid()
      modifies this, d, d.transport
      ensures Valid() && !r
      ensures openMode == if d.device.Some? then ReadWrite else old(openMode)
      ensures d.vendorId == vendorId && d.productId == productId
      ensures d.deviceInfoList == old(d.deviceInfoList)
      ensures d.device.Some? ==> d.device.value == Handle(old(d.transport.next)) && d.device.value in d.transport.live
      ensures d.transport.live == old(d.transport.live) - old(d.Held()) + d.Held()
      ensures d.transport.next == old(d.transport.next) + 1
      ensures d.transport.trace == old(d.transport.trace) +
        OpenEvents(old(d.device), HidOpen(vendorId, productId, SerialArgument(serialNumber)), d.device)
    {
      var ok := d.OpenIds(vendorId, productId, serialNumber);
      if ok {
        openMode := ReadWrite;
      }
      return false;
    }

    /** `open(path)`. */
    method OpenPath(path: string) returns (r: bool)
      requires Valid()
      modifies this, d, d.transport
      ensures Valid() && !r
      ensures openMode == if d.device.Some? then ReadWrite else old(openMode)
      ensures d.vendorId == old(d.vendorId) && d.productId == old(d.productId)
      ensures d.deviceInfoList == old(d.deviceInfoList)
      ensures d.device.Some? ==> d.device.value == Handle(old(d.transport.next)) && d.device.value in d.transport.live
      ensures d.transport.live == old(d.transport.live) - old(d.Held()) + d.Held()
      ensures d.transport.next == old(d.transport.next) + 1
      ensures d.transport.trace == old(d.transport.trace) + OpenEvents(old(d.device), HidOpenPath(path), d.device)
    {
      var ok := d.OpenPath(path);
      if ok {
        openMode := ReadWrite;
      }
      return false;
    }

    /** `open(mode)`: reopens by the session's identity and takes on `mode`
        exactly. */
    method Open(mode: OpenMode) returns (r: bool)
      requires Valid()
      modifies this, d, d.transport
      ensures Valid() && !r
      ensures openMode == if d.device.Some? then mode else old(openMode)
      ensures d.vendorId == old(d.vendorId) && d.productId == old(d.productId)
      ensures d.deviceInfoList == old(d.deviceInfoList)
      ensures d.device.Some? ==> d.device.value == Handle(old(d.transport.next)) && d.device.value in d.transport.live
      ensures d.transport.live == old(d.transport.live) - old(d.Held()) + d.Held()
      ensures d.transport.next == old(d.transport.next) + 1
      ensures d.transport.trace == old(d.transport.trace) +
        OpenEvents(old(d.device), HidOpen(d.vendorId, d.productId, SerialArgument(d.serialNumber)), d.device)
    {
      var ok := d.Reopen();
      if ok {
        openMode := mode;
      }
      return false;
    }

    /** `close()`: the session's close, then NotOpen. */
    method Close()
      requires Valid()
      modifies this, d.transport
      ensures Valid()
      ensures openMode == NotOpen
      ensures d.transport.trace == old(d.transport.trace) + CloseEvents(d.device)
      ensures d.transport.live == old(d.transport.live) - d.Held() && d.transport.next == old(d.transport.next)
      ensures d.device.Some? ==> d.device.value !in d.transport.live
    {
      d.Close();
      openMode := NotOpen;
    }

    /** `readData(data, maxlen)`: the session's `read(data, maxlen)`. */
    method ReadData(data: array<Byte>, maxlen: Int64) returns (r: Int64)
      requires Valid()
      modifies d.transport, data
      ensures Valid() && d.HandlesKept()
      ensures d.device.None? ==>
        r == 0 && d.transport.trace == old(d.transport.trace) && data[..] == old(data[..])
      ensures d.device.Some? && maxlen >= 0 ==> r <= maxlen
      ensures d.device.Some? ==>
        d.transport.trace == old(d.transport.trace) +
          [Event(HidRead(d.device.value, ToSizeT(maxlen)), Filled(r, data[..]))]
    {
      r := d.Read(data, maxlen);
    }

    /** `read(data, maxSize, milliseconds)`. */
    method ReadTimeout(data: array<Byte>, maxSize: Int64, milliseconds: Int32) returns (r: Int64)
      requires Valid()
      modifies d.transport, data
      ensures Valid() && d.HandlesKept()
      ensures d.device.None? ==>
        r == 0 && d.transport.trace == old(d.transport.trace) && data[..] == old(data[..])
      ensures d.device.Some? && maxSize >= 0 ==> r <= maxSize
      ensures d.device.Some? ==>
        d.transport.trace == old(d.transport.trace) +
          [Event(HidReadTimeout(d.device.value, ToSizeT(maxSize), milliseconds), Filled(r, data[..]))]
    {
      r := d.ReadTimeout(data, maxSize, milliseconds);
    }

    /** `writeData(data, maxSize)`.  The call `d_ptr->write(data, maxSize)`
        passes a `const char *`, which does not convert to `uint8_t *`, so it
        resolves to `write(QByteArray, quint8)`: the payload is `data` up to
        its first NUL and the report number is `maxSize` narrowed to a byte. */
    method WriteData(data: array<Byte>, maxSize: Int64) returns (r: Int64)
      requires Valid()
      modifies d.transport
      ensures Valid() && d.HandlesKept()
      ensures var report := Numbered(LowByte(maxSize), BeforeNul(data[..]));
        report.None? || d.device.None? ==>
          r == -1 && d.transport.trace == old(d.transport.trace)
      ensures var report := Numbered(LowByte(maxSize), BeforeNul(data[..]));
        report.Some? && d.device.Some? ==>
          d.transport.trace == old(d.transport.trace) +
            [Event(HidWrite(d.device.value, report.value, |report.value|), Status(r))]
    {
      r := d.WriteNumbered(BeforeNul(data[..]), LowByte(maxSize));
    }

    /** `writeData` as `QIODevice` means it: the `maxSize` bytes at `data`
        handed to hidapi unchanged, through the raw-buffer write. */
    method WriteDataIntended(data: array<Byte>, maxSize: Int64) returns (r: Int64)
      requires Valid()
      modifies d.transport
      ensures Valid() && d.HandlesKept()
      ensures d.device.None? ==> r == -1 && d.transport.trace == old(d.transport.trace)
      ensures d.device.Some? ==>
        d.transport.trace == old(d.transport.trace) +
          [Event(HidWrite(d.device.value, data[..], ToSizeT(maxSize)), Status(r))]
    {
      r := d.WriteBuffer(data, ToSizeT(maxSize));
    }
  }
}
