/**
 * Call sequences on a fresh hidapi and a fresh device, and what they leave
 * in hidapi's trace.
 */
module Scenarios {
  import opened HidApi
  import opened Report
  import opened DevicePrivate
  import opened Device

  /** open(path), close(), write(report): the write is not refused for want
      of a device; it reaches hidapi with the handle `close()` released. */
  method WriteAfterClose(path: string, report: seq<Byte>)
    returns (t: Transport, s: HidDevicePrivate, ok: bool, r: Int32)
    requires |report| <= MaxReport
    ensures ok ==> s.device.Some? && s.device.value !in t.live
    ensures ok ==> |t.trace| > 0 && t.trace[|t.trace| - 1] == Event(HidWrite(s.device.value, report, |report|), Status(r))
  {
    t := new Transport();
    s := new HidDevicePrivate(t, 0, 0);
    ok := s.OpenPath(path);
    s.Close();
    r := s.WriteReport(report);
  }

  /** open(path), close(), open(path): the first handle is closed twice. */
  method CloseThenReopen(path: string)
    returns (t: Transport, s: HidDevicePrivate, first: Option<Handle>)
    ensures first.Some? ==>
      |t.trace| == 6 && t.trace[3] == t.trace[4] == Event(HidClose(first.value), Done)
    ensures s.device.Some? ==> s.device != first && s.device.value in t.live
  {
    t := new Transport();
    s := new HidDevicePrivate(t, 0, 0);
    var ok := s.OpenPath(path);
    first := s.device;
    s.Close();
    ok := s.OpenPath(path);
  }

  /** init() twice calls `hid_init` twice; exit() then calls `hid_exit`. */
  method InitTwiceThenExit() returns (statics: Statics)
    ensures |statics.transport.trace| == 3
    ensures statics.transport.trace[0].call == HidInit && statics.transport.trace[1].call == HidInit
    ensures statics.transport.trace[2].call == HidExit
    ensures statics.isInit
  {
    var t := new Transport();
    statics := new Statics(t);
    var res := HidDevice.Init(statics);
    res := HidDevice.Init(statics);
    res := HidDevice.Exit(statics);
  }

  /** exit() before any init() answers 0 and leaves hidapi alone. */
  method ExitBeforeInit() returns (statics: Statics, res: Int32)
    ensures res == 0 && statics.transport.trace == [] && !statics.isInit
  {
    var t := new Transport();
    statics := new Statics(t);
    res := HidDevice.Exit(statics);
  }

  /** A facade for any device, opened by path without `init()`. */
  method OpenedFacade(path: string) returns (dev: HidDevice)
    ensures dev.Valid() && fresh(dev.d) && fresh(dev.d.transport)
    ensures |dev.d.transport.trace| == 3
  {
    var t := new Transport();
    var statics := new Statics(t);
    dev := new HidDevice.ForProduct(statics, 0, 0);
    var _ := dev.OpenPath(path);
  }

  /** writeData([0, 1, 2], 3): the payload stops at the leading NUL and the
      count becomes the report number, so hidapi is sent the one byte 3. */
  method WriteDataCutAtNul(path: string) returns (dev: HidDevice, r: Int64)
    ensures dev.d.device.Some? ==>
      |dev.d.transport.trace| > 0 &&
      dev.d.transport.trace[|dev.d.transport.trace| - 1] ==
        Event(HidWrite(dev.d.device.value, [3], 1), Status(r))
  {
    dev := OpenedFacade(path);
    var data := new Byte[3][0, 1, 2];
    assert data[..] == [0, 1, 2];
    assert BeforeNul(data[..]) == [];
    ghost var payload: seq<Byte> := [];
    assert LowByte(3) == 3;
    assert Numbered(3, payload).value == [3];
    r := dev.WriteData(data, 3);
    assert Numbered(LowByte(3), BeforeNul(data[..])).value == [3];
  }

  /** writeData of 100 non-NUL bytes is refused with -1 before hidapi is
      called, even with a device open. */
  method WriteDataOver64(path: string) returns (dev: HidDevice, r: Int64)
    ensures r == -1 && |dev.d.transport.trace| == 3
  {
    dev := OpenedFacade(path);
    var data := new Byte[100](_ => 1);
    r := dev.WriteData(data, 100);
  }

  /** The intended writeData([0, 1, 2], 3) sends all three bytes. */
  method WriteDataIntendedSendsAll(path: string) returns (dev: HidDevice, r: Int64)
    ensures dev.d.device.Some? ==>
      |dev.d.transport.trace| > 0 &&
      dev.d.transport.trace[|dev.d.transport.trace| - 1] ==
        Event(HidWrite(dev.d.device.value, [0, 1, 2], 3), Status(r))
  {
    dev := OpenedFacade(path);
    var data := new Byte[3][0, 1, 2];
    assert data[..] == [0, 1, 2];
    r := dev.WriteDataIntended(data, 3);
  }

  /** QHidDevice(vendorId, productId), then open(mode): `mSerialNumber` was
      never set, so `hid_open` is asked for the stored ids and a null serial. */
  method OpenPassesNullSerial(vendorId: UShort, productId: UShort, mode: OpenMode)
    returns (dev: HidDevice, r: bool)
    ensures !r
    ensures |dev.d.transport.trace| > 0
    ensures dev.d.transport.trace[|dev.d.transport.trace| - 1].call == HidOpen(vendorId, productId, None)
  {
    var t := new Transport();
    var statics := new Statics(t);
    dev := new HidDevice.ForProduct(statics, vendorId, productId);
    r := dev.Open(mode);
  }

  /** Two sessions on one hidapi: opening and closing the first leaves the
      second's handle live and the second's no-leak invariant intact. */
  method TwoSessions(path: string)
    returns (t: Transport, s1: HidDevicePrivate, s2: HidDevicePrivate)
    ensures s1.Valid() && s2.Valid()
    ensures s2.device.Some? ==> s2.device.value in t.live
    ensures s1.device.Some? ==> s1.device.value !in t.live
  {
    t := new Transport();
    s1 := new HidDevicePrivate(t, 0, 0);
    s2 := new HidDevicePrivate(t, 0, 0);
    var ok := s2.OpenPath(path);
    ok := s1.OpenPath(path);
    s1.Close();
  }
}
