# qhidapi device layer in Dafny

A model of the two classes of qhidapi that sit on top of the hidapi C library:

- `QHidDevicePrivate` (`session.dfy`, class `DevicePrivate.HidDevicePrivate`). It holds one optional
  `hid_device *` handle, the vendor/product identity used to reopen a device, and the records
  enumerated at construction. Every `read`, `write`, feature-report, string and blocking-mode
  operation goes through it.
- `QHidDevice` (`device.dfy`, class `Device.HidDevice`). This is the `QIODevice`-shaped facade.
  It forwards to its session, keeps the stream's open mode, and owns the file-static `is_init`
  flag, modelled as the field `Statics.isInit` because Dafny has no static variables.

hidapi itself is `HidApi.Transport` (`hid.dfy`). Each `hid_*` primitive is a method whose results
are arbitrary values (`x := *`). Callers can rely only on its contract, and the contract holds
only what hidapi's own interface promises:

- a read or feature-report call never reports more bytes than it was asked for;
- a string getter's text fits its `maxlen` buffer;
- an open either fails or returns a newly created device object. A `Handle` stands for that
  object, not for the pointer's value: after `hid_close` frees an object, a later open may get
  the same address back, but it is still a different `Handle`.

The transport keeps two ghost records:

- `trace`: every call with its arguments and hidapi's reply;
- `live`: the handles opened and not yet closed.

All contracts about what was sent, what came back and whether hidapi was called at all refer to
these two. Report framing (`report.dfy`) and the enumeration list (`device_info.dfy`) are pure
functions, with lemmas about them.

Behaviour of the source that the model keeps as written:

- `close()` calls `hid_close` and keeps `m_device`. The session then refers to a handle that is
  no longer live. A later write sends on that handle (`Scenarios.WriteAfterClose`), and a later
  open or destruction closes it a second time (`Scenarios.CloseThenReopen`). In C both are
  undefined behaviour in hidapi: writing through a freed `hid_device` and freeing it twice.
- `manufacturerString()` tests `m_device != nullptr`. It returns "" while a device is open and
  otherwise asks hidapi about the null handle, which hidapi dereferences: undefined behaviour.
- `writeData(data, maxSize)` calls `d_ptr->write(data, maxSize)` with a `const char *`. That
  pointer does not convert to `uint8_t *`, so the call resolves to `write(QByteArray, quint8)`
  (see "## Findings").
- `setBlocking()` passes hidapi's `nonblock` flag 1, which is the non-blocking mode, and
  `setNonBlocking()` passes 0. Both return `rep != 0`, which is true exactly when hidapi reports
  an error.
- `enumerate` walks the list to its end and then frees the null pointer the walk stopped at.
  The list hidapi returned is never released.
- `mSerialNumber` is a public, non-const `QString`. It is default-constructed empty and nothing
  in the library assigns it, so `open()` always passes the null serial. The model makes it a
  `const` `""`.
- All three facade `open` overloads return false.
- `init()` calls `hid_init` on every call, because its guard is commented out. `exit()` never
  clears `is_init`.
- `~QHidDevice` is empty and never deletes `d_ptr`. So `~QHidDevicePrivate`
  (`HidDevicePrivate.Dispose`) never runs when a facade is destroyed.
- `qhiddevice_p.cpp:10` declares a second, unused `is_init`.

Where the code departs from what its own comments and structure suggest, the model follows the
code:

- `init()` is not idempotent, although its `if (!is_init)` guard is still there, commented out
  (`qhiddevice.cpp:373`).
- A write after `close()` is no "not connected" -1, although every write returns -1 when
  `m_device` is null.
- `enumerate` frees the null pointer its loop ends on, not the list it obtained.
- The facade `open` overloads return false even on success, although their comments promise
  true (`qhiddevice.cpp:176`, `qhiddevice.cpp:189`).

## Model

| member | source | states |
|---|---|---|
| `HidApi.ToSizeT` | src/hidapi/qhiddevice_p.cpp:252 | the `(size_t)` cast of a `qint64` keeps non-negative counts and wraps negative ones to `x + 2^64` |
| `DeviceInfo.Records` | src/hidapi/qhiddevice_p.cpp:155-181 | the enumeration yields exactly as many records as the list has nodes before its null pointer |
| `DeviceInfo.RecordsAt` | src/hidapi/qhiddevice_p.cpp:160-176 | record k comes from node k, so the order is list order; path, ids, the three strings, release and interface number are copied from that node |
| `Report.Numbered` | src/hidapi/qhiddevice_p.cpp:403-410 | a payload is accepted iff it has at most 64 bytes; the accepted report is one byte longer (at most 65), byte 0 is the report ID and the rest is the payload unchanged |
| `Report.Raw` | src/hidapi/qhiddevice_p.cpp:430-435 | a pre-numbered report is accepted iff it has at most 65 bytes, and is then sent verbatim |
| `Report.NumberedIsRawOfPrepended` | src/hidapi/qhiddevice_p.cpp:403-441 | `write(data, n)` accepts and frames exactly what `write` of the already-numbered report `[n] + data` does |
| `Report.LowByte` | src/hidapi/qhiddevice_p.cpp:320-324 | storing the `uint` report ID into `buf[0]` keeps it when below 256 and otherwise keeps it modulo 256 |
| `Report.BeforeNul` | src/hidapi/qhiddevice.cpp:296-301 | the `QByteArray` built from the `const char *` is a prefix of the buffer with no NUL in it, ending at the first NUL or at the end |
| `Report.Received` | src/hidapi/qhiddevice_p.cpp:328-334 | the returned bytes are a prefix of hidapi's buffer of length `rep` when `rep > 0`, and empty otherwise |
| `DevicePrivate.HidDevicePrivate.Enumerate` | src/hidapi/qhiddevice_p.cpp:155-181 | calls `hid_enumerate(vendorId, productId)` and returns the records of the list it got; then frees the null pointer, not the list; no handle changes |
| `DevicePrivate.HidDevicePrivate.constructor` | src/hidapi/qhiddevice_p.cpp:11-18 | stores the ids, keeps the records of one enumeration for them, holds no handle, empty serial |
| `DevicePrivate.HidDevicePrivate.Dispose` | src/hidapi/qhiddevice_p.cpp:20-25 | closes the handle only when one is present (even one already closed); afterwards no handle this session opened is live; of hidapi's live handles only the held one is removed, and the handle counter is unchanged |
| `DevicePrivate.HidDevicePrivate.Close` | src/hidapi/qhiddevice_p.cpp:206-211 | `hid_close` on a present handle, no call otherwise; the handle field is untouched and the handle it names is no longer live; of hidapi's live handles only the held one is removed, and the handle counter is unchanged |
| `DevicePrivate.HidDevicePrivate.OpenPath` | src/hidapi/qhiddevice_p.cpp:512-528 | closes any held handle first, then one `hid_open_path`; true iff a handle came back; on failure no handle is held; on success it holds exactly the new, live, never-held handle; the no-leak invariant is kept; hidapi's live handles lose the old held handle and gain only the new one, whose id is the counter's old value, and the counter grows by one |
| `DevicePrivate.HidDevicePrivate.OpenIds` | src/hidapi/qhiddevice_p.cpp:534-561 | closes any held handle first and records the vendor and product ids (not the serial); `hid_open` gets a null serial exactly when the serial is empty; the result and new handle are as for `OpenPath`; hidapi's live handles lose the old held handle and gain only the new one, whose id is the counter's old value, and the counter grows by one |
| `DevicePrivate.HidDevicePrivate.Reopen` | src/hidapi/qhiddevice_p.cpp:568-600 | closes any held handle, then `hid_open` with the stored ids and the stored serial's argument (always null, since the serial stays empty); the result and new handle are as for `OpenPath`; hidapi's live handles lose the old held handle and gain only the new one, whose id is the counter's old value, and the counter grows by one |
| `DevicePrivate.HidDevicePrivate.Read` | src/hidapi/qhiddevice_p.cpp:249-260 | without a handle it returns 0 with no hidapi call and the buffer unchanged; otherwise one `hid_read` of the size_t-cast length, whose count it returns and whose data fills the buffer; for a non-negative `maxSize` the count is at most `maxSize` |
| `DevicePrivate.HidDevicePrivate.ReadTimeout` | src/hidapi/qhiddevice_p.cpp:262-273 | as `Read`, through `hid_read_timeout` with the given milliseconds; the count is bounded by `maxSize` likewise |
| `DevicePrivate.HidDevicePrivate.ReadReport` | src/hidapi/qhiddevice_p.cpp:232-247 | without a handle it returns empty with no call; otherwise one 65-byte `hid_read`, returning the first `rep` bytes when `rep > 0`, else empty |
| `DevicePrivate.HidDevicePrivate.ReadReportTimeout` | src/hidapi/qhiddevice_p.cpp:292-306 | as `ReadReport`, through `hid_read_timeout` |
| `DevicePrivate.HidDevicePrivate.FeatureReport` | src/hidapi/qhiddevice_p.cpp:320-335 | without a handle it returns empty with no call; otherwise hidapi gets a 65-byte buffer whose byte 0 is the report ID's low byte, and the result is the first `rep` bytes of what came back (empty when `rep <= 0`) |
| `DevicePrivate.HidDevicePrivate.SendFeatureReport` | src/hidapi/qhiddevice_p.cpp:350-363 | a payload over 64 bytes, or no handle, gives -1 with no call, even with a handle open; otherwise exactly `[reportId] + payload` of length n+1 is sent and hidapi's count is returned |
| `DevicePrivate.HidDevicePrivate.WriteBuffer` | src/hidapi/qhiddevice_p.cpp:377-388 | no length check at all: -1 with no call without a handle, otherwise the buffer and length go to `hid_write` verbatim and its count is returned |
| `DevicePrivate.HidDevicePrivate.WriteNumbered` | src/hidapi/qhiddevice_p.cpp:403-416 | a payload over 64 bytes, or no handle, gives -1 with no call; otherwise `[reportNumber] + data` is written and hidapi's count is returned |
| `DevicePrivate.HidDevicePrivate.WriteReport` | src/hidapi/qhiddevice_p.cpp:430-441 | a report over 65 bytes, or no handle, gives -1 with no call; otherwise the data is written verbatim |
| `DevicePrivate.HidDevicePrivate.ManufacturerString` | src/hidapi/qhiddevice_p.cpp:32-50 | with a handle it returns "" with no call (inverted guard); without one it queries hidapi about the null handle with a 255-character buffer and returns the text unless the status is -1; the result is shorter than 255 |
| `DevicePrivate.HidDevicePrivate.ProductString` | src/hidapi/qhiddevice_p.cpp:57-75 | without a handle it returns "" with no call; otherwise the product string unless the status is -1; the result is shorter than 255 |
| `DevicePrivate.HidDevicePrivate.SerialNumberString` | src/hidapi/qhiddevice_p.cpp:82-100 | as `ProductString`, for the serial number string |
| `DevicePrivate.HidDevicePrivate.IndexedString` | src/hidapi/qhiddevice_p.cpp:109-127 | as `ProductString`, for the string at the given index |
| `DevicePrivate.HidDevicePrivate.Error` | src/hidapi/qhiddevice_p.cpp:448-462 | without a handle it returns "" with no call; otherwise hidapi's last error text, or "" when hidapi returned a null pointer |
| `DevicePrivate.HidDevicePrivate.SetBlocking` | src/hidapi/qhiddevice_p.cpp:474-481 | without a handle it returns false with no call; otherwise `hid_set_nonblocking(h, 1)` and the result is `rep != 0` |
| `DevicePrivate.HidDevicePrivate.SetNonBlocking` | src/hidapi/qhiddevice_p.cpp:494-501 | without a handle it returns false with no call; otherwise `hid_set_nonblocking(h, 0)` and the result is `rep != 0` |
| `Device.HidDevice.Init` | src/hidapi/qhiddevice.cpp:371-380 | calls `hid_init` on every invocation, sets `is_init` and returns `hid_init`'s result |
| `Device.HidDevice.Exit` | src/hidapi/qhiddevice.cpp:390-397 | with `is_init` set it calls `hid_exit` and returns its result; otherwise 0 with no call; `is_init` is never reset |
| `Device.HidDevice.constructor` | src/hidapi/qhiddevice.cpp:39-44 | the default constructor builds a session for ids 0/0 and then calls `init()`, so `hid_init` follows the enumeration; the mode is NotOpen and the serial is empty; hidapi's live handles and handle counter are unchanged |
| `Device.HidDevice.ForVendor` | src/hidapi/qhiddevice.cpp:53-58 | builds a session for the vendor and product 0; does not call `init()` and leaves `is_init` alone; the serial is empty; hidapi's live handles and handle counter are unchanged |
| `Device.HidDevice.ForProduct` | src/hidapi/qhiddevice.cpp:67-71 | builds a session for the vendor and product; does not call `init()`; the serial is empty; hidapi's live handles and handle counter are unchanged |
| `Device.HidDevice.OpenIds` | src/hidapi/qhiddevice.cpp:161-167 | returns false always; the mode becomes ReadWrite iff the session opened a device, otherwise it is unchanged; the session's open events; on success the new handle is live; hidapi's live handles and counter change exactly as in the session's open |
| `Device.HidDevice.OpenPath` | src/hidapi/qhiddevice.cpp:178-184 | returns false always; ReadWrite iff the session's `open(path)` succeeded, else the mode is unchanged; on success the new handle is live; hidapi's live handles and counter change exactly as in the session's open |
| `Device.HidDevice.Open` | src/hidapi/qhiddevice.cpp:191-197 | returns false always; on success the mode becomes exactly the requested one, on failure it is unchanged; reopens by the stored identity; on success the new handle is live; hidapi's live handles and counter change exactly as in the session's open |
| `Device.HidDevice.Close` | src/hidapi/qhiddevice.cpp:203-207 | always delegates to the session's close (one `hid_close` iff a handle is held) and then sets NotOpen; of hidapi's live handles only the held one is removed |
| `Device.HidDevice.ReadData` | src/hidapi/qhiddevice.cpp:274-277 | the session's `read(data, maxlen)` result unchanged: 0 with no call and the buffer untouched without a handle, else `hid_read`'s count and the data it filled in; for a non-negative `maxlen` the count is at most `maxlen` |
| `Device.HidDevice.ReadTimeout` | src/hidapi/qhiddevice.cpp:235-238 | the session's timed read unchanged: 0 with no call and the buffer untouched without a handle, else `hid_read_timeout`'s count and data; for a non-negative `maxSize` the count is at most `maxSize` |
| `Device.HidDevice.WriteData` | src/hidapi/qhiddevice.cpp:296-301 | the session's `write(QByteArray, quint8)`: the payload is the buffer up to its first NUL and the report number is `maxSize` mod 256; a payload over 64 bytes or no handle gives -1 with no call; otherwise `[maxSize mod 256] + payload` is written |
| `Device.HidDevice.WriteDataIntended` | src/hidapi/qhiddevice_p.cpp:377-388 | the intended `writeData`: all `maxSize` bytes of the buffer go to `hid_write` unchanged through the raw-buffer write; -1 with no call without a handle |
| `Scenarios.WriteAfterClose` | src/hidapi/qhiddevice_p.cpp:206-211 | after `open(path)` succeeds and `close()` runs, `write(report)` still reaches `hid_write` with the closed handle instead of returning -1 |
| `Scenarios.CloseThenReopen` | src/hidapi/qhiddevice_p.cpp:512-517 | `open(path)`, `close()`, `open(path)` calls `hid_close` twice on the first handle; the session ends holding a different device object, live, or none |
| `Scenarios.InitTwiceThenExit` | src/hidapi/qhiddevice.cpp:371-397 | two `init()` calls reach `hid_init` twice, and a later `exit()` calls `hid_exit` |
| `Scenarios.ExitBeforeInit` | src/hidapi/qhiddevice.cpp:390-397 | `exit()` before any `init()` returns 0 and makes no hidapi call |
| `Scenarios.WriteDataCutAtNul` | src/hidapi/qhiddevice.cpp:296-301 | `writeData([0, 1, 2], 3)` on an open device sends the single byte 3 with length 1 |
| `Scenarios.WriteDataOver64` | src/hidapi/qhiddevice.cpp:296-301 | `writeData` of 100 non-NUL bytes returns -1, and the trace still holds only the three events of construction and `open(path)`: hidapi is not called |
| `Scenarios.TwoSessions` | src/hidapi/qhiddevice_p.cpp:206-211 | two sessions on one hidapi: opening and closing the first leaves the second's handle live and both sessions' no-leak invariants intact |
| `Scenarios.OpenPassesNullSerial` | src/hidapi/qhiddevice.cpp:191-197 | a facade built for a vendor and product, then `open(mode)`: false, and `hid_open` gets those ids and a null serial, since `mSerialNumber` stays empty |
| `Scenarios.WriteDataIntendedSendsAll` | src/hidapi/qhiddevice_p.cpp:377-388 | the intended `writeData([0, 1, 2], 3)` sends all three bytes with length 3 |

The class invariant `HidDevicePrivate.Valid()` is the no-leak property: of the handles this
session ever obtained, only the one it still holds may be live. Every session method keeps this
invariant. The constructor establishes it, and `Close` and `Dispose` leave none of those handles
live.

## Left out

- hidapi internals are not modelled: device discovery, and how reads, writes, blocking and
  timeouts behave. Each `hid_*` call returns arbitrary values, and timing is not modelled.
- Wide-character and local-8-bit conversions (`fromWCharArray`, `toWCharArray`, `toLocal8Bit`)
  are foreign Qt calls. Strings pass through them unchanged.
- Qt's `QIODevice`/`QObject` machinery is not modelled: buffering, signals, parent ownership and
  the private-pointer macros. Only the open mode is kept. `isSequential()` is the constant true
  and has no member.
- Heap and pointer detail is not modelled:
  - the leaked `new wchar_t[]` serial buffers;
  - whether a caller's buffer really holds `maxSize` bytes (pointer arguments are arrays, and
    hidapi's writes into them are unconstrained);
  - `writeData`'s `QByteArray(const char *)` reads up to a NUL; when the buffer holds none, C
    reads past its end, while `BeforeNul` stops at the array's end;
  - the uninitialised bytes 1..64 of the scratch buffers.
- The Windows/macOS-only `usagePage` and `usage` fields are not part of the enumeration record.
- Commented-out code has no model: the id-to-handle map, the old `open`, and the disabled facade
  `read()` and `write` wrappers.
- The facade's one-line forwards have no members of their own: `enumerate`,
  `manufacturerString`, `productString`, `serialNumberString`, `indexedString`, `featureReport`,
  `sendFeatureReport`, `error`, `setBlocking` and `setNonBlocking`. Each returns the session
  member's result unchanged, so its contract is that member's.
- Thread safety of `is_init` is not modelled; concurrency is out of scope.
- `qhiddeviceinfo.h` and `hidapi.h` are not part of this model. The record's fields follow the
  assignments in `enumerate`.
- `HidApi.ToSizeT`: `size_t` is taken to be 64 bits. The 32-bit truncation that `(size_t)maxlen`
  performs on a 32-bit target is not modelled.
- hidapi's undefined behaviour is not modelled. On a closed handle or the null handle, the model
  answers an ordinary call with arbitrary results, and nothing worse.
- `HidDevicePrivate.serialNumber` is `const`. An assignment to the public `mSerialNumber` from
  outside the library is not modelled; nothing inside the library makes one.
- `HidDevicePrivate.vendorId` and `productId` are `UShort` where the source has `quint32`.
  Every assignment in the source stores a `ushort`, so no value is lost.

## Findings

| source | as written | input that shows it | evidently intended | confidence | as-written member | corrected member |
|---|---|---|---|---|---|---|
| src/hidapi/qhiddevice.cpp:300 | `d_ptr->write(data, maxSize)` resolves to `write(QByteArray, quint8)`: the payload stops at the first NUL, `maxSize` becomes the report number, and payloads over 64 bytes are refused | `writeData([0, 1, 2], 3)` sends `[3]` of length 1; `writeData` of 100 non-NUL bytes returns -1 | the `maxSize` bytes at `data` go to `hid_write` unchanged, as `QIODevice::writeData` promises | not executed | `Device.HidDevice.WriteData`, `Scenarios.WriteDataCutAtNul`, `Scenarios.WriteDataOver64` | `Device.HidDevice.WriteDataIntended`, `Scenarios.WriteDataIntendedSendsAll` |
