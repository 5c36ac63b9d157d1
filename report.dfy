/**
 * Report framing: byte 0 of every report on the wire is the report ID and
 * the payload that follows is at most 64 bytes long.
 */
module Report {
  import opened HidApi

  const MaxPayload := 64
  const MaxReport := MaxPayload + 1
  /** The size of the `unsigned char buf[65]` scratch buffers. */
  const ScratchSize := 65

  /** The report that carries `payload` under report ID `id`, or `None`
      when the payload is too long to be sent at all. */
  function Numbered(id: Byte, payload: seq<Byte>): (r: Option<seq<Byte>>)
    ensures r.Some? <==> |payload| <= MaxPayload
    ensures r.Some? ==> |r.value| == |payload| + 1 <= MaxReport
    ensures r.Some? ==> r.value[0] == id && r.value[1..] == payload
  {
    if |payload| > MaxPayload then None else Some([id] + payload)
  }

  /** A report whose first byte the caller has already set, or `None` when
      it is longer than a report ID plus 64 bytes. */
  function Raw(report: seq<Byte>): (r: Option<seq<Byte>>)
    ensures r.Some? <==> |report| <= MaxReport
    ensures r.Some? ==> r.value == report
  {
    if |report| > MaxReport then None else Some(report)
  }

  /** Numbering a payload accepts and produces exactly what framing the
      already-numbered report does. */
  lemma NumberedIsRawOfPrepended(id: Byte, payload: seq<Byte>)
    ensures Numbered(id, payload) == Raw([id] + payload)
  {
  }

  /** An integer stored into an unsigned char (`buf[0] = reportId`, or a
      `qint64` passed as a `quint8`): the low eight bits. */
  function LowByte(reportId: int): (b: Byte)
    ensures 0 <= reportId < 0x100 ==> b == reportId
    ensures (reportId - b) % 0x100 == 0
  {
    reportId % 0x100
  }

  /** `QByteArray(buf, rep)` when `rep > 0`, otherwise the empty array: the
      bytes hidapi reported, taken from the front of the buffer. */
  function Received(buffer: seq<Byte>, rep: int): (r: seq<Byte>)
    requires rep <= |buffer|
    ensures |r| == (if rep > 0 then rep else 0)
    ensures r <= buffer
  {
    if rep > 0 then buffer[..rep] else []
  }

  /** `QByteArray(const char *)`: the bytes before the first NUL, or all of
      them when there is none. */
  function BeforeNul(s: seq<Byte>): (r: seq<Byte>)
    ensures r <= s
    ensures forall i :: 0 <= i < |r| ==> r[i] != 0
    ensures |r| < |s| ==> s[|r|] == 0
  {
    if s == [] || s[0] == 0 then [] else [s[0]] + BeforeNul(s[1..])
  }
}
