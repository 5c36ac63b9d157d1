/**
 * The enumeration record (`QHidDeviceInfo`) and how a `hid_device_info`
 * list becomes an ordered sequence of such records.
 */
module DeviceInfo {
  import opened HidApi

  /** One enumerated device.  The usage page and usage, which the source
      copies only on Windows and macOS, are not part of this record. */
  datatype Info = Info(path: string, vendorId: UShort, productId: UShort,
                       manufacturerString: string, productString: string,
                       serialNumber: string, releaseNumber: UShort,
                       interfaceNumber: Int32)

  /** The number of nodes before the terminating null pointer. */
  function Length(l: InfoList): nat
  {
    if l.Null? then 0 else 1 + Length(l.next)
  }

  /** The node reached after following `next` `k` times. */
  function NodeAt(l: InfoList, k: nat): (n: InfoList)
    requires k < Length(l)
    ensures n.Node?
  {
    if k == 0 then l else NodeAt(l.next, k - 1)
  }

  /** The record built from one node, field by field. */
  function FromNode(n: InfoList): Info
    requires n.Node?
  {
    Info(n.path, n.vendorId, n.productId, n.manufacturerString, n.productString,
         n.serialNumber, n.releaseNumber, n.interfaceNumber)
  }

  /** The records of every node of `l`, in list order. */
  function Records(l: InfoList): (r: seq<Info>)
    ensures |r| == Length(l)
  {
    if l.Null? then [] else [FromNode(l)] + Records(l.next)
  }

  /** Record `k` is copied from node `k`: one record per node, in list order. */
  lemma {:induction false} RecordsAt(l: InfoList, k: nat)
    requires k < Length(l)
    ensures var r, n := Records(l)[k], NodeAt(l, k);
      r.path == n.path && r.vendorId == n.vendorId && r.productId == n.productId &&
      r.manufacturerString == n.manufacturerString && r.productString == n.productString &&
      r.serialNumber == n.serialNumber && r.releaseNumber == n.releaseNumber &&
      r.interfaceNumber == n.interfaceNumber
  {
    if k > 0 {
      RecordsAt(l.next, k - 1);
      assert Records(l)[k] == Records(l.next)[k - 1];
    }
  }
}
