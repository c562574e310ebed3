/**
 * castd/p2p/wfd_ie.py: the WFD information element blob the sink publishes (Wi-Fi Display
 * Technical Specification v1.0, section 5.1.2), and a walker that reads such blobs back.
 */
module WfdIe {
  import opened Prelude

  type byte = n: nat | n < 0x100

  const PRIMARY_SINK := 1
  const AVAILABLE_FOR_SESSION := 0x10 // the two-bit availability field, bits 5:4, holding 01
  const CONTROL_PORT := 7236
  const MAX_THROUGHPUT_MBPS := 50

  /** n.to_bytes(2, "big") */
  function U16(n: nat): seq<byte>
    requires n < 0x1_0000
  {
    [n / 0x100, n % 0x100]
  }

  function FromU16(hi: byte, lo: byte): nat { hi * 0x100 + lo }

  function Subelement(id: byte, payload: seq<byte>): seq<byte>
    requires |payload| < 0x1_0000
  {
    [id] + U16(|payload|) + payload
  }

  function Bitmap(deviceType: nat, available: bool): (r: nat)
    ensures r < 0x1_0000
  {
    deviceType % 4 + if available then AVAILABLE_FOR_SESSION else 0
  }

  /** None stands for the ValueError on an out-of-range field. */
  function DeviceInfo(deviceType: nat, port: int, throughput: int, available: bool): (r: Option<seq<byte>>)
    ensures r.Some? <==> 0 <= port <= 0xFFFF && 0 <= throughput <= 0xFFFF
  {
    if !(0 <= port <= 0xFFFF) || !(0 <= throughput <= 0xFFFF) then None
    else Some(Subelement(0, U16(Bitmap(deviceType, available)) + U16(port) + U16(throughput)))
  }

  function CoupledSink(): seq<byte> { Subelement(6, [0, 0, 0, 0, 0, 0, 0]) }

  function BuildWfdIes(port: int, throughput: int, available: bool): (r: Option<seq<byte>>)
    ensures r.Some? <==> 0 <= port <= 0xFFFF && 0 <= throughput <= 0xFFFF
  {
    match DeviceInfo(PRIMARY_SINK, port, throughput, available)
    case None => None
    case Some(info) => Some(info + CoupledSink())
  }

  /** The blob the daemon publishes. */
  function Published(available: bool): seq<byte> {
    BuildWfdIes(CONTROL_PORT, MAX_THROUGHPUT_MBPS, available).value
  }

  // ----- reading a blob -----

  datatype Element = Element(id: byte, payload: seq<byte>)

  /** A blob cut into subelements; None if the lengths do not add up. */
  function Walk(blob: seq<byte>): (r: Option<seq<Element>>)
  {
    if blob == [] then Some([])
    else if |blob| < 3 then None
    else
      var n := FromU16(blob[1], blob[2]);
      if |blob| < 3 + n then None
      else
        match Walk(blob[3 + n..])
        case None => None
        case Some(rest) => Some([Element(blob[0], blob[3..3 + n])] + rest)
  }

  datatype Info = Info(deviceType: nat, availability: nat, otherBits: bool, port: nat, throughput: nat)

  /** The fields of a device information payload, by bit position. */
  function ReadInfo(payload: seq<byte>): Option<Info> {
    if |payload| != 6 then None
    else
      var bits := FromU16(payload[0], payload[1]);
      Some(Info(bits % 4, bits / 16 % 4, bits / 64 != 0 || bits / 4 % 4 != 0,
                FromU16(payload[2], payload[3]), FromU16(payload[4], payload[5])))
  }

  lemma WalkSubelement(id: byte, payload: seq<byte>, rest: seq<byte>)
    requires |payload| < 0x1_0000
    ensures Walk(Subelement(id, payload) + rest) ==
              match Walk(rest)
              case None => None
              case Some(es) => Some([Element(id, payload)] + es)
  {
    var blob := Subelement(id, payload) + rest;
    var n := |payload|;
    assert blob[1] == n / 0x100 && blob[2] == n % 0x100;
    assert FromU16(blob[1], blob[2]) == n;
    assert blob[3..3 + n] == payload;
    assert blob[3 + n..] == rest;
  }

  lemma WalkNothing()
    ensures Walk([]) == Some([])
  {
  }

  lemma InfoReadsBack(available: bool, port: nat, throughput: nat)
    requires port <= 0xFFFF && throughput <= 0xFFFF
    ensures ReadInfo(U16(Bitmap(PRIMARY_SINK, available)) + U16(port) + U16(throughput)) ==
              Some(Info(1, if available then 1 else 0, false, port, throughput))
  {
    var payload := U16(Bitmap(PRIMARY_SINK, available)) + U16(port) + U16(throughput);
    var bits := if available then 0x11 else 0x01;
    U16Reads(bits);
    U16Reads(port);
    U16Reads(throughput);
    hide FromU16;
    assert Bitmap(PRIMARY_SINK, available) == bits;
    assert payload == [bits / 0x100, bits % 0x100, port / 0x100, port % 0x100, throughput / 0x100, throughput % 0x100];
  }

  lemma U16Reads(n: nat)
    requires n < 0x1_0000
    ensures FromU16(n / 0x100, n % 0x100) == n
  {
  }

  /**
   * Every blob walks as exactly two subelements, and its device information reads back as a
   * primary sink with the port and throughput given, availability 01 or 00 (never a reserved
   * value), and no other capability bit set.
   */
  lemma BlobReadsBack(port: int, throughput: int, available: bool)
    requires 0 <= port <= 0xFFFF && 0 <= throughput <= 0xFFFF
    ensures var es := Walk(BuildWfdIes(port, throughput, available).value);
            && es.Some? && |es.value| == 2
            && es.value[0].id == 0 && es.value[1] == Element(6, [0, 0, 0, 0, 0, 0, 0])
            && ReadInfo(es.value[0].payload) ==
                 Some(Info(1, if available then 1 else 0, false, port, throughput))
  {
    var payload := U16(Bitmap(PRIMARY_SINK, available)) + U16(port) + U16(throughput);
    InfoReadsBack(available, port, throughput);
    hide ReadInfo, U16, Bitmap, Walk, Subelement;
    var coupled := [0, 0, 0, 0, 0, 0, 0];
    WalkNothing();
    WalkSubelement(6, coupled, []);
    assert CoupledSink() + [] == CoupledSink();
    WalkSubelement(0, payload, CoupledSink());
  }

  /** The availability field of a blob. */
  function Availability(blob: seq<byte>): Option<nat> {
    match Walk(blob)
    case Some(es) =>
      if |es| != 2 || es[0].id != 0 then None
      else (match ReadInfo(es[0].payload) case Some(i) => Some(i.availability) case None => None)
    case None => None
  }

  /** The blob the daemon publishes, byte for byte. */
  lemma PublishedBytes(available: bool)
    ensures Published(available) ==
              [0, 0, 6, 0, if available then 0x11 else 0x01, 0x1C, 0x44, 0, 50, 6, 0, 7, 0, 0, 0, 0, 0, 0, 0]
  {
  }

  lemma PublishedAvailability(available: bool)
    ensures Availability(Published(available)) == Some(if available then 1 else 0)
  {
    hide Walk, ReadInfo, BuildWfdIes;
    BlobReadsBack(CONTROL_PORT, MAX_THROUGHPUT_MBPS, available);
  }
}
