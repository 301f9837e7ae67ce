/** USB-MIDI Event Packets: the code-index table, the single-packet encoder and decoder. */
module Packets {
  import opened Words

  const PACKET_SIZE := 4
  const MAX_CABLE := 15

  const CIN_MISC := 0x0
  const CIN_CABLE_EVENT := 0x1
  const CIN_SYS_COMMON_2 := 0x2
  const CIN_SYS_COMMON_3 := 0x3
  const CIN_SYSEX_START := 0x4
  const CIN_SYS_COMMON_1 := 0x5
  const CIN_SYSEX_END_1 := 0x6
  const CIN_SYSEX_END_2 := 0x7
  const CIN_SYSEX_END_3 := 0x8
  const CIN_PROGRAM_CHANGE := 0xD
  const CIN_CHANNEL_PRESSURE := 0xE

  /** The four bytes of an Event Packet as they travel on the wire. */
  datatype Packet = Packet(b0: byte, b1: byte, b2: byte, b3: byte)

  /** One decoded Event Packet; `length` of the three data bytes are MIDI data. */
  datatype Decoded = Decoded(cable: nat, cin: nat, length: nat, data: seq<byte>)

  function CinDataLength(cin: nat): (n: nat)
    ensures n <= 3
  {
    match cin
    case 1 | 5 | 6 => 1
    case 2 | 7 | 13 | 14 => 2
    case 3 | 4 | 8 | 9 | 10 | 11 | 12 | 15 => 3
    case _ => 0
  }

  function Decode(p: Packet): (d: Decoded)
    ensures d.cable <= MAX_CABLE && d.cin <= 15 && |d.data| == 3 && d.length <= 3
  {
    var cin := p.b0 % 16;
    Decoded(p.b0 / 16, cin, CinDataLength(cin), [p.b1, p.b2, p.b3])
  }

  /** The wire bytes of a cable, a code index and up to three data bytes, padded with zeros. */
  function Build(cable: nat, cin: nat, data: seq<byte>): Packet {
    Packet((cable % 16) * 16 + cin % 16,
           if |data| > 0 then data[0] else 0,
           if |data| > 1 then data[1] else 0,
           if |data| > 2 then data[2] else 0)
  }

  datatype CinNeed = CinNeed(cin: nat, need: nat)

  /** Code index and message length of a status byte; None for SysEx and the undefined statuses. */
  function CinForStatus(status: byte): (r: Option<CinNeed>)
    ensures r.Some? ==> 2 <= r.value.cin <= 15 && r.value.need == CinDataLength(r.value.cin)
    ensures r.Some? ==> r.value.cin !in {CIN_SYSEX_START, CIN_SYSEX_END_1, CIN_SYSEX_END_2, CIN_SYSEX_END_3}
    ensures r.Some? <==> 0x80 <= status && status !in {0xF0, 0xF4, 0xF5, 0xF7}
  {
    if 0x80 <= status <= 0xEF then
      var cin := status / 16 + 1;
      Some(CinNeed(cin, if cin == CIN_PROGRAM_CHANGE || cin == CIN_CHANNEL_PRESSURE then 2 else 3))
    else if status == 0xF1 || status == 0xF3 then Some(CinNeed(CIN_SYS_COMMON_2, 2))
    else if status == 0xF2 then Some(CinNeed(CIN_SYS_COMMON_3, 3))
    else if status == 0xF6 || 0xF8 <= status then Some(CinNeed(CIN_SYS_COMMON_1, 1))
    else None
  }

  function Encode(cable: nat, msg: seq<byte>): Option<Packet> {
    if cable > MAX_CABLE || |msg| < 1 || |msg| > 3 then None
    else
      var c := CinForStatus(msg[0]);
      if c.None? || |msg| != c.value.need then None
      else Some(Build(cable, c.value.cin, msg))
  }

  /** Decoding what was built gives back the cable, the code index and exactly the data bytes. */
  lemma BuildDecode(cable: nat, cin: nat, data: seq<byte>)
    requires cable <= MAX_CABLE && cin <= 15 && |data| == CinDataLength(cin)
    ensures var d := Decode(Build(cable, cin, data));
      d.cable == cable && d.cin == cin && d.length == |data| && d.data[..d.length] == data
  {
    HeaderByte(cable, cin);
    var p := Build(cable, cin, data);
    assert [p.b1, p.b2, p.b3][..|data|] == data;
  }

  lemma HeaderByte(cable: nat, cin: nat)
    requires cable <= MAX_CABLE && cin <= 15
    ensures var b := (cable % 16) * 16 + cin % 16; b < 256 && b / 16 == cable && b % 16 == cin
  {
  }

  // ---- framing ---------------------------------------------------------------

  /** The Event Packets of a byte stream that starts on a packet boundary; a short rest is ignored. */
  function Chop(s: seq<byte>): seq<Packet> {
    if |s| < 4 then [] else [Packet(s[0], s[1], s[2], s[3])] + Chop(s[4..])
  }

  lemma {:induction false} ChopConcat(a: seq<byte>, b: seq<byte>)
    requires |a| % 4 == 0
    ensures Chop(a + b) == Chop(a) + Chop(b)
  {
    if |a| == 0 {
      assert a + b == b;
    } else {
      DropAligned(|a|);
      ChopConcat(a[4..], b);
      assert (a + b)[4..] == a[4..] + b;
    }
  }

  lemma DropAligned(x: nat)
    requires x % 4 == 0 && x > 0
    ensures x >= 4 && (x - 4) % 4 == 0
  {
  }

  lemma SumAligned(x: nat, y: nat)
    requires x % 4 == 0 && y % 4 == 0
    ensures (x + y) % 4 == 0
  {
  }

  /** `a` can be obtained from `b` by deleting elements. */
  ghost predicate Subsequence<T>(a: seq<T>, b: seq<T>) {
    if a == [] then true
    else if b == [] then false
    else (a[0] == b[0] && Subsequence(a[1..], b[1..])) || Subsequence(a, b[1..])
  }

  lemma {:induction false} PrefixIsSubsequence<T>(a: seq<T>, b: seq<T>)
    requires a <= b
    ensures Subsequence(a, b)
  {
    if a != [] { PrefixIsSubsequence(a[1..], b[1..]); }
  }

  lemma {:induction false} SubsequenceTransitive<T>(a: seq<T>, b: seq<T>, c: seq<T>)
    requires Subsequence(a, b) && Subsequence(b, c)
    ensures Subsequence(a, c)
    decreases |b| + |c|
  {
    if a != [] && b != [] {
      if b[0] == c[0] && Subsequence(b[1..], c[1..]) {
        if a[0] == b[0] && Subsequence(a[1..], b[1..]) {
          SubsequenceTransitive(a[1..], b[1..], c[1..]);
        } else {
          SubsequenceTransitive(a, b[1..], c[1..]);
        }
      } else {
        SubsequenceTransitive(a, b, c[1..]);
      }
    }
  }

  lemma {:induction false} SubsequenceConcat<T>(a: seq<T>, b: seq<T>, c: seq<T>, d: seq<T>)
    requires Subsequence(a, b) && Subsequence(c, d)
    ensures Subsequence(a + c, b + d)
  {
    if b == [] {
      assert a + c == c && b + d == d;
    } else {
      assert (b + d)[1..] == b[1..] + d;
      if a == [] {
        SubsequenceConcat(a, b[1..], c, d);
        if c != [] { assert Subsequence(a + c, (b + d)[1..]); }
      } else if a[0] == b[0] && Subsequence(a[1..], b[1..]) {
        SubsequenceConcat(a[1..], b[1..], c, d);
        assert (a + c)[1..] == a[1..] + c;
      } else {
        SubsequenceConcat(a, b[1..], c, d);
      }
    }
  }
}
