/**
 The packet programs of the XDP and BPF-path labs, on the packet bytes. The route lookup and the device
 map are parameters; counters are left out.
 */
module XdpPrograms {
  import opened OnesComplement
  import opened Options
  import opened Incremental
  import EchoReply

  function HeaderLength(p: seq<Byte>): (n: nat)
    requires |p| > 14
  {
    p[14] % 16 * 4
  }

  /** Ethernet and a whole IPv4 header, options included. */
  predicate Ipv4(p: seq<Byte>) {
    && |p| >= 34 && p[12] == 8 && p[13] == 0 && p[14] / 16 == 4
    && HeaderLength(p) >= 20 && 14 + HeaderLength(p) <= |p|
  }

  /** An IPv4 packet whose ICMP header is a whole echo request. */
  predicate EchoRequest(p: seq<Byte>) {
    && Ipv4(p) && p[23] == 1
    && var m := 14 + HeaderLength(p);
       m + 8 <= |p| && p[m] == 8 && p[m + 1] == 0
  }

  /** An echo request that is unfragmented and whole: what the redirect programs take from Linux. */
  predicate WholeEchoRequest(p: seq<Byte>) {
    && EchoRequest(p)
    && p[20] % 0x40 == 0 && p[21] == 0
    && HeaderLength(p) + 8 <= Word(p[16], p[17]) <= |p| - 14
  }

  function Header(p: seq<Byte>): (r: seq<Byte>)
    requires Ipv4(p)
  {
    p[14..14 + HeaderLength(p)]
  }

  /** `n` bytes of ICMP message. */
  function Message(p: seq<Byte>, n: nat): (r: seq<Byte>)
    requires Ipv4(p) && 14 + HeaderLength(p) + n <= |p|
  {
    p[14 + HeaderLength(p)..14 + HeaderLength(p) + n]
  }

  predicate EchoTouches(m: nat, i: nat) {
    i < 12 || 26 <= i < 34 || i == m || i == m + 2 || i == m + 3
  }

  /** Both address pairs exchanged, type zero, the ICMP checksum updated for the type word, all else kept. */
  ghost predicate Echoed(p: seq<Byte>, q: seq<Byte>)
    requires EchoRequest(p) && |q| == |p|
  {
    var m := 14 + HeaderLength(p);
    && q[0..6] == p[6..12] && q[6..12] == p[0..6]
    && q[26..30] == p[30..34] && q[30..34] == p[26..30]
    && q[m] == 0
    && WordAt(q, m + 2) == ReplaceChecksumWord(WordAt(p, m + 2), 0x800, 0)
    && forall i | 0 <= i < |p| && !EchoTouches(m, i) :: q[i] == p[i]
  }

  /** Where the ICMP header of an echo request begins, zero for anything else; nothing is written. */
  method FindEchoRequest(packet: array<Byte>) returns (m: nat)
    ensures m > 0 <==> EchoRequest(packet[..])
    ensures m > 0 ==> m == 14 + HeaderLength(packet[..])
  {
    if packet.Length < 34 || packet[12] != 8 || packet[13] != 0 || packet[14] / 16 != 4 || packet[23] != 1 {
      return 0;
    }
    var headerLength := packet[14] % 16 * 4;
    if headerLength < 20 || 14 + headerLength > packet.Length {
      return 0;
    }
    m := 14 + headerLength;
    if m + 8 > packet.Length || packet[m] != 8 || packet[m + 1] != 0 {
      m := 0;
    }
  }

  method IcmpEcho(packet: array<Byte>) returns (action: Action)
    modifies packet
    ensures old(EchoRequest(packet[..])) <==> action == Transmit
    ensures action == Pass || action == Transmit
    ensures action == Pass ==> packet[..] == old(packet[..])
    ensures action == Transmit ==> Echoed(old(packet[..]), packet[..])
  {
    var m := FindEchoRequest(packet);
    if m == 0 {
      return Pass;
    }
    EchoReply.SwapBytes(packet, 0, 6, 6);
    EchoReply.SwapBytes(packet, 26, 30, 4);
    var checksum :=
      ReplaceChecksumWord(Word(packet[m + 2], packet[m + 3]), Word(8, packet[m + 1]), Word(0, packet[m + 1]));
    packet[m + 2] := checksum / 0x100;
    packet[m + 3] := checksum % 0x100;
    packet[m] := 0;
    action := Transmit;
  }

  predicate RouteTouches(i: nat) {
    i < 12 || i == 22 || i == 24 || i == 25
  }

  /** One hop further: TTL one lower, next-hop addresses, a given header checksum, all else kept. */
  ghost predicate Routed(p: seq<Byte>, q: seq<Byte>, hop: NextHop, checksum: nat)
    requires |p| == |q| >= 34
  {
    && q[0..6] == hop.destination && q[6..12] == hop.source
    && q[22] as int == p[22] as int - 1 && WordAt(q, 24) == checksum
    && forall i | 0 <= i < |p| && !RouteTouches(i) :: q[i] == p[i]
  }

  /** The common tail of the routing programs. */
  method WriteRoute(packet: array<Byte>, hop: NextHop, checksum: nat)
    requires packet.Length >= 34 && packet[22] > 0 && checksum <= ALL_ONES
    requires |hop.source| == 6 && |hop.destination| == 6
    modifies packet
    ensures Routed(old(packet[..]), packet[..], hop, checksum)
  {
    packet[24] := checksum / 0x100;
    packet[25] := checksum % 0x100;
    packet[22] := packet[22] - 1;
    for k := 0 to 6
      invariant forall i | 0 <= i < k :: packet[i] == hop.destination[i]
      invariant forall i | 6 <= i < 6 + k :: packet[i] == hop.source[i - 6]
      invariant packet[22] == old(packet[22]) - 1
      invariant packet[24] == checksum / 0x100 && packet[25] == checksum % 0x100
      invariant forall i | 0 <= i < packet.Length && !RouteTouches(i) :: packet[i] == old(packet[i])
    {
      packet[k] := hop.destination[k];
      packet[6 + k] := hop.source[k];
    }
  }

  /** The redirect program of the XDP lab, with equation 3 for the word that holds TTL and protocol. */
  method XdpRedirect(packet: array<Byte>, lookup: Option<NextHop>) returns (action: Action)
    requires lookup.Some? ==> |lookup.value.source| == 6 && |lookup.value.destination| == 6
    modifies packet
    ensures old(Ipv4(packet[..]) && packet[22] > 1 && lookup.Some?) <==> action == Redirect
    ensures action == Pass || action == Redirect
    ensures action == Pass ==> packet[..] == old(packet[..])
    ensures action == Redirect ==>
              var p := old(packet[..]);
              Routed(p, packet[..], lookup.value,
                     ReplaceChecksumWord(WordAt(p, 24), WordAt(p, 22), WordAt(p, 22) - 0x100))
  {
    if packet.Length < 34 || packet[12] != 8 || packet[13] != 0 || packet[14] / 16 != 4 {
      return Pass;
    }
    var headerLength := packet[14] % 16 * 4;
    if headerLength < 20 || 14 + headerLength > packet.Length || packet[22] <= 1 || lookup == None {
      return Pass;
    }
    var checksum := ReplaceChecksumWord(
      Word(packet[24], packet[25]), Word(packet[22], packet[23]), Word(packet[22] - 1, packet[23]));
    WriteRoute(packet, lookup.value, checksum);
    action := Redirect;
  }

  /** The shared parser of the BPF-path lab; nothing is written. */
  method IsWholeEchoRequest(packet: array<Byte>) returns (accepted: bool)
    ensures accepted <==> WholeEchoRequest(packet[..])
  {
    if packet.Length < 34 || packet[12] != 8 || packet[13] != 0 || packet[14] / 16 != 4 || packet[23] != 1
       || packet[20] % 0x40 != 0 || packet[21] != 0 {
      return false;
    }
    var headerLength := packet[14] % 16 * 4;
    var total := Word(packet[16], packet[17]);
    if headerLength < 20 || total < headerLength + 8 || 14 + total > packet.Length {
      return false;
    }
    var m := 14 + headerLength;
    accepted := packet[m] == 8 && packet[m + 1] == 0;
  }

  /**
   The redirect programs of the BPF-path lab, on XDP and on tc, with the TTL shortcut. `output` is the
   device map hit of the one and the configured output of the other.
   */
  method PathRedirect(packet: array<Byte>, lookup: Option<NextHop>, output: bool) returns (action: Action)
    requires lookup.Some? ==> |lookup.value.source| == 6 && |lookup.value.destination| == 6
    modifies packet
    ensures old(WholeEchoRequest(packet[..]) && packet[22] > 1 && lookup.Some? && output) <==> action == Redirect
    ensures action == Pass || action == Redirect
    ensures action == Pass ==> packet[..] == old(packet[..])
    ensures action == Redirect ==>
              var p := old(packet[..]);
              Routed(p, packet[..], lookup.value, LowerTtlChecksum(WordAt(p, 24)))
  {
    var accepted := IsWholeEchoRequest(packet);
    if !accepted || packet[22] <= 1 || lookup == None || !output {
      return Pass;
    }
    WriteRoute(packet, lookup.value, LowerTtlChecksum(Word(packet[24], packet[25])));
    action := Redirect;
  }

  /** Exchanging two aligned words leaves the sum alone. */
  lemma ExchangeKeepsSum(b: seq<Byte>, c: seq<Byte>, x: nat, y: nat)
    requires TwoWordsChanged(b, c, x, y)
    requires WordAt(c, x) == WordAt(b, y) && WordAt(c, y) == WordAt(b, x)
    ensures WordSum(c) == WordSum(b)
  {
    TwoWordSum(b, c, x, y);
  }

  /** Exchanging source and destination address keeps the IP header checksum as right or wrong as it was. */
  lemma EchoKeepsHeader(p: seq<Byte>, q: seq<Byte>)
    requires EchoRequest(p) && |q| == |p| && Echoed(p, q)
    ensures Ipv4(q) && HeaderLength(q) == HeaderLength(p)
    ensures Verifies(Header(q)) <==> Verifies(Header(p))
  {
    var b, c := Header(p), Header(q);
    assert q[26..30][0] == p[30..34][0] && q[26..30][1] == p[30..34][1] && q[26..30][2] == p[30..34][2]
           && q[26..30][3] == p[30..34][3];
    assert q[30..34][0] == p[26..30][0] && q[30..34][1] == p[26..30][1] && q[30..34][2] == p[26..30][2]
           && q[30..34][3] == p[26..30][3];
    var mid := b[12 := b[16]][13 := b[17]][16 := b[12]][17 := b[13]];
    ExchangeKeepsSum(b, mid, 12, 16);
    ExchangeKeepsSum(mid, c, 14, 18);
    VerifiesIffMultiple(b);
    VerifiesIffMultiple(c);
  }

  /** Outside type, code and checksum there is only what follows them. */
  lemma TailZero(b: seq<Byte>)
    requires |b| >= 4
    ensures RestZero(b, 2, 0) <==> !exists i | 4 <= i < |b| :: b[i] != 0
  {
    if i :| 4 <= i < |b| && b[i] != 0 {
      assert Elsewhere(i, 2, 0);
    }
  }

  /**
   The reply's ICMP checksum is right for every right request, whatever the length of the message, with
   one exception: a request whose identifier, sequence number and payload are all zero.
   */
  lemma EchoKeepsMessage(p: seq<Byte>, q: seq<Byte>, n: nat)
    requires EchoRequest(p) && |q| == |p| && Echoed(p, q)
    requires n >= 8 && 14 + HeaderLength(p) + n <= |p| && Verifies(Message(p, n))
    ensures Ipv4(q) && HeaderLength(q) == HeaderLength(p)
    ensures Verifies(Message(q, n)) <==> exists i | 4 <= i < n :: Message(p, n)[i] != 0
  {
    var b, c := Message(p, n), Message(q, n);
    var m := 14 + HeaderLength(p);
    assert forall i | 0 <= i < n && Elsewhere(i, 2, 0) ::
             !EchoTouches(m, m + i) && c[i] == q[m + i] == p[m + i] == b[i];
    assert WordAt(b, 0) == 0x800 && WordAt(c, 0) == 0;
    assert WordAt(b, 2) == WordAt(p, m + 2) && WordAt(c, 2) == WordAt(q, m + 2);
    ReplaceKeepsValid(b, c, 2, 0);
    TailZero(b);
  }

  /** Both ways to account for the lower TTL keep a right header right: the TTL word never becomes zero. */
  lemma RouteKeepsHeader(p: seq<Byte>, q: seq<Byte>, hop: NextHop, checksum: nat)
    requires Ipv4(p) && p[22] > 1 && |q| == |p| && Routed(p, q, hop, checksum)
    requires checksum == LowerTtlChecksum(WordAt(p, 24))
             || checksum == ReplaceChecksumWord(WordAt(p, 24), WordAt(p, 22), WordAt(p, 22) - 0x100)
    requires Verifies(Header(p))
    ensures Ipv4(q) && HeaderLength(q) == HeaderLength(p) && Verifies(Header(q))
  {
    var b, c := Header(p), Header(q);
    assert WordAt(b, 8) == WordAt(p, 22) && WordAt(b, 10) == WordAt(p, 24);
    assert WordAt(c, 8) == WordAt(q, 22) == WordAt(p, 22) - 0x100 && WordAt(c, 10) == checksum;
    if checksum == LowerTtlChecksum(WordAt(p, 24)) {
      LowerTtlKeepsValid(b, c, 10, 8);
    } else {
      ReplaceKeepsValid(b, c, 10, 8);
    }
  }
}
