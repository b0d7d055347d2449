/** The echo responder of the AF_XDP lab: a full checksum recompute over a frame rewritten in place. */
module EchoReply {
  import opened OnesComplement

  const U32 := 0x1_0000_0000

  /** Longest data whose 16-bit words cannot carry out of a 32-bit sum. */
  const SAFE_LENGTH := 0x20002

  lemma SafeSum(b: seq<Byte>)
    requires |b| <= SAFE_LENGTH
    ensures WordSum(b) < U32
  {
    WordSumBound(b);
  }

  method Checksum(data: array<Byte>, start: nat, length: nat) returns (r: nat)
    requires start + length <= data.Length
    ensures r <= ALL_ONES
    ensures length <= SAFE_LENGTH ==> r == ALL_ONES - OnesSum(data[start..start + length])
  {
    ghost var all := data[start..start + length];
    if length <= SAFE_LENGTH { SafeSum(all); }
    var sum: nat, at, left := 0, start, length;
    while left > 1
      invariant at + left == start + length && start <= at
      invariant 0 <= sum < U32
      invariant length <= SAFE_LENGTH ==> sum + WordSum(data[at..start + length]) == WordSum(all)
    {
      ghost var rest := data[at..start + length];
      assert rest[2..] == data[at + 2..start + length];
      sum := (sum + Word(data[at], data[at + 1])) % U32;
      left := left - 2;
      at := at + 2;
    }
    if left > 0 {
      sum := (sum + Word(data[at], 0)) % U32;
    }
    assert length <= SAFE_LENGTH ==> sum == WordSum(all);
    ghost var wide := sum;
    while sum / 0x10000 != 0
      invariant 0 <= sum < U32
      invariant Fold(sum) == Fold(wide)
      decreases sum
    {
      sum := sum % 0x10000 + sum / 0x10000;
    }
    FoldedSumIsOnesSum(all);
    r := ALL_ONES - sum;
  }

  /** Writes the checksum of `data[start..start + length]` into its aligned field; the data then verifies. */
  method SetChecksum(data: array<Byte>, start: nat, length: nat, offset: nat)
    requires start + length <= data.Length && offset + 2 <= length <= SAFE_LENGTH && offset % 2 == 0
    modifies data
    ensures Verifies(data[start..start + length])
    ensures forall i | 0 <= i < data.Length && i != start + offset && i != start + offset + 1 :: data[i] == old(data[i])
  {
    data[start + offset] := 0;
    data[start + offset + 1] := 0;
    ghost var blank := data[start..start + length];
    var sum := Checksum(data, start, length);
    data[start + offset] := sum / 0x100;
    data[start + offset + 1] := sum % 0x100;
    ghost var whole := data[start..start + length];
    WordSumChange(blank, whole, offset);
    ComplementVerifies(blank, whole);
  }

  /** Adding the complement of a sum gives a positive multiple of 0xffff, also when the sum is zero. */
  lemma ComplementVerifies(blank: seq<Byte>, whole: seq<Byte>)
    requires WordSum(whole) == WordSum(blank) + ALL_ONES - OnesSum(blank)
    ensures Verifies(whole)
  {
    OnesSumResidue(blank);
    SameResidue(WordSum(blank), OnesSum(blank), ALL_ONES - OnesSum(blank));
    VerifiesIffMultiple(whole);
  }

  function IpLength(frame: seq<Byte>): (n: nat)
    requires |frame| >= 18
  {
    Word(frame[16], frame[17])
  }

  /**
   An unfragmented IPv4 echo request without options, addressed to `local`, inside the first `length`
   bytes, with a live TTL and with both checksums in order.
   */
  predicate EchoRequest(frame: seq<Byte>, length: nat, local: seq<Byte>)
    requires length <= |frame| && |local| == 4
  {
    && length >= 42
    && frame[12] == 8 && frame[13] == 0 && frame[14] == 0x45
    && 28 <= IpLength(frame) <= length - 14
    && frame[23] == 1 && frame[22] != 0
    && frame[20] % 0x40 == 0 && frame[21] == 0
    && frame[30..34] == local
    && frame[34] == 8 && frame[35] == 0
    && Verifies(frame[14..34]) && Verifies(frame[34..IpLength(frame) + 14])
  }

  /** Bytes of the frame that a reply may change. */
  predicate Rewritten(i: nat) {
    i < 12 || i == 22 || i == 24 || i == 25 || 26 <= i < 34 || i == 34 || i == 36 || i == 37
  }

  /** `reply` answers `request`: both ends swapped, fresh TTL, type zero, both checksums in order, all else kept. */
  ghost predicate IsReply(request: seq<Byte>, reply: seq<Byte>)
    requires |request| == |reply| && |request| >= 42 && IpLength(request) + 14 <= |request| && IpLength(request) >= 28
  {
    && reply[0..6] == request[6..12] && reply[6..12] == request[0..6]
    && reply[26..30] == request[30..34] && reply[30..34] == request[26..30]
    && reply[22] == 64 && reply[34] == 0
    && Verifies(reply[14..34]) && Verifies(reply[34..IpLength(request) + 14])
    && (forall i | 0 <= i < |request| && !Rewritten(i) :: reply[i] == request[i])
  }

  /** Exchanges two disjoint stretches of `n` bytes. */
  method SwapBytes(frame: array<Byte>, first: nat, second: nat, n: nat)
    requires first + n <= second && second + n <= frame.Length
    modifies frame
    ensures forall i | first <= i < first + n :: frame[i] == old(frame[i - first + second])
    ensures forall i | second <= i < second + n :: frame[i] == old(frame[i - second + first])
    ensures forall i | 0 <= i < frame.Length && !(first <= i < first + n) && !(second <= i < second + n) ::
              frame[i] == old(frame[i])
  {
    for k := 0 to n
      invariant forall i | first <= i < first + k :: frame[i] == old(frame[i - first + second])
      invariant forall i | second <= i < second + k :: frame[i] == old(frame[i - second + first])
      invariant forall i | 0 <= i < frame.Length && !(first <= i < first + k) && !(second <= i < second + k) ::
                  frame[i] == old(frame[i])
    {
      frame[first + k], frame[second + k] := frame[second + k], frame[first + k];
    }
  }

  /** The checks, cheapest first; nothing is written. */
  method IsEchoRequest(frame: array<Byte>, length: nat, local: seq<Byte>) returns (accepted: bool)
    requires length <= frame.Length && |local| == 4
    ensures accepted <==> EchoRequest(frame[..], length, local)
  {
    if length < 42 || frame[12] != 8 || frame[13] != 0 || frame[14] != 0x45 {
      return false;
    }
    var ipLength := Word(frame[16], frame[17]);
    if ipLength < 28 || ipLength > length - 14 || frame[23] != 1 || frame[22] == 0
       || frame[20] % 0x40 != 0 || frame[21] != 0 || frame[30..34] != local
       || frame[34] != 8 || frame[35] != 0 {
      return false;
    }
    assert frame[..][30..34] == frame[30..34];
    assert frame[..][14..34] == frame[14..34] && frame[..][34..ipLength + 14] == frame[34..ipLength + 14];
    var header := Checksum(frame, 14, 20);
    if header != 0 {
      return false;
    }
    var message := Checksum(frame, 34, ipLength - 20);
    accepted := message == 0;
  }

  /** Addresses swapped and both fixed fields set, the checksums not yet. The type byte is outside the header sum. */
  method TurnAround(frame: array<Byte>)
    requires frame.Length >= 42
    modifies frame
    ensures frame[0..6] == old(frame[6..12]) && frame[6..12] == old(frame[0..6])
    ensures frame[26..30] == old(frame[30..34]) && frame[30..34] == old(frame[26..30])
    ensures frame[22] == 64 && frame[34] == 0
    ensures forall i | 0 <= i < frame.Length && !Rewritten(i) :: frame[i] == old(frame[i])
  {
    SwapBytes(frame, 0, 6, 6);
    SwapBytes(frame, 26, 30, 4);
    frame[22] := 64;
    frame[34] := 0;
  }

  method ReplyEcho(frame: array<Byte>, length: nat, local: seq<Byte>) returns (r: nat)
    requires length <= frame.Length && |local| == 4
    modifies frame
    ensures r > 0 <==> old(EchoRequest(frame[..], length, local))
    ensures r == 0 ==> frame[..] == old(frame[..])
    ensures r > 0 ==> r == old(IpLength(frame[..])) + 14 <= length && IsReply(old(frame[..]), frame[..])
  {
    var accepted := IsEchoRequest(frame, length, local);
    if !accepted {
      return 0;
    }
    ghost var request := frame[..];
    var ipLength := Word(frame[16], frame[17]);
    TurnAround(frame);
    ghost var turned := frame[..];
    SetChecksum(frame, 14, 20, 10);
    ghost var headed := frame[14..34];
    SetChecksum(frame, 34, ipLength - 20, 2);
    assert frame[14..34] == headed;
    Assemble(request, turned, frame[..], ipLength);
    r := ipLength + 14;
  }

  /** The checksum fields are disjoint from everything the turn-around fixed. */
  lemma Assemble(request: seq<Byte>, turned: seq<Byte>, reply: seq<Byte>, ipLength: nat)
    requires |request| == |turned| == |reply| && ipLength >= 28 && ipLength + 14 <= |request|
    requires ipLength == IpLength(request)
    requires turned[0..6] == request[6..12] && turned[6..12] == request[0..6]
    requires turned[26..30] == request[30..34] && turned[30..34] == request[26..30]
    requires turned[22] == 64 && turned[34] == 0
    requires forall i | 0 <= i < |request| && !Rewritten(i) :: turned[i] == request[i]
    requires forall i | 0 <= i < |request| && i !in {24, 25, 36, 37} :: reply[i] == turned[i]
    requires Verifies(reply[14..34]) && Verifies(reply[34..ipLength + 14])
    ensures IsReply(request, reply)
  {
    assert reply[0..6] == turned[0..6] && reply[6..12] == turned[6..12];
    assert reply[26..30] == turned[26..30] && reply[30..34] == turned[30..34];
  }
}
