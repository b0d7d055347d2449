/**
 Frame ownership of the AF_XDP echo responder. User space and the kernel share `frames` UMEM frames
 through four rings; kernel steps may fall between any two statements of the user code. The kernel is
 assumed to move frames as the rings prescribe and to describe packets inside their frame.
 */
module Umem {
  const FRAME_SIZE := 4096
  const BATCH := 32

  /** Modulus of the 64-bit counters. */
  const U64 := 0x1_0000_0000_0000_0000

  /** Largest frame count whose total size is still an `int`. */
  const MAX_FRAMES := 0x7ffff

  datatype Descriptor = Descriptor(addr: nat, len: nat) {
    /** The packet lies inside the frame that its address starts in. */
    predicate Contained() {
      addr % FRAME_SIZE + len <= FRAME_SIZE
    }
  }

  /** The address with its offset inside the frame masked off. */
  function Base(addr: nat): (b: nat)
    ensures b % FRAME_SIZE == 0 && b / FRAME_SIZE == addr / FRAME_SIZE && b <= addr < b + FRAME_SIZE
  {
    addr / FRAME_SIZE * FRAME_SIZE
  }

  function Addresses(s: seq<Descriptor>): (a: seq<nat>)
    ensures |a| == |s|
  {
    seq(|s|, i requires 0 <= i < |s| => s[i].addr)
  }

  lemma AddressesTail(s: seq<Descriptor>, k: nat)
    requires k < |s|
    ensures Addresses(s[k..])[0] == s[k].addr
    ensures Addresses(s[k + 1..]) == Addresses(s[k..])[1..]
  {
  }

  lemma AddressesAppend(s: seq<Descriptor>, d: Descriptor)
    ensures Addresses(s + [d]) == Addresses(s) + [d.addr]
  {
  }

  /** How many of the addresses point into frame `f`. */
  function Count(s: seq<nat>, f: nat): (r: nat) {
    if s == [] then 0 else (if s[0] / FRAME_SIZE == f then 1 else 0) + Count(s[1..], f)
  }

  /**
   Who holds which address: the free list, the rings as far as they are unprocessed, and a frame between two of
   them.
   */
  datatype Ownership = Ownership(
    free: seq<nat>,
    fill: seq<nat>,
    rx: seq<nat>,
    tx: seq<nat>,
    sending: seq<nat>,
    completion: seq<nat>,
    hand: seq<nat>)
  {
    function Owned(f: nat): (r: nat) {
      Count(free, f) + Count(fill, f) + Count(rx, f) + Count(tx, f) + Count(sending, f) + Count(completion, f)
        + Count(hand, f)
    }

    /** Every frame has exactly one owner, and nothing else is owned. */
    ghost predicate Conserved(frames: nat) {
      forall f: nat :: Owned(f) == if f < frames then 1 else 0
    }

    function Size(): (r: nat) {
      |free| + |fill| + |rx| + |tx| + |sending| + |completion| + |hand|
    }
  }

  lemma {:induction false} CountConcat(s: seq<nat>, t: seq<nat>, f: nat)
    ensures Count(s + t, f) == Count(s, f) + Count(t, f)
  {
    if s == [] {
      assert s + t == t;
    } else {
      CountConcat(s[1..], t, f);
      assert (s + t)[1..] == s[1..] + t;
    }
  }

  lemma CountAppend(s: seq<nat>, a: nat, f: nat)
    ensures Count(s + [a], f) == Count(s, f) + if a / FRAME_SIZE == f then 1 else 0
  {
    CountConcat(s, [a], f);
    assert [a][1..] == [];
  }

  lemma CountRemove(s: seq<nat>, i: nat, f: nat)
    requires i < |s|
    ensures Count(s, f) == Count(s[..i] + s[i + 1..], f) + if s[i] / FRAME_SIZE == f then 1 else 0
  {
    CountConcat(s[..i], s[i + 1..], f);
    CountConcat(s[..i], s[i..], f);
    assert s == s[..i] + s[i..];
    assert s[i..][1..] == s[i + 1..];
  }

  lemma {:induction false} CountMember(s: seq<nat>, i: nat)
    requires i < |s|
    ensures Count(s, s[i] / FRAME_SIZE) > 0
  {
    if i > 0 {
      CountMember(s[1..], i - 1);
    }
  }

  lemma FillToRx(o: Ownership, frames: nat, addr: nat)
    requires o.Conserved(frames) && o.fill != [] && addr / FRAME_SIZE == o.fill[0] / FRAME_SIZE
    ensures o.(fill := o.fill[1..], rx := o.rx + [addr]).Conserved(frames)
  {
    forall f: nat ensures o.Owned(f)
      == o.(fill := o.fill[1..], rx := o.rx + [addr]).Owned(f) { CountAppend(o.rx, addr, f); }
  }

  lemma TxToSending(o: Ownership, frames: nat)
    requires o.Conserved(frames) && o.tx != []
    ensures o.(tx := o.tx[1..], sending := o.sending + [o.tx[0]]).Conserved(frames)
  {
    forall f: nat ensures o.Owned(f) == o.(tx := o.tx[1..], sending := o.sending + [o.tx[0]]).Owned(f) {
      CountAppend(o.sending, o.tx[0], f);
    }
  }

  lemma SendingToCompletion(o: Ownership, frames: nat, i: nat)
    requires o.Conserved(frames) && i < |o.sending|
    ensures o.(sending := o.sending[..i] + o.sending[i + 1..],
            completion := o.completion + [o.sending[i]]).Conserved(frames)
  {
    var o' := o.(sending := o.sending[..i] + o.sending[i + 1..], completion := o.completion + [o.sending[i]]);
    forall f: nat ensures o.Owned(f) == o'.Owned(f) {
      CountRemove(o.sending, i, f);
      CountAppend(o.completion, o.sending[i], f);
    }
  }

  lemma FreeToHand(o: Ownership, frames: nat)
    requires o.Conserved(frames) && o.free != [] && o.hand == []
    ensures o.(free := o.free[..|o.free| - 1], hand := [o.free[|o.free| - 1]]).Conserved(frames)
  {
    var n := |o.free| - 1;
    var o' := o.(free := o.free[..n], hand := [o.free[n]]);
    assert o.free == o.free[..n] + [o.free[n]];
    forall f: nat ensures o.Owned(f) == o'.Owned(f) {
      CountAppend(o.free[..n], o.free[n], f);
      assert [o.free[n]][1..] == [];
    }
  }

  lemma HandToFill(o: Ownership, frames: nat)
    requires o.Conserved(frames) && |o.hand| == 1
    ensures o.(hand := [], fill := o.fill + o.hand).Conserved(frames)
  {
    var o' := o.(hand := [], fill := o.fill + o.hand);
    forall f: nat ensures o.Owned(f) == o'.Owned(f) { CountConcat(o.fill, o.hand, f); }
  }

  lemma CompletionToFree(o: Ownership, frames: nat, base: nat)
    requires o.Conserved(frames) && o.completion != [] && base / FRAME_SIZE == o.completion[0] / FRAME_SIZE
    ensures o.(completion := o.completion[1..], free := o.free + [base]).Conserved(frames)
  {
    var o' := o.(completion := o.completion[1..], free := o.free + [base]);
    forall f: nat ensures o.Owned(f) == o'.Owned(f) { CountAppend(o.free, base, f); }
  }

  lemma RxToFree(o: Ownership, frames: nat, base: nat)
    requires o.Conserved(frames) && o.rx != [] && base / FRAME_SIZE == o.rx[0] / FRAME_SIZE
    ensures o.(rx := o.rx[1..], free := o.free + [base]).Conserved(frames)
  {
    var o' := o.(rx := o.rx[1..], free := o.free + [base]);
    forall f: nat ensures o.Owned(f) == o'.Owned(f) { CountAppend(o.free, base, f); }
  }

  lemma RxToTx(o: Ownership, frames: nat)
    requires o.Conserved(frames) && o.rx != []
    ensures o.(rx := o.rx[1..], tx := o.tx + [o.rx[0]]).Conserved(frames)
  {
    var o' := o.(rx := o.rx[1..], tx := o.tx + [o.rx[0]]);
    forall f: nat ensures o.Owned(f) == o'.Owned(f) { CountAppend(o.tx, o.rx[0], f); }
  }

  ghost predicate OnlyAt(counts: seq<nat>, k: nat) {
    k < |counts| && counts[k] == 1 && forall j | 0 <= j < |counts| && j != k :: counts[j] == 0
  }

  /** Every frame has one owner, once: it is in one of the lists, and once in that. */
  lemma OneOwner(o: Ownership, frames: nat, f: nat)
    requires o.Conserved(frames) && f < frames
    ensures exists k :: OnlyAt([Count(o.free, f), Count(o.fill, f), Count(o.rx, f), Count(o.tx, f),
                                Count(o.sending, f), Count(o.completion, f), Count(o.hand, f)], k)
  {
    var counts := [Count(o.free, f), Count(o.fill, f), Count(o.rx, f), Count(o.tx, f),
                   Count(o.sending, f), Count(o.completion, f), Count(o.hand, f)];
    assert o.Owned(f) == 1;
    assert counts[0] == 1 || counts[1] == 1 || counts[2] == 1 || counts[3] == 1 || counts[4] == 1 || counts[5] == 1
           || counts[6] == 1;
    var k: nat :| k < 7 && counts[k] == 1;
    assert OnlyAt(counts, k);
  }

  /** The entries of `s` that point into one of the first `n` frames. */
  function CountBelow(s: seq<nat>, n: nat): (r: nat) {
    if n == 0 then 0 else CountBelow(s, n - 1) + Count(s, n - 1)
  }

  lemma {:induction false} CountBelowNil(n: nat)
    ensures CountBelow([], n) == 0
  {
    if n > 0 { CountBelowNil(n - 1); }
  }

  lemma {:induction false} CountBelowCons(s: seq<nat>, n: nat)
    requires s != []
    ensures CountBelow(s, n) == CountBelow(s[1..], n) + if s[0] / FRAME_SIZE < n then 1 else 0
  {
    if n > 0 { CountBelowCons(s, n - 1); }
  }

  lemma {:induction false} CountBelowSize(s: seq<nat>, n: nat)
    requires forall f: nat | f >= n :: Count(s, f) == 0
    ensures CountBelow(s, n) == |s|
  {
    if s == [] {
      CountBelowNil(n);
    } else {
      CountBelowCons(s, n);
      assert Count(s, s[0] / FRAME_SIZE) > 0;
      forall f: nat | f >= n ensures Count(s[1..], f) == 0 { assert Count(s, f) == 0; }
      CountBelowSize(s[1..], n);
    }
  }

  lemma {:induction false} OwnedBelow(o: Ownership, frames: nat, n: nat)
    requires o.Conserved(frames) && n <= frames
    ensures CountBelow(o.free, n) + CountBelow(o.fill, n) + CountBelow(o.rx, n) + CountBelow(o.tx, n)
            + CountBelow(o.sending, n) + CountBelow(o.completion, n) + CountBelow(o.hand, n) == n
  {
    if n > 0 {
      OwnedBelow(o, frames, n - 1);
      assert o.Owned(n - 1) == 1;
    }
  }

  /** The lists together hold as many entries as there are frames: the pigeonhole behind every capacity argument. */
  lemma Pigeonhole(o: Ownership, frames: nat)
    requires o.Conserved(frames)
    ensures o.Size() == frames
  {
    OwnedBelow(o, frames, frames);
    forall f: nat | f >= frames
      ensures Count(o.free, f) == Count(o.fill, f) == Count(o.rx, f) == Count(o.tx, f) == 0
      ensures Count(o.sending, f) == Count(o.completion, f) == Count(o.hand, f) == 0
    {
      assert o.Owned(f) == 0;
    }
    CountBelowSize(o.free, frames);
    CountBelowSize(o.fill, frames);
    CountBelowSize(o.rx, frames);
    CountBelowSize(o.tx, frames);
    CountBelowSize(o.sending, frames);
    CountBelowSize(o.completion, frames);
    CountBelowSize(o.hand, frames);
  }

  /** A received packet starts in a real frame, so the descriptor check never fires on it. */
  lemma ReceivedInside(o: Ownership, frames: nat, i: nat)
    requires o.Conserved(frames) && i < |o.rx|
    ensures o.rx[i] < frames * FRAME_SIZE
  {
    CountMember(o.rx, i);
    assert o.Owned(o.rx[i] / FRAME_SIZE) > 0;
  }

  /** The free list at start-up: frame after frame. */
  lemma {:induction false} FreshFrames(n: nat, f: nat)
    ensures Count(seq(n, i => i * FRAME_SIZE), f) == if f < n then 1 else 0
  {
    if n > 0 {
      FreshFrames(n - 1, f);
      CountAppend(seq(n - 1, i => i * FRAME_SIZE), (n - 1) * FRAME_SIZE, f);
      assert seq(n, i => i * FRAME_SIZE) == seq(n - 1, i => i * FRAME_SIZE) + [(n - 1) * FRAME_SIZE];
    }
  }

  lemma FreshlyConserved(frames: nat)
    ensures Ownership(seq(frames, i => i * FRAME_SIZE), [], [], [], [], [], []).Conserved(frames)
  {
    var o := Ownership(seq(frames, i => i * FRAME_SIZE), [], [], [], [], [], []);
    forall f: nat ensures o.Owned(f) == if f < frames then 1 else 0 { FreshFrames(frames, f); }
  }

  /** Exact event counts. `taken` is the one packet that is counted as received but not answered yet. */
  datatype Counts = Counts(received: nat, submitted: nat, completed: nat, refused: nat, taken: nat)

  function Wrap(x: nat): (r: nat) {
    x % U64
  }

  lemma WrapNext(x: nat)
    ensures Wrap(Wrap(x) + 1) == Wrap(x + 1)
  {
  }

  class Rings {
    const frames: nat
    var fill: seq<nat>
    var rx: seq<Descriptor>
    var tx: seq<Descriptor>
    var sending: seq<nat>
    var completion: seq<nat>
    const available: array<nat>
    var freeCount: nat
    var received: nat
    var submitted: nat
    var completed: nat
    var rejected: nat

    /** The batch cursors: entries of RX and CQ that are processed but not yet released. */
    var rxDone: nat
    var completionDone: nat

    /** A frame popped from the free list and not yet posted. */
    ghost var hand: seq<nat>
    /** The counts that the wrapped counters stand for, what `reply_echo` refused, and the packet being answered. */
    ghost var counts: Counts

    ghost function Owners(): (r: Ownership)
      reads this, available
      requires freeCount <= available.Length && rxDone <= |rx| && completionDone <= |completion|
    {
      Ownership(available[..freeCount], fill, Addresses(rx[rxDone..]), Addresses(tx), sending,
        completion[completionDone..], hand)
    }

    ghost predicate Valid()
      reads this, available
    {
      && 0 < frames <= MAX_FRAMES && available.Length == frames
      && freeCount <= frames && rxDone <= |rx| <= frames && completionDone <= |completion| <= frames
      && Owners().Conserved(frames)
      && (forall i | 0 <= i < freeCount :: available[i] % FRAME_SIZE == 0)
      && (forall a | a in fill :: a % FRAME_SIZE == 0)
      && (forall a | a in hand :: a % FRAME_SIZE == 0)
      && (forall d | d in rx :: d.Contained())
      && (forall d | d in tx :: d.Contained())
      && Counted()
    }

    /** What the counters say about the rings; each is right up to its 64-bit wrap-around. */
    ghost predicate Counted()
      reads this
    {
      && received == Wrap(counts.received) && submitted == Wrap(counts.submitted)
      && completed == Wrap(counts.completed) && rejected == Wrap(counts.refused)
      && counts.taken <= 1
      && counts.received == counts.submitted + counts.refused + counts.taken
      && counts.submitted == counts.completed + |tx| + |sending| + |completion| - completionDone
    }

    /** Between two batches: nothing in hand, nothing processed but unreleased. */
    ghost predicate Settled()
      reads this, available
    {
      Valid() && hand == [] && rxDone == 0 && completionDone == 0 && counts.taken == 0
    }

    constructor (frames: nat)
      requires 0 < frames <= MAX_FRAMES
      ensures Settled() && this.frames == frames && fresh(available)
      ensures freeCount == frames && counts == Counts(0, 0, 0, 0, 0)
    {
      this.frames := frames;
      available := new nat[frames];
      fill, rx, tx, sending, completion := [], [], [], [], [];
      freeCount, received, submitted, completed, rejected := 0, 0, 0, 0, 0;
      rxDone, completionDone, hand, counts := 0, 0, [], Counts(0, 0, 0, 0, 0);
      new;
      for i := 0 to frames
        modifies this`freeCount, available
        invariant freeCount == i
        invariant forall k | 0 <= k < i :: available[k] == k * FRAME_SIZE
      {
        available[freeCount] := i * FRAME_SIZE;
        freeCount := freeCount + 1;
      }
      assert available[..freeCount] == seq(frames, i => i * FRAME_SIZE);
      assert Owners() == Ownership(seq(frames, i => i * FRAME_SIZE), [], [], [], [], [], []);
      FreshlyConserved(frames);
    }

    // The kernel.

    /** FILL to RX: a packet arrives in the oldest posted frame. */
    method KernelReceive(offset: nat, len: nat)
      requires Valid()
      modifies this`fill, this`rx
      ensures Valid()
      ensures old(rx) <= rx && |fill| <= |old(fill)|
    {
      if fill != [] && |rx| < frames && offset + len <= FRAME_SIZE && offset < FRAME_SIZE {
        var packet := Descriptor(fill[0] + offset, len);
        assert fill[0] in fill;
        assert packet.addr == offset + fill[0] / FRAME_SIZE * FRAME_SIZE;
        assert packet.addr % FRAME_SIZE == offset && packet.addr / FRAME_SIZE == fill[0] / FRAME_SIZE;
        FillToRx(Owners(), frames, packet.addr);
        ghost var next := Owners().(fill := fill[1..], rx := Addresses(rx[rxDone..]) + [packet.addr]);
        assert forall a | a in fill[1..] :: a in fill;
        fill, rx := fill[1..], rx + [packet];
        assert rx[rxDone..] == old(rx)[rxDone..] + [packet];
        assert Owners() == next;
      }
    }

    /** The kernel takes the oldest packet from TX to send it. */
    method KernelSend()
      requires Valid()
      modifies this`tx, this`sending
      ensures Valid() && |tx| <= |old(tx)|
    {
      if tx != [] {
        TxToSending(Owners(), frames);
        ghost var next := Owners().(tx := Addresses(tx)[1..], sending := sending + [tx[0].addr]);
        tx, sending := tx[1..], sending + [tx[0].addr];
        assert Owners() == next;
      }
    }

    /** Sending ends, in any order: the frame appears on CQ. */
    method KernelComplete(i: nat)
      requires Valid()
      modifies this`sending, this`completion
      ensures Valid()
      ensures old(completion) <= completion
    {
      if i < |sending| && |completion| < frames {
        SendingToCompletion(Owners(), frames, i);
        ghost var next := Owners().(sending := sending[..i] + sending[i + 1..],
                                    completion := completion[completionDone..] + [sending[i]]);
        completion, sending := completion + [sending[i]], sending[..i] + sending[i + 1..];
        assert Owners() == next;
      }
    }

    /** Any number of kernel steps. */
    method Kernel()
      requires Valid()
      modifies this`fill, this`rx, this`tx, this`sending, this`completion
      ensures Valid()
      ensures old(rx) <= rx && old(completion) <= completion && |fill| <= |old(fill)| && |tx| <= |old(tx)|
    {
      var steps: nat :| true;
      for k := 0 to steps
        invariant Valid()
        invariant old(rx) <= rx && old(completion) <= completion && |fill| <= |old(fill)| && |tx| <= |old(tx)|
      {
        var which: nat, x: nat, y: nat :| true;
        if which == 0 {
          KernelReceive(x, y);
        } else if which == 1 {
          KernelSend();
        } else {
          KernelComplete(x);
        }
      }
    }

    // User space.

    /** Posts the whole free list: FILL always has room for it. */
    method Refill()
      requires Valid() && hand == []
      modifies this`fill, this`rx, this`tx, this`sending, this`completion, this`freeCount, this`hand
      ensures Valid() && hand == []
      ensures freeCount == 0
      ensures old(rx) <= rx && old(completion) <= completion
    {
      FillHasRoom();
      while freeCount > 0 && |fill| < frames
        invariant Valid() && hand == []
        invariant old(rx) <= rx && old(completion) <= completion
        invariant freeCount > 0 ==> |fill| < frames
        decreases freeCount
      {
        PostOne();
        FillHasRoom();
      }
    }

    /** One frame from the free list to FILL, with the kernel running between the steps. */
    method PostOne()
      requires Valid() && hand == [] && freeCount > 0
      modifies this`fill, this`rx, this`tx, this`sending, this`completion, this`freeCount, this`hand
      ensures Valid() && hand == [] && freeCount == old(freeCount) - 1
      ensures old(rx) <= rx && old(completion) <= completion
    {
      Kernel();
      var address := Pop();
      Kernel();
      Post(address);
      Kernel();
    }

    lemma FillHasRoom()
      requires Valid()
      ensures freeCount > 0 ==> |fill| < frames
    {
      Pigeonhole(Owners(), frames);
    }

    lemma TxHasRoom()
      requires Valid() && rxDone < |rx|
      ensures |tx| < frames
    {
      Pigeonhole(Owners(), frames);
    }

    method Pop() returns (address: nat)
      requires Valid() && hand == [] && freeCount > 0
      modifies this`freeCount, this`hand
      ensures Valid() && hand == [address]
      ensures freeCount == old(freeCount) - 1 && address == available[freeCount]
    {
      ghost var before := Owners();
      FreeToHand(before, frames);
      freeCount := freeCount - 1;
      address := available[freeCount];
      hand := [address];
      assert Owners() == before.(free := before.free[..|before.free| - 1], hand := [before.free[|before.free| - 1]]);
    }

    method Post(address: nat)
      requires Valid() && hand == [address]
      modifies this`fill, this`hand
      ensures Valid() && hand == []
      ensures fill == old(fill) + [address]
    {
      ghost var before := Owners();
      HandToFill(before, frames);
      fill := fill + [address];
      hand := [];
      assert Owners() == before.(hand := [], fill := before.fill + before.hand);
    }

    /** Takes back up to one batch of sent frames. The free list always has room for them. */
    method Reap()
      requires Settled()
      modifies this`fill, this`rx, this`tx, this`sending, this`completion, this`freeCount, this`completed,
               this`completionDone, this`counts, available
      ensures Settled() && old(rx) <= rx
      ensures freeCount >= old(freeCount)
      ensures counts == old(counts).(completed := old(counts).completed + (freeCount - old(freeCount)))
      ensures freeCount - old(freeCount) == if |old(completion)| < BATCH then |old(completion)| else BATCH
    {
      var count := if |completion| < BATCH then |completion| else BATCH;
      for i := 0 to count
        invariant Valid() && hand == [] && rxDone == 0 && completionDone == i
        invariant old(rx) <= rx && old(completion) <= completion
        invariant freeCount == old(freeCount) + i && counts == old(counts).(completed := old(counts).completed + i)
      {
        Kernel();
        ReapOne();
      }
      Release();
    }

    /** Gives the processed batch of CQ entries back to the kernel. */
    method Release()
      requires Valid()
      modifies this`completion, this`completionDone
      ensures Valid() && completionDone == 0
    {
      completion, completionDone := completion[completionDone..], 0;
    }

    method ReapOne()
      requires Valid() && completionDone < |completion|
      modifies this`freeCount, this`completed, this`completionDone, this`counts, available
      ensures Valid() && completionDone == old(completionDone) + 1
      ensures freeCount == old(freeCount) + 1 && counts == old(counts).(completed := old(counts).completed + 1)
    {
      ghost var before := Owners();
      Pigeonhole(before, frames);
      var base := Base(completion[completionDone]);
      CompletionToFree(before, frames, base);
      available[freeCount] := base;
      freeCount := freeCount + 1;
      WrapNext(counts.completed);
      completed, counts := Wrap(completed + 1), counts.(completed := counts.completed + 1);
      completionDone := completionDone + 1;
      assert Owners() == before.(completion := before.completion[1..], free := before.free + [base]);
    }

    /** The descriptor check before a packet is answered. */
    method Check(packet: Descriptor) returns (valid: bool)
      requires Valid() && rxDone < |rx| && packet == rx[rxDone]
      ensures valid
    {
      var base := Base(packet.addr);
      assert Addresses(rx[rxDone..])[0] == packet.addr;
      ReceivedInside(Owners(), frames, 0);
      assert packet in rx && packet.addr == base + packet.addr % FRAME_SIZE;
      valid := !(packet.addr >= frames * FRAME_SIZE || packet.len > FRAME_SIZE
        || packet.addr + packet.len > base + FRAME_SIZE);
    }

    /** Counts the packet as received; its frame is still the RX entry's. */
    method Take()
      requires Valid() && counts.taken == 0
      modifies this`received, this`counts
      ensures Valid() && counts == old(counts).(received := old(counts).received + 1, taken := 1)
    {
      WrapNext(counts.received);
      received, counts := Wrap(received + 1), counts.(received := counts.received + 1, taken := 1);
    }

    /**
     One received packet: checked, offered to the responder, and then either posted for sending or its
     frame freed. The descriptor check never fires and TX always has room, so exactly the refused
     packets count as rejected.
     */
    method Answer() returns (valid: bool)
      requires Valid() && hand == [] && counts.taken == 0 && rxDone < |rx|
      modifies this`fill, this`rx, this`tx, this`sending, this`completion, this`freeCount, this`received,
               this`submitted, this`rejected, this`rxDone, this`counts, available
      ensures Valid() && counts.taken == 0 && valid
      ensures rxDone == old(rxDone) + 1 && old(rx) <= rx && old(completion) <= completion
      ensures counts.received == old(counts).received + 1 && counts.completed == old(counts).completed
      ensures freeCount == old(freeCount) + counts.refused - old(counts).refused
      ensures old(counts).refused <= counts.refused <= old(counts).refused + 1
    {
      var packet := rx[rxDone];
      valid := Check(packet);
      if !valid {
        return;
      }
      Take();
      Kernel();
      // What `reply_echo` returns for the packet; zero refuses it.
      var length: nat :| length <= packet.len;
      Dispose(packet, length);
    }

    /** What happens to a packet that is counted: its frame goes to TX, or back to the free list if it was refused. */
    method Dispose(packet: Descriptor, length: nat)
      requires Valid() && counts.taken == 1 && rxDone < |rx| && packet == rx[rxDone] && length <= packet.len
      modifies this`fill, this`rx, this`tx, this`sending, this`completion, this`freeCount,
               this`submitted, this`rejected, this`rxDone, this`counts, available
      ensures Valid() && rxDone == old(rxDone) + 1 && old(rx) <= rx && old(completion) <= completion
      ensures freeCount == old(freeCount) + if length == 0 then 1 else 0
      ensures counts == if length == 0 then old(counts).(refused := old(counts).refused + 1, taken := 0)
                        else old(counts).(submitted := old(counts).submitted + 1, taken := 0)
    {
      TxHasRoom();
      if length == 0 || |tx| >= frames {
        Discard(Base(packet.addr));
      } else {
        Kernel();
        assert packet in rx;
        Submit(Descriptor(packet.addr, length));
      }
    }

    /** The responder refused the packet: count it and free its frame. */
    method Discard(base: nat)
      requires Valid() && counts.taken == 1 && rxDone < |rx|
      requires base % FRAME_SIZE == 0 && base / FRAME_SIZE == rx[rxDone].addr / FRAME_SIZE
      modifies this`freeCount, this`rejected, this`rxDone, this`counts, available
      ensures Valid() && rxDone == old(rxDone) + 1 && freeCount == old(freeCount) + 1
      ensures counts == old(counts).(refused := old(counts).refused + 1, taken := 0)
    {
      ghost var before := Owners();
      Pigeonhole(before, frames);
      AddressesTail(rx, rxDone);
      RxToFree(before, frames, base);
      WrapNext(counts.refused);
      rejected, counts := Wrap(rejected + 1), counts.(refused := counts.refused + 1, taken := 0);
      available[freeCount] := base;
      freeCount := freeCount + 1;
      rxDone := rxDone + 1;
      assert Owners() == before.(rx := before.rx[1..], free := before.free + [base]);
    }

    /** The reply goes out in the frame that the request came in. */
    method Submit(reply: Descriptor)
      requires Valid() && counts.taken == 1 && rxDone < |rx| && reply.addr == rx[rxDone].addr && reply.Contained()
      modifies this`tx, this`submitted, this`rxDone, this`counts
      ensures Valid() && rxDone == old(rxDone) + 1 && tx == old(tx) + [reply]
      ensures counts == old(counts).(submitted := old(counts).submitted + 1, taken := 0)
    {
      ghost var before := Owners();
      AddressesTail(rx, rxDone);
      AddressesAppend(tx, reply);
      RxToTx(before, frames);
      tx := tx + [reply];
      WrapNext(counts.submitted);
      submitted, counts := Wrap(submitted + 1), counts.(submitted := counts.submitted + 1, taken := 0);
      rxDone := rxDone + 1;
      assert Owners() == before.(rx := before.rx[1..], tx := before.tx + [reply.addr]);
    }

    /** One RX batch: every packet of it is answered, then the batch is released. */
    method ReceiveBatch() returns (valid: bool, count: nat)
      requires Settled()
      modifies this`fill, this`rx, this`tx, this`sending, this`completion, this`freeCount, this`received,
               this`submitted, this`rejected, this`rxDone, this`counts, available
      ensures Settled() && valid
      ensures count == if |old(rx)| < BATCH then |old(rx)| else BATCH
      ensures counts.received == old(counts).received + count && counts.completed == old(counts).completed
      ensures freeCount == old(freeCount) + (counts.refused - old(counts).refused)
      ensures 0 <= counts.refused - old(counts).refused <= count
    {
      count := if |rx| < BATCH then |rx| else BATCH;
      valid := true;
      for i := 0 to count
        invariant Valid() && hand == [] && completionDone == 0 && counts.taken == 0 && rxDone == i && valid
        invariant old(rx) <= rx
        invariant counts.received == old(counts).received + i && counts.completed == old(counts).completed
        invariant freeCount == old(freeCount) + (counts.refused - old(counts).refused)
        invariant 0 <= counts.refused - old(counts).refused <= i
      {
        Kernel();
        valid := Answer();
        if !valid {
          return;
        }
      }
      Kernel();
      ReleaseBatch();
    }

    /** Gives the processed batch of RX entries back to the kernel. */
    method ReleaseBatch()
      requires Valid()
      modifies this`rx, this`rxDone
      ensures Valid() && rxDone == 0
    {
      assert forall d | d in rx[rxDone..] :: d in rx;
      rx, rxDone := rx[rxDone..], 0;
    }

    /** The kick test compares two wrapped counters and still tells exactly whether a sent frame is outstanding. */
    method KickNeeded() returns (kick: bool)
      requires Settled()
      ensures kick <==> tx != [] || sending != [] || completion != []
    {
      Pigeonhole(Owners(), frames);
      kick := submitted != completed;
    }

    /**
     One round up to the kick: sent frames are taken back, the whole free list is posted, and a batch of packets
     is answered. The free list then holds the frames of the packets that this round refused, and no others.
     */
    method Round() returns (valid: bool, count: nat)
      requires Settled()
      modifies this`fill, this`rx, this`tx, this`sending, this`completion, this`freeCount, this`received,
               this`submitted, this`completed, this`rejected, this`rxDone, this`completionDone, this`hand,
               this`counts, available
      ensures Settled() && valid && count <= BATCH
      ensures counts.received == old(counts).received + count
      ensures counts.completed
              == old(counts).completed + if |old(completion)| < BATCH then |old(completion)| else BATCH
      ensures freeCount == counts.refused - old(counts).refused <= count
    {
      Reap();
      Refill();
      valid, count := ReceiveBatch();
    }

    /**
     The service loop for at most `rounds` rounds; it can be stopped before any round, and the kick and
     the poll can fail. It never ends for an invalid descriptor. Once a round was served, at most two batches of
     frames are idle: one that was refused and one that was taken back.
     */
    method Serve(rounds: nat) returns (invalid: bool, failed: bool, ghost served: nat)
      requires Settled()
      modifies this`fill, this`rx, this`tx, this`sending, this`completion, this`freeCount, this`received,
               this`submitted, this`completed, this`rejected, this`rxDone, this`completionDone, this`hand,
               this`counts, available
      ensures Settled() && !invalid
      ensures counts.received == counts.submitted + counts.refused
      ensures counts.submitted - counts.completed == |tx| + |sending| + |completion|
      ensures served <= rounds && counts.received <= old(counts).received + served * BATCH
      ensures served > 0 ==> freeCount <= 2 * BATCH
    {
      invalid, failed, served := false, false, 0;
      for round := 0 to rounds
        invariant Settled() && !invalid && served == round
        invariant old(counts).received <= counts.received <= old(counts).received + served * BATCH
        invariant served > 0 ==> freeCount <= BATCH
      {
        var stopping: bool :| true;
        if stopping {
          break;
        }
        var valid, count := Round();
        served := served + 1;
        if !valid {
          invalid := true;
          return;
        }
        var kick := KickNeeded();
        var kickFails: bool, pollFails: bool :| true;
        if (kick && kickFails) || (count == 0 && pollFails) {
          failed := true;
          return;
        }
        Kernel();
      }
      Reap();
    }
  }
}
