/** The frame format of `stream_protocol.rs` and the single-threaded behaviour
    of `CreditState`: offsets, frame headers, breaking, and cumulative acks. */
module Frames {
  import opened Options

  type Byte = x: int | 0 <= x < 256
  type Bytes = seq<Byte>

  const CREDIT_HIGH: nat := 8 * 1024 * 1024
  const FRAME_HEADER_LEN: nat := 32
  const U64: nat := 0x1_0000_0000_0000_0000

  // ---------- little-endian words ----------

  function Pow256(n: nat): nat {
    if n == 0 then 1 else 256 * Pow256(n - 1)
  }

  /** The low `n` bytes of `x`, least significant first. */
  function ToLittleEndian(x: nat, n: nat): (b: Bytes)
    ensures |b| == n
  {
    if n == 0 then [] else [x % 256] + ToLittleEndian(x / 256, n - 1)
  }

  function FromLittleEndian(b: Bytes): nat {
    if b == [] then 0 else b[0] + 256 * FromLittleEndian(b[1..])
  }

  lemma {:induction false} LittleEndianRoundTrip(x: nat, n: nat)
    requires x < Pow256(n)
    ensures FromLittleEndian(ToLittleEndian(x, n)) == x
  {
    if n > 0 {
      LittleEndianRoundTrip(x / 256, n - 1);
      assert ToLittleEndian(x, n)[1..] == ToLittleEndian(x / 256, n - 1);
    }
  }

  /** Digit i of x to base 256, digit 0 the least significant. */
  function Digit(x: nat, i: nat): Byte {
    if i == 0 then x % 256 else Digit(x / 256, i - 1)
  }

  /** Which byte is where. */
  lemma {:induction false} ByteAt(x: nat, n: nat, i: nat)
    requires i < n
    ensures ToLittleEndian(x, n)[i] == Digit(x, i)
  {
    if i > 0 {
      ByteAt(x / 256, n - 1, i - 1);
    }
  }

  lemma U64IsEightBytes()
    ensures Pow256(8) == U64
  {
    assert Pow256(2) == 65536;
    assert Pow256(4) == 65536 * 65536;
    assert Pow256(6) == 65536 * 65536 * 65536;
  }

  // ---------- frames ----------

  datatype Header = Header(epoch: nat, seqNo: nat, start: nat, end: nat)

  predicate Fits(h: Header) {
    h.epoch < U64 && h.seqNo < U64 && h.start < U64 && h.end < U64
  }

  function Encode(h: Header, payload: Bytes): (f: Bytes)
    ensures |f| == FRAME_HEADER_LEN + |payload|
  {
    ToLittleEndian(h.epoch, 8) + ToLittleEndian(h.seqNo, 8) + ToLittleEndian(h.start, 8) +
    ToLittleEndian(h.end, 8) + payload
  }

  function Decode(f: Bytes): (Header, Bytes)
    requires |f| >= FRAME_HEADER_LEN
  {
    (Header(FromLittleEndian(f[0..8]), FromLittleEndian(f[8..16]), FromLittleEndian(f[16..24]),
            FromLittleEndian(f[24..32])), f[32..])
  }

  /** The layout of a frame: epoch, sequence number, start and end, eight bytes each,
      least significant first, then the payload. */
  lemma HeaderLayout(h: Header, payload: Bytes, i: nat)
    requires i < FRAME_HEADER_LEN + |payload|
    ensures FRAME_HEADER_LEN == 32
    ensures Encode(h, payload)[i] ==
            if i < 8 then Digit(h.epoch, i)
            else if i < 16 then Digit(h.seqNo, i - 8)
            else if i < 24 then Digit(h.start, i - 16)
            else if i < 32 then Digit(h.end, i - 24)
            else payload[i - 32]
  {
    hide ToLittleEndian, Digit;
    if i < 8 {
      ByteAt(h.epoch, 8, i);
    } else if i < 16 {
      ByteAt(h.seqNo, 8, i - 8);
    } else if i < 24 {
      ByteAt(h.start, 8, i - 16);
    } else if i < 32 {
      ByteAt(h.end, 8, i - 24);
    }
  }

  lemma FrameRoundTrip(h: Header, payload: Bytes)
    requires Fits(h)
    ensures Decode(Encode(h, payload)) == (h, payload)
  {
    var f := Encode(h, payload);
    U64IsEightBytes();
    assert f[0..8] == ToLittleEndian(h.epoch, 8);
    assert f[8..16] == ToLittleEndian(h.seqNo, 8);
    assert f[16..24] == ToLittleEndian(h.start, 8);
    assert f[24..32] == ToLittleEndian(h.end, 8);
    assert f[32..] == payload;
    LittleEndianRoundTrip(h.epoch, 8);
    LittleEndianRoundTrip(h.seqNo, 8);
    LittleEndianRoundTrip(h.start, 8);
    LittleEndianRoundTrip(h.end, 8);
  }

  // ---------- the state of one epoch ----------

  /** `available` is the semaphore: bytes the front end may still be sent. */
  datatype Core = Core(epoch: nat, sent: nat, acked: nat, seqNo: nat, broken: bool, available: nat)

  function New(epoch: nat): Core {
    Core(epoch, 0, 0, 0, false, CREDIT_HIGH)
  }

  ghost predicate Sound(c: Core) {
    c.epoch < U64 && c.acked <= c.sent < U64 && c.seqNo < U64
  }

  /** The frame counter `k` frames after it read `n`; it wraps. */
  function SeqAt(n: nat, k: nat): (r: nat)
    ensures r < U64
  {
    (n + k) % U64
  }

  /** `alloc_frame`: nothing once broken; an offset overflow breaks the epoch. */
  function Alloc(c: Core, payload: Bytes): (Core, Option<Bytes>) {
    if c.broken then (c, None)
    else if c.sent + |payload| >= U64 then (c.(broken := true), None)
    else
      var end := c.sent + |payload|;
      (c.(sent := end, seqNo := SeqAt(c.seqNo, 1)), Some(Encode(Header(c.epoch, c.seqNo, c.sent, end), payload)))
  }

  /** What an ack amounts to when nothing interferes: `acked` rises to the
      acknowledged offset, capped by what was sent, and credit is returned. */
  function AckSpec(c: Core, epoch: nat, incoming: nat): (Core, nat) {
    var target := if incoming < c.sent then incoming else c.sent;
    if epoch != c.epoch || c.broken || target <= c.acked then (c, 0)
    else (c.(acked := target, available := c.available + (target - c.acked)), target - c.acked)
  }

  class CreditState {
    var epoch: nat
    var sent: nat
    var acked: nat
    var seqNo: nat
    var broken: bool
    var available: nat

    ghost function View(): Core
      reads this
    {
      Core(epoch, sent, acked, seqNo, broken, available)
    }

    constructor (epoch: nat)
      requires epoch < U64
      ensures View() == New(epoch) == Core(epoch, 0, 0, 0, false, 8 * 1024 * 1024)
    {
      this.epoch := epoch;
      sent, acked, seqNo, broken, available := 0, 0, 0, false, CREDIT_HIGH;
    }

    /** Takes `n` bytes of credit, or none. */
    method TryAcquireCredit(n: nat) returns (ok: bool)
      modifies this`available
      ensures ok <==> n <= old(available)
      ensures View() == old(View()).(available := if ok then old(available) - n else old(available))
    {
      ok := n <= available;
      if ok {
        available := available - n;
      }
    }

    method AllocFrame(payload: Bytes) returns (frame: Option<Bytes>)
      modifies this`sent, this`seqNo, this`broken
      ensures (View(), frame) == Alloc(old(View()), payload)
      ensures frame.Some? && Sound(old(View())) ==>
                && Decode(frame.value) == (Header(epoch, old(seqNo), old(sent), sent), payload)
                && sent == old(sent) + |payload|
    {
      if broken {
        return None;
      }
      var start := sent;
      if start + |payload| >= U64 {
        broken := true;
        return None;
      }
      var end := start + |payload|;
      var seqNow := seqNo;
      seqNo := (seqNo + 1) % U64;
      sent := end;
      frame := Some(Encode(Header(epoch, seqNow, start, end), payload));
      if Sound(old(View())) {
        FrameRoundTrip(Header(epoch, seqNow, start, end), payload);
      }
    }

    method MarkBroken()
      modifies this`broken
      ensures View() == old(View()).(broken := true)
    {
      broken := true;
    }

    /** The compare-exchange loop, with any number of spurious failures, has the
        effect of `AckSpec`. */
    method Ack(ackEpoch: nat, incoming: nat, spurious: nat) returns (newly: nat)
      requires acked <= sent
      modifies this`acked, this`available
      ensures (View(), newly) == AckSpec(old(View()), ackEpoch, incoming)
      ensures acked <= sent
    {
      if ackEpoch != epoch || broken {
        return 0;
      }
      var cur := acked;
      var left := spurious;
      while true
        invariant cur == acked == old(acked) && available == old(available)
        decreases left
      {
        if incoming <= cur {
          return 0;
        }
        var seen := sent;
        newly := if incoming - cur < seen - cur then incoming - cur else seen - cur;
        if newly == 0 {
          return 0;
        }
        if left == 0 {
          acked := cur + newly;
          available := available + newly;
          return newly;
        }
        left := left - 1;
        cur := acked;
      }
    }
  }

  // ---------- whole streams ----------

  /** Framing a sequence of payloads one after another. */
  function AllocAll(c: Core, payloads: seq<Bytes>): (Core, seq<Option<Bytes>>)
    decreases |payloads|
  {
    if payloads == [] then (c, [])
    else
      var (d, f) := Alloc(c, payloads[0]);
      var (e, rest) := AllocAll(d, payloads[1..]);
      (e, [f] + rest)
  }

  /** Offset at which payload `k` starts. */
  function Offset(c: Core, payloads: seq<Bytes>, k: nat): nat
    requires k <= |payloads|
  {
    if k == 0 then c.sent else Offset(c, payloads, k - 1) + |payloads[k - 1]|
  }

  lemma {:induction false} OffsetShift(c: Core, payloads: seq<Bytes>, d: Core, k: nat)
    requires payloads != [] && 1 <= k <= |payloads| && d.sent == c.sent + |payloads[0]|
    ensures Offset(c, payloads, k) == Offset(d, payloads[1..], k - 1)
  {
    if k > 1 {
      OffsetShift(c, payloads, d, k - 1);
    } else {
      assert Offset(c, payloads, 0) == c.sent;
    }
  }

  lemma {:induction false} OffsetGrows(c: Core, payloads: seq<Bytes>, j: nat, k: nat)
    requires j <= k <= |payloads|
    ensures Offset(c, payloads, j) <= Offset(c, payloads, k)
  {
    if j < k {
      OffsetGrows(c, payloads, j, k - 1);
    }
  }

  lemma SeqNoShift(n: nat, k: nat)
    requires n < U64
    ensures SeqAt(n, 0) == n
    ensures k > 0 ==> SeqAt(SeqAt(n, 1), k - 1) == SeqAt(n, k)
  {
  }

  /** In an unbroken epoch every frame decodes to its own header and payload:
      the epoch, consecutive sequence numbers (modulo 2^64, as the counter is)
      and contiguous offsets. */
  lemma {:induction false} StreamRoundTrip(c: Core, payloads: seq<Bytes>, k: nat)
    requires Sound(c) && !c.broken && k < |payloads|
    requires Offset(c, payloads, |payloads|) < U64
    ensures var f := AllocAll(c, payloads).1;
            && |f| == |payloads| && f[k].Some? && |f[k].value| >= FRAME_HEADER_LEN
            && Decode(f[k].value) ==
               (Header(c.epoch, SeqAt(c.seqNo, k), Offset(c, payloads, k), Offset(c, payloads, k + 1)), payloads[k])
    decreases |payloads|
  {
    hide Encode, Decode, ToLittleEndian, FromLittleEndian, SeqAt;
    SeqNoShift(c.seqNo, k);
    var (d, first) := Alloc(c, payloads[0]);
    OffsetGrows(c, payloads, 1, |payloads|);
    assert Offset(c, payloads, 1) == c.sent + |payloads[0]|;
    OffsetShift(c, payloads, d, |payloads|);
    FrameRoundTrip(Header(c.epoch, c.seqNo, c.sent, c.sent + |payloads[0]|), payloads[0]);
    if k > 0 {
      OffsetShift(c, payloads, d, k);
      OffsetShift(c, payloads, d, k + 1);
      StreamRoundTrip(d, payloads[1..], k - 1);
    } else if |payloads| > 1 {
      StreamRoundTrip(d, payloads[1..], 0);
    }
  }

  /** The receiving side: payloads of consecutive frames put back together. */
  function Reassemble(frames: seq<Option<Bytes>>): Bytes
    requires forall f :: f in frames ==> f.Some? && |f.value| >= FRAME_HEADER_LEN
  {
    if frames == [] then [] else Decode(frames[0].value).1 + Reassemble(frames[1..])
  }

  function Concat(payloads: seq<Bytes>): Bytes {
    if payloads == [] then [] else payloads[0] + Concat(payloads[1..])
  }

  /** The decoded payloads concatenate to the bytes sent, which fill exactly the
      registered range of offsets. */
  lemma {:induction false} StreamReassembles(c: Core, payloads: seq<Bytes>)
    requires Sound(c) && !c.broken
    requires Offset(c, payloads, |payloads|) < U64
    ensures var (d, frames) := AllocAll(c, payloads);
            && (forall f :: f in frames ==> f.Some? && |f.value| >= FRAME_HEADER_LEN)
            && Reassemble(frames) == Concat(payloads)
            && d.sent == c.sent + |Concat(payloads)| == Offset(c, payloads, |payloads|)
    decreases |payloads|
  {
    if payloads != [] {
      var (d, first) := Alloc(c, payloads[0]);
      OffsetGrows(c, payloads, 1, |payloads|);
      assert Offset(c, payloads, 1) == c.sent + |payloads[0]|;
      OffsetShift(c, payloads, d, |payloads|);
      FrameRoundTrip(Header(c.epoch, c.seqNo, c.sent, c.sent + |payloads[0]|), payloads[0]);
      StreamReassembles(d, payloads[1..]);
      assert AllocAll(c, payloads).1[1..] == AllocAll(d, payloads[1..]).1;
    }
  }

  /** Once broken, by a failed send or by overflow, nothing is ever framed again. */
  lemma {:induction false} BrokenStaysSilent(c: Core, payloads: seq<Bytes>)
    requires c.broken
    ensures AllocAll(c, payloads).0 == c
    ensures forall f :: f in AllocAll(c, payloads).1 ==> f == None
  {
    if payloads != [] {
      BrokenStaysSilent(c, payloads[1..]);
    }
  }

  /** The offset overflow breaks the epoch, so no offset is ever reused. */
  lemma OverflowBreaks(c: Core, payload: Bytes, later: seq<Bytes>)
    requires !c.broken && c.sent + |payload| >= U64
    ensures Alloc(c, payload).1 == None
    ensures forall f :: f in AllocAll(Alloc(c, payload).0, later).1 ==> f == None
  {
    BrokenStaysSilent(Alloc(c, payload).0, later);
  }
}
