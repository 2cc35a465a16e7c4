/** WebSocket frames as the chat probe sends and receives them
    (`harnesses/cluster-service-sim/ws_chat_probe.py`; sections 5.2 to 5.4 of RFC 6455). */
module WsFrames {
  import opened Common

  type byte = x: int | 0 <= x < 256

  type Bytes = seq<byte>

  /** A masking key. */
  type Mask = m: Bytes | |m| == 4 witness [0, 0, 0, 0]

  // ---- Bytes and numbers ----------------------------------------------------------------------

  function Pow2(k: nat): nat {
    if k == 0 then 1 else 2 * Pow2(k - 1)
  }

  /** Exclusive or of the lowest `k` binary digits. */
  function XorBits(a: nat, b: nat, k: nat): (r: nat)
    ensures r < Pow2(k)
  {
    if k == 0 then 0
    else 2 * XorBits(a / 2, b / 2, k - 1) + if a % 2 == b % 2 then 0 else 1
  }

  function Xor(a: byte, b: byte): byte {
    assert Pow2(8) == 256 by { assert Pow2(4) == 16; }
    XorBits(a, b, 8)
  }

  lemma {:induction false} XorBitsTwice(a: nat, b: nat, k: nat)
    requires a < Pow2(k)
    ensures XorBits(XorBits(a, b, k), b, k) == a
  {
    if k > 0 {
      var rest, bit := XorBits(a / 2, b / 2, k - 1), if a % 2 == b % 2 then 0 else 1;
      assert (2 * rest + bit) / 2 == rest && (2 * rest + bit) % 2 == bit;
      XorBitsTwice(a / 2, b / 2, k - 1);
    }
  }

  lemma XorTwice(a: byte, b: byte)
    ensures Xor(Xor(a, b), b) == a
  {
    assert Pow2(8) == 256 by { assert Pow2(4) == 16; }
    XorBitsTwice(a, b, 8);
  }

  function Pow256(k: nat): nat {
    if k == 0 then 1 else 256 * Pow256(k - 1)
  }

  /** `n` in `k` bytes, most significant first. */
  function BigEndian(n: nat, k: nat): (r: Bytes)
    ensures |r| == k
  {
    if k == 0 then [] else BigEndian(n / 256, k - 1) + [n % 256]
  }

  function Number(b: Bytes): nat {
    if b == [] then 0 else 256 * Number(b[..|b| - 1]) + b[|b| - 1]
  }

  lemma {:induction false} NumberOfBigEndian(n: nat, k: nat)
    requires n < Pow256(k)
    ensures Number(BigEndian(n, k)) == n
  {
    if k > 0 {
      NumberOfBigEndian(n / 256, k - 1);
      assert BigEndian(n, k)[..k - 1] == BigEndian(n / 256, k - 1);
    }
  }

  // ---- Frames ---------------------------------------------------------------------------------

  const MAX_LENGTH := 0x8000_0000_0000_0000

  datatype Frame = Frame(fin: bool, opcode: nat, data: Bytes)

  predicate ValidFrame(f: Frame) {
    f.opcode < 16 && |f.data| < MAX_LENGTH
  }

  function Masked(data: Bytes, mask: Mask): (r: Bytes)
    ensures |r| == |data| && forall i :: 0 <= i < |r| ==> r[i] == Xor(data[i], mask[i % 4])
  {
    seq(|data|, i requires 0 <= i < |data| => Xor(data[i], mask[i % 4]))
  }

  /** The length field after the first byte. */
  function LengthField(n: nat, masked: bool): Bytes
    requires n < MAX_LENGTH
  {
    var bit := if masked then 128 else 0;
    if n < 126 then [bit + n]
    else if n < 65536 then [bit + 126] + BigEndian(n, 2)
    else [bit + 127] + BigEndian(n, 8)
  }

  function FirstByte(f: Frame): byte
    requires f.opcode < 16
  {
    (if f.fin then 128 else 0) + f.opcode
  }

  function Body(data: Bytes, mask: Option<Mask>): Bytes
  {
    if mask.Some? then mask.value + Masked(data, mask.value) else data
  }

  function Encode(f: Frame, mask: Option<Mask>): Bytes
    requires ValidFrame(f)
  {
    [FirstByte(f)] + LengthField(|f.data|, mask.Some?) + Body(f.data, mask)
  }

  /** What the probe puts on the wire for a text payload. */
  method SendText(payload: Bytes, mask: Mask) returns (wire: Bytes)
    requires |payload| < MAX_LENGTH
    ensures wire == Encode(Frame(true, 1, payload), Some(mask))
  {
    var header: Bytes := [0x81];
    var n := |payload|;
    if n < 126 {
      header := header + [128 + n];
    } else if n < 65536 {
      header := header + [128 + 126];
      header := header + BigEndian(n, 2);
    } else {
      header := header + [128 + 127];
      header := header + BigEndian(n, 8);
    }
    assert header == [FirstByte(Frame(true, 1, payload))] + LengthField(n, true);
    header := header + mask;
    var masked: Bytes := [];
    for i := 0 to n
      invariant masked == Masked(payload, mask)[..i]
    {
      masked := masked + [Xor(payload[i], mask[i % 4])];
    }
    wire := header + masked;
  }

  // ---- Decoding -------------------------------------------------------------------------------

  datatype Parsed = Parsed(frame: Frame, rest: Bytes)

  /** The first frame of a byte string, if it is all there. */
  function Parse(b: Bytes): (r: Option<Parsed>)
    ensures r.Some? ==> |r.value.rest| < |b|
  {
    if |b| < 2 then None
    else
      var extra := ExtraLength(b[1] % 128);
      if |b| < 2 + extra then None
      else
        var length := if extra == 0 then b[1] % 128 else Number(b[2..2 + extra]);
        ParseBody(b[0], b[1] >= 128, length, b[2 + extra..])
  }

  function ExtraLength(short: nat): nat {
    if short == 126 then 2 else if short == 127 then 8 else 0
  }

  function ParseBody(b0: byte, masked: bool, length: nat, b: Bytes): (r: Option<Parsed>)
    ensures r.Some? ==> |r.value.rest| <= |b|
  {
    var keyed := if masked then 4 else 0;
    if |b| < keyed + length then None
    else
      var raw := b[keyed..keyed + length];
      var data := if masked then Masked(raw, b[..4]) else raw;
      Some(Parsed(Frame(b0 >= 128, b0 % 16, data), b[keyed + length..]))
  }

  lemma MaskedTwice(data: Bytes, mask: Mask)
    ensures Masked(Masked(data, mask), mask) == data
  {
    var twice := Masked(Masked(data, mask), mask);
    forall i | 0 <= i < |data| ensures twice[i] == data[i] {
      XorTwice(data[i], mask[i % 4]);
    }
  }

  lemma BodyRoundTrip(b0: byte, data: Bytes, mask: Option<Mask>, rest: Bytes)
    ensures ParseBody(b0, mask.Some?, |data|, Body(data, mask) + rest)
         == Some(Parsed(Frame(b0 >= 128, b0 % 16, data), rest))
  {
    var b := Body(data, mask) + rest;
    if mask.Some? {
      MaskedTwice(data, mask.value);
      assert b[..4] == mask.value && b[4..4 + |data|] == Masked(data, mask.value);
      assert b[4 + |data|..] == rest;
    } else {
      assert b[0..|data|] == data && b[|data|..] == rest;
    }
  }

  /** Reading the length field in front of `tail`. */
  ghost predicate ReadsLength(b: Bytes, n: nat, masked: bool, tail: Bytes) {
    && |b| >= 2 && (b[1] >= 128 <==> masked)
    && var extra := ExtraLength(b[1] % 128);
       && |b| >= 2 + extra && b[2 + extra..] == tail
       && (if extra == 0 then b[1] % 128 else Number(b[2..2 + extra])) == n
  }

  lemma ShortLength(n: nat, masked: bool, first: byte, tail: Bytes)
    requires n < 126
    ensures ReadsLength([first, (if masked then 128 else 0) + n] + tail, n, masked, tail)
  {
    assert ([first, (if masked then 128 else 0) + n] + tail)[2..] == tail;
  }

  lemma LongLength(n: nat, masked: bool, first: byte, short: nat, tail: Bytes)
    requires short == 126 || short == 127
    requires n < Pow256(ExtraLength(short))
    ensures ReadsLength([first, (if masked then 128 else 0) + short] + BigEndian(n, ExtraLength(short)) + tail,
                        n, masked, tail)
  {
    var extra := ExtraLength(short);
    var b := [first, (if masked then 128 else 0) + short] + BigEndian(n, extra) + tail;
    NumberOfBigEndian(n, extra);
    assert b[2..2 + extra] == BigEndian(n, extra) && b[2 + extra..] == tail;
  }

  lemma LengthRoundTrip(n: nat, masked: bool, first: byte, tail: Bytes)
    requires n < MAX_LENGTH
    ensures ReadsLength([first] + LengthField(n, masked) + tail, n, masked, tail)
  {
    var bit := if masked then 128 else 0;
    if n < 126 {
      ShortLength(n, masked, first, tail);
      assert [first] + [bit + n] == [first, bit + n];
    } else if n < 65536 {
      assert Pow256(1) == 256 && Pow256(2) == 65536;
      LongLength(n, masked, first, 126, tail);
      assert [first] + ([bit + 126] + BigEndian(n, 2)) == [first, bit + 126] + BigEndian(n, 2);
    } else {
      PowerOfEight();
      LongLength(n, masked, first, 127, tail);
      assert [first] + ([bit + 127] + BigEndian(n, 8)) == [first, bit + 127] + BigEndian(n, 8);
    }
  }

  lemma PowerOfEight()
    ensures Pow256(8) == 0x1_0000_0000_0000_0000
  {
    assert Pow256(2) == 0x1_0000;
    assert Pow256(4) == 0x1_0000_0000;
    assert Pow256(6) == 0x1_0000_0000_0000;
  }

  /** Decoding an encoded frame gives the frame, for every mask, and leaves what follows. */
  lemma FrameRoundTrip(f: Frame, mask: Option<Mask>, rest: Bytes)
    requires ValidFrame(f)
    ensures Parse(Encode(f, mask) + rest) == Some(Parsed(f, rest))
  {
    var body := Body(f.data, mask) + rest;
    var b := [FirstByte(f)] + LengthField(|f.data|, mask.Some?) + body;
    EncodedThen(f, mask, rest);
    LengthRoundTrip(|f.data|, mask.Some?, FirstByte(f), body);
    assert b[0] == FirstByte(f);
    assert Parse(b) == ParseBody(FirstByte(f), mask.Some?, |f.data|, body);
    BodyRoundTrip(FirstByte(f), f.data, mask, rest);
  }

  lemma EncodedThen(f: Frame, mask: Option<Mask>, rest: Bytes)
    requires ValidFrame(f)
    ensures Encode(f, mask) + rest
         == [FirstByte(f)] + LengthField(|f.data|, mask.Some?) + (Body(f.data, mask) + rest)
  {}

  /** All the complete frames at the front of a byte string. */
  function ParseAll(b: Bytes): seq<Frame>
    decreases |b|
  {
    var p := Parse(b);
    if p.None? then [] else [p.value.frame] + ParseAll(p.value.rest)
  }

  function EncodeAll(fs: seq<Frame>, masks: seq<Option<Mask>>): Bytes
    requires |masks| == |fs|
    requires forall k :: 0 <= k < |fs| ==> ValidFrame(fs[k])
  {
    if fs == [] then [] else Encode(fs[0], masks[0]) + EncodeAll(fs[1..], masks[1..])
  }

  lemma {:induction false} FramesRoundTrip(fs: seq<Frame>, masks: seq<Option<Mask>>)
    requires |masks| == |fs|
    requires forall k :: 0 <= k < |fs| ==> ValidFrame(fs[k])
    ensures ParseAll(EncodeAll(fs, masks)) == fs
  {
    if fs != [] {
      FrameRoundTrip(fs[0], masks[0], EncodeAll(fs[1..], masks[1..]));
      FramesRoundTrip(fs[1..], masks[1..]);
    }
  }

  // ---- The connection -------------------------------------------------------------------------

  /** What one receive call meets: data, a timeout to retry, or one of the two ways to give up. */
  datatype Arrival = Chunk(bytes: Bytes) | Quiet | Deadline | Closed

  /** The bytes that arrive before the connection or the deadline ends. */
  function Arriving(feed: seq<Arrival>): Bytes {
    if feed == [] then []
    else
      match feed[0]
      case Chunk(b) => b + Arriving(feed[1..])
      case Quiet => Arriving(feed[1..])
      case _ => []
  }

  class Connection {
    var inbox: Bytes
    var feed: seq<Arrival>

    ghost function Stream(): Bytes
      reads this
    {
      inbox + Arriving(feed)
    }

    constructor (feed: seq<Arrival>)
      ensures Stream() == Arriving(feed)
    {
      this.inbox := [];
      this.feed := feed;
    }

    /** Exactly `n` bytes, however they arrive; the surplus stays in the inbox. */
    method RecvExact(n: nat) returns (r: Option<Bytes>)
      modifies this
      ensures r.Some? <==> n <= |old(Stream())|
      ensures r.Some? ==> r.value == old(Stream())[..n] && Stream() == old(Stream())[n..]
    {
      while |inbox| < n
        invariant Stream() == old(Stream())
        decreases |feed|
      {
        if feed == [] { return None; }
        var next := feed[0];
        if next.Deadline? || next.Closed? { return None; }
        if next.Quiet? {
          feed := feed[1..];
          continue;
        }
        Joined(inbox, next.bytes, Arriving(feed[1..]));
        inbox := inbox + next.bytes;
        feed := feed[1..];
      }
      Cut(inbox, Arriving(feed), n);
      r := Some(inbox[..n]);
      inbox := inbox[n..];
    }

    /** The mask key, if any, and the data. */
    method RecvBody(b0: byte, masked: bool, length: nat) returns (r: Option<Frame>)
      modifies this
      ensures r.Some? <==> ParseBody(b0, masked, length, old(Stream())).Some?
      ensures r.Some? ==> Parsed(r.value, Stream()) == ParseBody(b0, masked, length, old(Stream())).value
    {
      ghost var body := Stream();
      var mask: Mask := [0, 0, 0, 0];
      if masked {
        var key := RecvExact(4);
        if key.None? { return None; }
        mask := key.value;
      }
      ghost var keyed := if masked then 4 else 0;
      assert Stream() == body[keyed..];
      var data: Bytes := [];
      if length > 0 {
        var raw := RecvExact(length);
        if raw.None? { return None; }
        data := raw.value;
      }
      Slices(body, keyed, length);
      if masked { data := Masked(data, mask); }
      r := Some(Frame(b0 >= 128, b0 % 16, data));
    }

    /** One frame, or nothing when the stream ends first. */
    method RecvFrame() returns (r: Option<Frame>)
      modifies this
      ensures r.Some? <==> Parse(old(Stream())).Some?
      ensures r.Some? ==> Parsed(r.value, Stream()) == Parse(old(Stream())).value
    {
      ghost var b := Stream();
      var head := RecvExact(2);
      if head.None? { return None; }
      var b0, b1 := head.value[0], head.value[1];
      var length: nat := b1 % 128;
      var extra := ExtraLength(length);
      if extra > 0 {
        var field := RecvExact(extra);
        if field.None? { return None; }
        length := Number(field.value);
        Slices(b, 2, extra);
      }
      assert Stream() == b[2 + extra..];
      r := RecvBody(b0, b1 >= 128, length);
    }

    /** The probe's loop over frames, up to a close frame, the end of the stream or the deadline. `late(n)`
        says whether the deadline has passed when frame `n` is about to be read; complete frames may then
        be left in the inbox. `events` are the payloads handed on as text messages. */
    method ReadEvents(late: nat -> bool) returns (events: seq<Bytes>)
      modifies this
      ensures events == Events(InTime(ParseAll(old(Stream())), late, 0), [])
    {
      events := [];
      var frag: Bytes := [];
      var n := 0;
      while true
        invariant events + Events(InTime(ParseAll(Stream()), late, n), frag)
               == Events(InTime(ParseAll(old(Stream())), late, 0), [])
        decreases |Stream()|
      {
        if late(n) { return; }
        n := n + 1;
        ghost var before := Stream();
        var got := RecvFrame();
        if got.None? { return; }
        var f := got.value;
        ghost var rest := InTime(ParseAll(Stream()), late, n);
        assert ParseAll(before)[1..] == ParseAll(Stream());
        assert InTime(ParseAll(before), late, n - 1) == [f] + rest;
        EventsStep(f, rest, frag);
        if f.opcode == 0x8 { return; }
        if f.opcode == 0x9 { continue; }
        if f.opcode == 0xA { continue; }
        var data := f.data;
        if f.opcode == 0x0 {
          frag := frag + data;
          if !f.fin { continue; }
          data := frag;
          frag := [];
        } else if f.opcode == 0x1 && !f.fin {
          frag := frag + data;
          continue;
        } else if f.opcode != 0x1 {
          continue;
        }
        Joined(events, [data], Events(rest, frag));
        events := events + [data];
      }
    }
  }

  /** Cutting twice is cutting once, further on. */
  lemma Slices(b: Bytes, i: nat, n: nat)
    requires i + n <= |b|
    ensures b[i..][..n] == b[i..i + n] && b[i..][n..] == b[i + n..]
  {}

  lemma Joined<T>(a: seq<T>, b: seq<T>, c: seq<T>)
    ensures (a + b) + c == a + (b + c)
  {}

  lemma Cut(a: Bytes, b: Bytes, n: nat)
    requires n <= |a|
    ensures (a + b)[..n] == a[..n] && (a + b)[n..] == a[n..] + b
  {}

  /** The frames read before the deadline, counting from frame `n`. */
  function InTime(fs: seq<Frame>, late: nat -> bool, n: nat): seq<Frame> {
    if fs == [] || late(n) then [] else [fs[0]] + InTime(fs[1..], late, n + 1)
  }

  /** Without a deadline all of them. */
  lemma {:induction false} AllInTime(fs: seq<Frame>, late: nat -> bool, n: nat)
    requires forall k :: n <= k ==> !late(k)
    ensures InTime(fs, late, n) == fs
  {
    if fs != [] { AllInTime(fs[1..], late, n + 1); }
  }

  /** With one, the first so many. */
  lemma {:induction false} InTimePrefix(fs: seq<Frame>, late: nat -> bool, n: nat)
    ensures InTime(fs, late, n) <= fs
    ensures |InTime(fs, late, n)| < |fs| ==> late(n + |InTime(fs, late, n)|)
    ensures forall m :: n <= m < n + |InTime(fs, late, n)| ==> !late(m)
  {
    if fs != [] && !late(n) { InTimePrefix(fs[1..], late, n + 1); }
  }

  // ---- Reassembly -----------------------------------------------------------------------------

  predicate IsControl(f: Frame) { f.opcode == 0x9 || f.opcode == 0xA }

  /** The payloads handed on, given the fragments collected so far. */
  function Events(fs: seq<Frame>, frag: Bytes): seq<Bytes> {
    if fs == [] || fs[0].opcode == 0x8 then []
    else
      var f, rest := fs[0], fs[1..];
      if f.opcode == 0x0 then
        if f.fin then [frag + f.data] + Events(rest, []) else Events(rest, frag + f.data)
      else if f.opcode == 0x1 then
        if f.fin then [f.data] + Events(rest, frag) else Events(rest, frag + f.data)
      else Events(rest, frag)
  }

  lemma EventsStep(f: Frame, rest: seq<Frame>, frag: Bytes)
    ensures Events([f] + rest, frag)
         == if f.opcode == 0x8 then []
            else if f.opcode == 0x0 then
              (if f.fin then [frag + f.data] + Events(rest, []) else Events(rest, frag + f.data))
            else if f.opcode == 0x1 then
              (if f.fin then [f.data] + Events(rest, frag) else Events(rest, frag + f.data))
            else Events(rest, frag)
  {
    assert ([f] + rest)[1..] == rest;
  }

  /** The frames other than pings and pongs. */
  function Data(fs: seq<Frame>): seq<Frame> {
    if fs == [] then [] else (if IsControl(fs[0]) then [] else [fs[0]]) + Data(fs[1..])
  }

  /** Pings and pongs between the fragments do not matter. */
  lemma {:induction false} ControlIgnored(fs: seq<Frame>, frag: Bytes)
    ensures Events(fs, frag) == Events(Data(fs), frag)
    decreases |fs|
  {
    if fs != [] {
      var f, rest := fs[0], fs[1..];
      assert fs == [f] + rest;
      EventsStep(f, rest, frag);
      if IsControl(f) {
        assert Data(fs) == Data(rest);
      } else {
        EventsStep(f, Data(rest), frag);
      }
      ControlIgnored(rest, frag);
      ControlIgnored(rest, frag + f.data);
      ControlIgnored(rest, []);
    }
  }

  /** A data message as it was sent, in one or more parts. */
  datatype Message = Message(text: bool, first: Bytes, others: seq<Bytes>)

  function Continuations(parts: seq<Bytes>): seq<Frame> {
    if parts == [] then [] else [Frame(|parts| == 1, 0x0, parts[0])] + Continuations(parts[1..])
  }

  /** Section 5.4: the first frame names the type, the others continue it, the last one is final. */
  function FramesOf(m: Message): seq<Frame> {
    [Frame(m.others == [], if m.text then 0x1 else 0x2, m.first)] + Continuations(m.others)
  }

  function FramesOfAll(ms: seq<Message>): seq<Frame> {
    if ms == [] then [] else FramesOf(ms[0]) + FramesOfAll(ms[1..])
  }

  function Join(parts: seq<Bytes>): Bytes {
    if parts == [] then [] else parts[0] + Join(parts[1..])
  }

  /** What the probe hands on for a message: a text whole; of a binary message nothing, unless it is
      fragmented, and then what follows its first fragment. */
  function Handed(m: Message): seq<Bytes> {
    if m.text then [m.first + Join(m.others)]
    else if m.others == [] then []
    else [Join(m.others)]
  }

  function HandedAll(ms: seq<Message>): seq<Bytes> {
    if ms == [] then [] else Handed(ms[0]) + HandedAll(ms[1..])
  }

  lemma {:induction false} ContinuationsJoin(parts: seq<Bytes>, rest: seq<Frame>, frag: Bytes)
    requires parts != []
    ensures Events(Continuations(parts) + rest, frag) == [frag + Join(parts)] + Events(rest, [])
    decreases |parts|
  {
    var f := Frame(|parts| == 1, 0x0, parts[0]);
    var more := parts[1..];
    assert Continuations(parts) + rest == [f] + (Continuations(more) + rest);
    EventsStep(f, Continuations(more) + rest, frag);
    Joined(frag, parts[0], Join(more));
    if more == [] {
      assert Continuations(more) + rest == rest;
      assert parts[0] + Join(more) == parts[0];
    } else {
      ContinuationsJoin(more, rest, frag + parts[0]);
    }
  }

  lemma MessageHanded(m: Message, rest: seq<Frame>)
    ensures Events(FramesOf(m) + rest, []) == Handed(m) + Events(rest, [])
  {
    var f := Frame(m.others == [], if m.text then 0x1 else 0x2, m.first);
    assert FramesOf(m) + rest == [f] + (Continuations(m.others) + rest);
    EventsStep(f, Continuations(m.others) + rest, []);
    assert [] + m.first == m.first;
    if m.others == [] {
      assert Continuations(m.others) + rest == rest;
      assert m.first + Join(m.others) == m.first;
      assert Handed(m) == (if m.text then [m.first] else []);
      assert [] + Events(rest, []) == Events(rest, []);
    } else {
      ContinuationsJoin(m.others, rest, if m.text then m.first else []);
      assert [] + Join(m.others) == Join(m.others);
    }
  }

  lemma {:induction false} MessagesHanded(ms: seq<Message>)
    ensures Events(FramesOfAll(ms), []) == HandedAll(ms)
  {
    if ms != [] {
      MessageHanded(ms[0], FramesOfAll(ms[1..]));
      MessagesHanded(ms[1..]);
    }
  }

  /** Reassembly of a conforming stream, with any pings and pongs in between. */
  lemma Reassembly(fs: seq<Frame>, ms: seq<Message>)
    requires Data(fs) == FramesOfAll(ms)
    ensures Events(fs, []) == HandedAll(ms)
  {
    ControlIgnored(fs, []);
    MessagesHanded(ms);
  }

  function Texts(ms: seq<Message>): seq<Bytes> {
    if ms == [] then []
    else (if ms[0].text then [ms[0].first + Join(ms[0].others)] else []) + Texts(ms[1..])
  }

  predicate NoFragmentedBinary(ms: seq<Message>) {
    forall k :: 0 <= k < |ms| ==> ms[k].text || ms[k].others == []
  }

  lemma {:induction false} HandedCount(ms: seq<Message>)
    ensures |HandedAll(ms)| >= |Texts(ms)|
    ensures |HandedAll(ms)| == |Texts(ms)| ==> NoFragmentedBinary(ms)
    ensures NoFragmentedBinary(ms) ==> HandedAll(ms) == Texts(ms)
  {
    if ms != [] {
      HandedCount(ms[1..]);
      assert NoFragmentedBinary(ms) <==> (ms[0].text || ms[0].others == []) && NoFragmentedBinary(ms[1..]) by {
        assert forall k :: 1 <= k < |ms| ==> ms[k] == ms[1..][k - 1];
      }
    }
  }

  /** The probe sees exactly the text messages if and only if no binary message was fragmented. */
  lemma TextsExactlyIff(fs: seq<Frame>, ms: seq<Message>)
    requires Data(fs) == FramesOfAll(ms)
    ensures Events(fs, []) == Texts(ms) <==> NoFragmentedBinary(ms)
  {
    Reassembly(fs, ms);
    HandedCount(ms);
  }

  /** From messages to wire bytes, in any chunks, and back: what the probe hands on from such a stream when
      the deadline does not cut it short. */
  lemma EndToEnd(
    ms: seq<Message>, fs: seq<Frame>, masks: seq<Option<Mask>>, feed: seq<Arrival>, late: nat -> bool)
    requires |masks| == |fs| && Data(fs) == FramesOfAll(ms) && NoFragmentedBinary(ms)
    requires forall k :: 0 <= k < |fs| ==> ValidFrame(fs[k])
    requires Arriving(feed) == EncodeAll(fs, masks)
    requires forall k: nat :: !late(k)
    ensures Events(InTime(ParseAll(Arriving(feed)), late, 0), []) == Texts(ms)
  {
    FramesRoundTrip(fs, masks);
    AllInTime(fs, late, 0);
    TextsExactlyIff(fs, ms);
  }
}
