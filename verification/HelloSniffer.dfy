/** An incremental reader of one WebSocket client stream: an HTTP header, then frames (section 5.2 of
    RFC 6455) until the first text message that says hello. */
module HelloSniffer {
  import opened Wrappers
  import opened Division

  type Byte = x: int | 0 <= x < 256

  const HEADER_LIMIT := 65536
  const FRAME_LIMIT := 1_000_000
  const TERMINATOR: seq<Byte> := [13, 10, 13, 10]

  /** The bytes of "upgrade: websocket". */
  const UPGRADE: seq<Byte> := [117, 112, 103, 114, 97, 100, 101, 58, 32, 119, 101, 98, 115, 111, 99, 107, 101, 116]

  /** What the JSON library makes of a payload. */
  datatype Message = Malformed | Other | Hello(hello: Hello)
  datatype Hello = HelloFrom(isInternal: bool, resumes: bool)

  datatype State = State(buffer: seq<Byte>, upgrade: Option<bool>, done: bool)

  const INITIAL := State([], None, false)

  datatype Fed = Refused | Fed(state: State, hellos: seq<Hello>)

  // ----- the HTTP header

  predicate TerminatorAt(s: seq<Byte>, i: nat) {
    i + 4 <= |s| && s[i..i + 4] == TERMINATOR
  }

  /** The first place at or after `from` where the blank line starts. */
  function Find(s: seq<Byte>, from: nat): (at: Option<nat>)
    ensures at.Some? ==> from <= at.value && TerminatorAt(s, at.value)
    ensures forall i :: from <= i < (if at.Some? then at.value else |s|) ==> !TerminatorAt(s, i)
    decreases |s| - from
  {
    if from + 4 > |s| then None
    else if TerminatorAt(s, from) then Some(from)
    else Find(s, from + 1)
  }

  function Lower(s: seq<Byte>): seq<Byte> {
    seq(|s|, i requires 0 <= i < |s| => if 65 <= s[i] <= 90 then s[i] + 32 else s[i])
  }

  predicate OccursAt(s: seq<Byte>, part: seq<Byte>, i: nat) {
    i + |part| <= |s| && s[i..i + |part|] == part
  }

  predicate Contains(s: seq<Byte>, part: seq<Byte>) {
    exists i :: 0 <= i <= |s| && OccursAt(s, part, i)
  }

  predicate IsUpgrade(header: seq<Byte>) {
    Contains(Lower(header), UPGRADE)
  }

  // ----- one frame

  function Xor(a: nat, b: nat): nat {
    if a == 0 && b == 0 then 0 else (a % 2 + b % 2) % 2 + 2 * Xor(a / 2, b / 2)
  }

  lemma {:induction false} XorBelow(a: nat, b: nat, bound: nat)
    requires a < bound && b < bound && Doubles(bound)
    ensures Xor(a, b) < bound
  {
    if a != 0 || b != 0 {
      XorBelow(a / 2, b / 2, bound / 2);
    }
  }

  predicate Doubles(n: nat) {
    n == 1 || (n > 1 && n % 2 == 0 && Doubles(n / 2))
  }

  function XorByte(a: Byte, b: Byte): Byte {
    XorBelow(a, b, 256);
    Xor(a, b)
  }

  lemma BitOnTop(low: nat, high: nat)
    requires low < 2
    ensures (low + 2 * high) % 2 == low && (low + 2 * high) / 2 == high
  {
  }

  lemma XorParts(a: nat, b: nat)
    ensures Xor(a, b) % 2 == (a % 2 + b % 2) % 2 && Xor(a, b) / 2 == Xor(a / 2, b / 2)
  {
    if a != 0 || b != 0 {
      BitOnTop((a % 2 + b % 2) % 2, Xor(a / 2, b / 2));
    }
  }

  lemma {:induction false} XorTwice(a: nat, b: nat)
    ensures Xor(Xor(a, b), b) == a
  {
    if a != 0 || b != 0 {
      hide Xor;
      var x := Xor(a, b);
      XorParts(a, b);
      XorParts(x, b);
      XorTwice(a / 2, b / 2);
      ParityTwice(a % 2, b % 2);
      assert Xor(x, b) / 2 == a / 2 && Xor(x, b) % 2 == a % 2;
    }
  }

  lemma ParityTwice(a: nat, b: nat)
    requires a < 2 && b < 2
    ensures ((a + b) % 2 + b) % 2 == a
  {
  }

  /** Masks or unmasks a payload (section 5.3 of RFC 6455). */
  function Masked(payload: seq<Byte>, mask: seq<Byte>): (masked: seq<Byte>)
    requires |mask| == 4
    ensures |masked| == |payload|
  {
    seq(|payload|, i requires 0 <= i < |payload| => XorByte(payload[i], mask[i % 4]))
  }

  // ----- bits

  function Pow2(n: nat): nat {
    if n == 0 then 1 else 2 * Pow2(n - 1)
  }

  /** Bit n of a number, counting from the low end. */
  function Bit(x: nat, n: nat): nat {
    Pow2Positive(n);
    x / Pow2(n) % 2
  }

  lemma {:induction false} Pow2Positive(n: nat)
    ensures Pow2(n) > 0
  {
    if n > 0 {
      Pow2Positive(n - 1);
    }
  }

  lemma DivideTwice(x: nat, n: nat)
    requires n > 0
    ensures x / 2 / n == x / (2 * n)
  {
    var q, r := x / 2 / n, x / 2 % n;
    assert x / 2 == n * q + r && (2 * n) * q == 2 * (n * q);
    QuotientUnique(x, 2 * n, 2 * r + x % 2, q);
  }

  lemma BitHalf(x: nat, n: nat)
    requires n > 0
    ensures Bit(x, n) == Bit(x / 2, n - 1)
  {
    Pow2Positive(n - 1);
    DivideTwice(x, Pow2(n - 1));
  }

  lemma BitZero(x: nat)
    ensures Bit(x, 0) == x % 2
  {
  }

  /** Each bit of an exclusive or is one exactly when one of the two is. */
  lemma {:induction false} XorBits(a: nat, b: nat, n: nat)
    ensures Bit(Xor(a, b), n) == if Bit(a, n) != Bit(b, n) then 1 else 0
  {
    hide Bit, Xor;
    XorParts(a, b);
    if n == 0 {
      BitZero(a);
      BitZero(b);
      BitZero(Xor(a, b));
    } else {
      XorBits(a / 2, b / 2, n - 1);
      BitHalf(a, n);
      BitHalf(b, n);
      BitHalf(Xor(a, b), n);
    }
  }

  /** The bytes of `masked` are those of `payload`, each bit of byte i turned over where the mask's byte
      i modulo 4 has a one (section 5.3 of RFC 6455). */
  ghost predicate IsMasked(payload: seq<Byte>, mask: seq<Byte>, masked: seq<Byte>) {
    && |mask| == 4 && |masked| == |payload|
    && forall i, n: nat :: 0 <= i < |payload| ==> MasksBit(payload[i], mask[i % 4], masked[i], n)
  }

  predicate MasksBit(byte: Byte, key: Byte, masked: Byte, n: nat) {
    Bit(masked, n) == if Bit(byte, n) != Bit(key, n) then 1 else 0
  }

  lemma MaskedMasks(payload: seq<Byte>, mask: seq<Byte>)
    requires |mask| == 4
    ensures IsMasked(payload, mask, Masked(payload, mask))
  {
    forall i, n: nat | 0 <= i < |payload| ensures MasksBit(payload[i], mask[i % 4], Masked(payload, mask)[i], n) {
      XorBits(payload[i], mask[i % 4], n);
    }
  }

  /** Numbers with the same bits are the same. */
  lemma {:induction false} SameBits(a: nat, b: nat)
    requires forall n: nat :: Bit(a, n) == Bit(b, n)
    ensures a == b
  {
    if a != 0 || b != 0 {
      forall n: nat ensures Bit(a / 2, n) == Bit(b / 2, n) {
        BitHalf(a, n + 1);
        BitHalf(b, n + 1);
      }
      SameBits(a / 2, b / 2);
      assert Bit(a, 0) == a % 2 && Bit(b, 0) == b % 2;
    }
  }

  /** There is one way to mask a payload. */
  lemma MaskedIsOnly(payload: seq<Byte>, mask: seq<Byte>, masked: seq<Byte>)
    requires IsMasked(payload, mask, masked)
    ensures masked == Masked(payload, mask)
  {
    MaskedMasks(payload, mask);
    var other := Masked(payload, mask);
    forall i | 0 <= i < |payload| ensures masked[i] == other[i] {
      forall n: nat ensures Bit(masked[i], n) == Bit(other[i], n) {
        assert MasksBit(payload[i], mask[i % 4], masked[i], n) && MasksBit(payload[i], mask[i % 4], other[i], n);
      }
      SameBits(masked[i], other[i]);
    }
  }

  function BigEndian(s: seq<Byte>): nat {
    if s == [] then 0 else BigEndian(s[..|s| - 1]) * 256 + s[|s| - 1]
  }

  datatype Scan = Short | Oversized | Complete(opcode: nat, payload: seq<Byte>, length: nat)

  function LengthWidth(size: nat): nat {
    if size == 126 then 2 else if size == 127 then 8 else 0
  }

  /** The frame at the start of the buffer, if it is all there. */
  function ScanFrame(b: seq<Byte>): (scan: Scan)
    ensures scan.Complete? ==> 2 <= scan.length <= |b|
  {
    if |b| < 2 then Short
    else
      var width := LengthWidth(b[1] % 128);
      if |b| < 2 + width then Short
      else
        var size := if width == 0 then b[1] % 128 else BigEndian(b[2..2 + width]);
        if size > FRAME_LIMIT then Oversized
        else
          var header := 2 + width + if b[1] >= 128 then 4 else 0;
          if |b| < header + size then Short
          else
            var raw := b[header..header + size];
            Complete(b[0] % 16, if b[1] >= 128 then Masked(raw, b[2 + width..header]) else raw, header + size)
  }

  // ----- the stream after the header

  lemma ShortBuffer(b: seq<Byte>)
    requires |b| < 2
    ensures ScanFrame(b) == Short
  {
  }

  datatype Drained = Stuck | Drained(hellos: seq<Hello>, rest: seq<Byte>, done: bool)

  /** All complete frames up to the first hello. */
  function Drain(decode: seq<Byte> -> Message, b: seq<Byte>): Drained
    decreases |b|
  {
    match ScanFrame(b)
    case Short => Drained([], b, false)
    case Oversized => Stuck
    case Complete(opcode, payload, length) =>
      if opcode != 1 then Drain(decode, b[length..])
      else
        match decode(payload)
        case Malformed => Stuck
        case Other => Drain(decode, b[length..])
        case Hello(h) => Drained([h], [], true)
  }

  function AfterHeader(decode: seq<Byte> -> Message, upgrade: bool, buffer: seq<Byte>): Fed {
    if !upgrade then Fed(State([], Some(false), false), [])
    else
      match Drain(decode, buffer)
      case Stuck => Refused
      case Drained(hellos, rest, done) => Fed(State(rest, Some(true), done), hellos)
  }

  /** The bytes left where draining gets stuck: an oversized frame stays, a text that does not decode goes. */
  function StuckAt(decode: seq<Byte> -> Message, b: seq<Byte>): seq<Byte>
    requires Drain(decode, b) == Stuck
    decreases |b|
  {
    match ScanFrame(b)
    case Oversized => b
    case Complete(opcode, payload, length) =>
      if opcode == 1 && decode(payload).Malformed? then b[length..] else StuckAt(decode, b[length..])
  }

  /** What one call does. */
  function FeedOnce(decode: seq<Byte> -> Message, s: State, data: seq<Byte>): Fed {
    if s.done then Fed(s, [])
    else
      var buffer := s.buffer + data;
      if s.upgrade.Some? then AfterHeader(decode, s.upgrade.value, buffer)
      else
        var end := Find(buffer, 0);
        if end.Some? then AfterHeader(decode, IsUpgrade(buffer[..end.value]), buffer[end.value + 4..])
        else if |buffer| > HEADER_LIMIT then Refused
        else Fed(State(buffer, None, false), [])
  }

  /** What a refused call leaves behind. */
  function AfterRefusal(decode: seq<Byte> -> Message, s: State, data: seq<Byte>): State
    requires FeedOnce(decode, s, data).Refused?
  {
    var buffer := s.buffer + data;
    var end := Find(buffer, 0);
    if s.upgrade.Some? then State(StuckAt(decode, buffer), s.upgrade, false)
    else if end.None? then State(buffer, None, false)
    else State(StuckAt(decode, buffer[end.value + 4..]), Some(true), false)
  }

  function Then(decode: seq<Byte> -> Message, first: Fed, data: seq<Byte>): Fed {
    if first.Refused? then Refused
    else
      match FeedOnce(decode, first.state, data)
      case Refused => Refused
      case Fed(s, hellos) => Fed(s, first.hellos + hellos)
  }

  /** What a series of calls does; a refused call ends it. */
  function FeedAll(decode: seq<Byte> -> Message, chunks: seq<seq<Byte>>): Fed {
    if chunks == [] then Fed(INITIAL, [])
    else Then(decode, FeedAll(decode, chunks[..|chunks| - 1]), chunks[|chunks| - 1])
  }

  function Joined(chunks: seq<seq<Byte>>): seq<Byte> {
    if chunks == [] then [] else Joined(chunks[..|chunks| - 1]) + chunks[|chunks| - 1]
  }

  /** The sniffer itself. */
  class Sniffer {
    var buffer: seq<Byte>
    var upgrade: Option<bool>
    var done: bool

    ghost function Value(): State
      reads this
    {
      State(buffer, upgrade, done)
    }

    constructor ()
      ensures Value() == INITIAL
    {
      buffer, upgrade, done := [], None, false;
    }

    /** None is the refusal of an oversized or undecodable stream. */
    method Feed(decode: seq<Byte> -> Message, data: seq<Byte>) returns (hellos: Option<seq<Hello>>)
      modifies this
      ensures var spec := FeedOnce(decode, old(Value()), data);
        if hellos.None? then spec == Refused && Value() == AfterRefusal(decode, old(Value()), data)
        else spec == Fed(Value(), hellos.value)
    {
      hide IsUpgrade, ScanFrame, Find;
      if done {
        return Some([]);
      }
      buffer := buffer + data;
      if upgrade.None? {
        var end := Find(buffer, 0);
        if end.None? {
          if |buffer| > HEADER_LIMIT {
            return None;
          }
          return Some([]);
        }
        upgrade := Some(IsUpgrade(buffer[..end.value]));
        buffer := buffer[end.value + 4..];
      }
      if !upgrade.value {
        buffer := [];
        return Some([]);
      }
      ghost var stream := buffer;
      while |buffer| >= 2
        invariant !done && upgrade == Some(true)
        invariant Drain(decode, stream) == Drain(decode, buffer)
        invariant Drain(decode, stream) == Stuck ==> StuckAt(decode, stream) == StuckAt(decode, buffer)
        decreases |buffer|
      {
        var scan := TakeFrame();
        match scan {
          case Short => break;
          case Oversized => return None;
          case Complete(opcode, payload, _) =>
            if opcode == 1 {
              match decode(payload) {
                case Malformed => return None;
                case Other =>
                case Hello(h) =>
                  done := true;
                  buffer := [];
                  return Some([h]);
              }
            }
        }
      }
      if |buffer| < 2 {
        ShortBuffer(buffer);
      }
      return Some([]);
    }

    /** Takes the frame at the start of the buffer off it, if it is all there. */
    method TakeFrame() returns (scan: Scan)
      requires |buffer| >= 2
      modifies this`buffer
      ensures scan == ScanFrame(old(buffer))
      ensures buffer == if scan.Complete? then old(buffer)[scan.length..] else old(buffer)
    {
      hide Masked, BigEndian;
      var opcode, rawSize := buffer[0] % 16, buffer[1];
      var size, offset := rawSize % 128, 2;
      if size == 126 || size == 127 {
        var width := if size == 126 then 2 else 8;
        if |buffer| < offset + width {
          return Short;
        }
        size := BigEndian(buffer[offset..offset + width]);
        offset := offset + width;
      }
      if size > FRAME_LIMIT {
        return Oversized;
      }
      var masked := rawSize >= 128;
      var header := offset + if masked then 4 else 0;
      if |buffer| < header + size {
        return Short;
      }
      var payload := buffer[header..header + size];
      if masked {
        payload := Masked(payload, buffer[offset..header]);
      }
      buffer := buffer[header + size..];
      return Complete(opcode, payload, header + size);
    }
  }

  // ----- cutting the stream anywhere

  /** A frame or an oversized length is the same with more bytes behind it. */
  lemma ScanExtends(b: seq<Byte>, more: seq<Byte>)
    requires !ScanFrame(b).Short?
    ensures ScanFrame(b + more) == ScanFrame(b)
  {
    hide BigEndian, Masked;
    var c := b + more;
    assert c[0] == b[0] && c[1] == b[1];
    var width := LengthWidth(b[1] % 128);
    assert c[2..2 + width] == b[2..2 + width];
    if ScanFrame(b).Complete? {
      var header := 2 + width + if b[1] >= 128 then 4 else 0;
      assert c[2 + width..header] == b[2 + width..header];
      assert c[header..ScanFrame(b).length] == b[header..ScanFrame(b).length];
    }
  }

  lemma {:induction false} DrainSplits(decode: seq<Byte> -> Message, b: seq<Byte>, more: seq<Byte>)
    ensures var first := Drain(decode, b);
      if first.Stuck? || first.done then Drain(decode, b + more) == first
      else first.hellos == [] && Drain(decode, b + more) == Drain(decode, first.rest + more)
    decreases |b|
  {
    hide ScanFrame;
    var scan := ScanFrame(b);
    if !scan.Short? {
      ScanExtends(b, more);
      if scan.Complete? {
        assert (b + more)[scan.length..] == b[scan.length..] + more;
        DrainSplits(decode, b[scan.length..], more);
      }
    }
  }

  lemma FindExtends(s: seq<Byte>, more: seq<Byte>)
    ensures Find(s, 0).Some? ==> Find(s + more, 0) == Find(s, 0)
    ensures Find(s, 0).None? && Find(s + more, 0).Some? ==> Find(s + more, 0).value + 4 > |s|
  {
    forall i: nat | i + 4 <= |s| ensures TerminatorAt(s + more, i) <==> TerminatorAt(s, i) {
      assert (s + more)[i..i + 4] == s[i..i + 4];
    }
  }

  lemma AfterHeaderSplits(decode: seq<Byte> -> Message, upgrade: bool, b: seq<Byte>, more: seq<Byte>)
    ensures AfterHeader(decode, upgrade, b + more) == Then(decode, AfterHeader(decode, upgrade, b), more)
  {
    hide Drain;
    DrainSplits(decode, b, more);
  }

  /** A call that is not refused can be made in two parts. */
  lemma FeedSplits(decode: seq<Byte> -> Message, s: State, data: seq<Byte>, more: seq<Byte>)
    requires !FeedOnce(decode, s, data).Refused?
    ensures FeedOnce(decode, s, data + more) == Then(decode, FeedOnce(decode, s, data), more)
  {
    hide IsUpgrade, AfterHeader, Find;
    if !s.done {
      var b := s.buffer + data;
      assert s.buffer + (data + more) == b + more;
      if s.upgrade.Some? {
        AfterHeaderSplits(decode, s.upgrade.value, b, more);
      } else {
        FindExtends(b, more);
        var end := Find(b, 0);
        if end.Some? {
          assert (b + more)[..end.value] == b[..end.value];
          assert (b + more)[end.value + 4..] == b[end.value + 4..] + more;
          AfterHeaderSplits(decode, IsUpgrade(b[..end.value]), b[end.value + 4..], more);
        }
      }
    }
  }

  /** The blank line, if there is one, ends where no shorter prefix is over the limit. */
  predicate HeaderFits(stream: seq<Byte>) {
    var end := Find(stream, 0);
    end.Some? ==> end.value + 3 <= 65536
  }

  lemma RefusalStays(decode: seq<Byte> -> Message, data: seq<Byte>, more: seq<Byte>)
    requires FeedOnce(decode, INITIAL, data).Refused? && HeaderFits(data + more)
    ensures FeedOnce(decode, INITIAL, data + more).Refused?
  {
    hide AfterHeader, IsUpgrade, Find;
    assert INITIAL.buffer + data == data && INITIAL.buffer + (data + more) == data + more;
    FindExtends(data, more);
    var end := Find(data, 0);
    if end.Some? {
      assert (data + more)[..end.value] == data[..end.value];
      assert (data + more)[end.value + 4..] == data[end.value + 4..] + more;
      AfterHeaderSplits(decode, IsUpgrade(data[..end.value]), data[end.value + 4..], more);
    }
  }

  /** A series of calls that is not refused does what one call with all the bytes does. */
  lemma {:induction false} ChunksJoin(decode: seq<Byte> -> Message, chunks: seq<seq<Byte>>)
    ensures FeedAll(decode, chunks) == Refused || FeedAll(decode, chunks) == FeedOnce(decode, INITIAL, Joined(chunks))
  {
    if chunks == [] {
      assert FeedOnce(decode, INITIAL, []) == Fed(INITIAL, []) by { assert INITIAL.buffer + [] == []; }
    } else {
      var before, last := chunks[..|chunks| - 1], chunks[|chunks| - 1];
      ChunksJoin(decode, before);
      if !FeedAll(decode, before).Refused? {
        FeedSplits(decode, INITIAL, Joined(before), last);
      }
    }
  }

  lemma HeaderFitsPrefix(data: seq<Byte>, more: seq<Byte>)
    requires HeaderFits(data + more)
    ensures HeaderFits(data)
  {
    FindExtends(data, more);
  }

  lemma {:induction false} RefusedTogether(decode: seq<Byte> -> Message, chunks: seq<seq<Byte>>)
    requires HeaderFits(Joined(chunks)) && FeedAll(decode, chunks).Refused?
    ensures FeedOnce(decode, INITIAL, Joined(chunks)).Refused?
  {
    if chunks != [] {
      var before, last := chunks[..|chunks| - 1], chunks[|chunks| - 1];
      HeaderFitsPrefix(Joined(before), last);
      if FeedAll(decode, before).Refused? {
        RefusedTogether(decode, before);
        RefusalStays(decode, Joined(before), last);
      } else {
        ChunksJoin(decode, before);
        FeedSplits(decode, INITIAL, Joined(before), last);
      }
    }
  }

  /** After the header of an upgrade comes a frame that is oversized or a text that does not decode, before
      any hello. */
  predicate StuckAfterHeader(decode: seq<Byte> -> Message, stream: seq<Byte>) {
    var end := Find(stream, 0);
    end.Some? && IsUpgrade(stream[..end.value]) && Drain(decode, stream[end.value + 4..]) == Stuck
  }

  ghost predicate ChunkingIrrelevant(decode: seq<Byte> -> Message, stream: seq<Byte>) {
    forall chunks :: Joined(chunks) == stream ==> FeedAll(decode, chunks) == FeedOnce(decode, INITIAL, stream)
  }

  lemma RefusedLate(decode: seq<Byte> -> Message, stream: seq<Byte>)
    ensures !HeaderFits(stream) ==> (FeedOnce(decode, INITIAL, stream).Refused? <==> StuckAfterHeader(decode, stream))
  {
    hide IsUpgrade, Find, Drain;
    assert INITIAL.buffer + stream == stream;
  }

  /** However a stream is cut, the calls together find the same hellos and end in the same state, or
      are refused alike, exactly when its header ends within the limit, or it is an upgrade and a frame
      after it is refused in any case. */
  lemma ChunkingIrrelevantIff(decode: seq<Byte> -> Message, stream: seq<Byte>)
    ensures ChunkingIrrelevant(decode, stream) <==> HeaderFits(stream) || StuckAfterHeader(decode, stream)
  {
    RefusedLate(decode, stream);
    hide StuckAfterHeader;
    if HeaderFits(stream) || FeedOnce(decode, INITIAL, stream).Refused? {
      forall chunks | Joined(chunks) == stream ensures FeedAll(decode, chunks) == FeedOnce(decode, INITIAL, stream) {
        ChunksJoin(decode, chunks);
        if HeaderFits(stream) && FeedAll(decode, chunks).Refused? {
          RefusedTogether(decode, chunks);
        }
      }
    } else {
      LateCut(decode, stream);
    }
  }

  lemma TwoChunks(decode: seq<Byte> -> Message, head: seq<Byte>, tail: seq<Byte>)
    requires FeedOnce(decode, INITIAL, head).Refused?
    ensures Joined([head, tail]) == head + tail && FeedAll(decode, [head, tail]).Refused?
  {
    var chunks: seq<seq<Byte>> := [head, tail];
    var first := chunks[..1];
    assert first == [head] && first[..0] == [];
    assert Joined(first[..0]) + head == head;
    assert FeedAll(decode, first) == Then(decode, FeedAll(decode, first[..0]), head);
  }

  /** One byte short of the blank line's end, a header that long is already refused. */
  lemma LateCut(decode: seq<Byte> -> Message, stream: seq<Byte>)
    requires !HeaderFits(stream) && !FeedOnce(decode, INITIAL, stream).Refused?
    ensures !ChunkingIrrelevant(decode, stream)
  {
    hide IsUpgrade, AfterHeader, Find;
    var cut := Find(stream, 0).value + 3;
    var head, tail := stream[..cut], stream[cut..];
    assert head + tail == stream;
    FindExtends(head, tail);
    assert INITIAL.buffer + head == head;
    TwoChunks(decode, head, tail);
  }

  /** A header of 65538 bytes: one call with all of it is not refused, a cutting of it is. */
  lemma LateHeader(decode: seq<Byte> -> Message)
    ensures var stream := seq(65534, _ => 0) + TERMINATOR;
      !FeedOnce(decode, INITIAL, stream).Refused? && !ChunkingIrrelevant(decode, stream)
  {
    hide IsUpgrade, ChunkingIrrelevant;
    var stream: seq<Byte> := seq(65534, _ => 0) + TERMINATOR;
    assert TerminatorAt(stream, 65534);
    var end := Find(stream, 0).value;
    assert stream[end] == stream[end..end + 4][0] == 13;
    assert end == 65534;
    assert INITIAL.buffer + stream == stream && stream[end + 4..] == [];
    ChunkingIrrelevantIff(decode, stream);
  }

  // ----- frames as a sender encodes them

  datatype Form = Seven | Sixteen | SixtyFour
  datatype Frame = Frame(first: Byte, form: Form, mask: Option<seq<Byte>>, payload: seq<Byte>)

  /** The frame's length has room in the form it is sent in. */
  predicate Encodable(f: Frame) {
    && (f.form == Seven ==> |f.payload| < 126) && (f.form == Sixteen ==> |f.payload| < 0x1_0000)
    && (f.form == SixtyFour ==> |f.payload| < 0x1_0000_0000_0000_0000)
    && (f.mask.Some? ==> |f.mask.value| == 4)
  }

  /** The frame is one the sniffer reads. */
  predicate Sendable(f: Frame) {
    Encodable(f) && |f.payload| <= 1_000_000
  }

  function ToBigEndian(n: nat, width: nat): (s: seq<Byte>)
    ensures |s| == width
  {
    if width == 0 then [] else ToBigEndian(n / 256, width - 1) + [n % 256]
  }

  function Power256(width: nat): nat {
    if width == 0 then 1 else 256 * Power256(width - 1)
  }

  lemma {:induction false} BigEndianRoundTrip(n: nat, width: nat)
    requires n < Power256(width)
    ensures BigEndian(ToBigEndian(n, width)) == n
  {
    if width > 0 {
      BigEndianRoundTrip(n / 256, width - 1);
      var s := ToBigEndian(n, width);
      assert s[..|s| - 1] == ToBigEndian(n / 256, width - 1);
    }
  }

  function Prefix(f: Frame): seq<Byte>
    requires Encodable(f)
  {
    var bit := if f.mask.Some? then 128 else 0;
    match f.form
    case Seven => [f.first, bit + |f.payload|]
    case Sixteen => [f.first, bit + 126] + ToBigEndian(|f.payload|, 2)
    case SixtyFour => [f.first, bit + 127] + ToBigEndian(|f.payload|, 8)
  }

  /** A masked payload is sent bit by bit as section 5.3 says. */
  ghost function Encode(f: Frame): seq<Byte>
    requires Sendable(f)
  {
    if f.mask.None? then Prefix(f) + f.payload
    else
      MaskedMasks(f.payload, f.mask.value);
      var masked :| IsMasked(f.payload, f.mask.value, masked);
      Prefix(f) + (f.mask.value + masked)
  }

  lemma EncodeMasked(f: Frame)
    requires Sendable(f) && f.mask.Some?
    ensures Encode(f) == Prefix(f) + (f.mask.value + Masked(f.payload, f.mask.value))
  {
    MaskedMasks(f.payload, f.mask.value);
    var masked :| IsMasked(f.payload, f.mask.value, masked) && Encode(f) == Prefix(f) + (f.mask.value + masked);
    MaskedIsOnly(f.payload, f.mask.value, masked);
  }

  lemma MaskedTwice(payload: seq<Byte>, mask: seq<Byte>)
    requires |mask| == 4
    ensures Masked(Masked(payload, mask), mask) == payload
  {
    forall i | 0 <= i < |payload| ensures XorByte(XorByte(payload[i], mask[i % 4]), mask[i % 4]) == payload[i] {
      XorTwice(payload[i], mask[i % 4]);
    }
  }

  lemma SizesFit()
    ensures Power256(2) == 0x1_0000 && Power256(8) == 0x1_0000_0000_0000_0000
  {
    assert Power256(2) == 256 * Power256(1) && Power256(3) == 256 * Power256(2);
    assert Power256(4) == 256 * Power256(3) && Power256(5) == 256 * Power256(4) && Power256(6) == 256 * Power256(5);
    assert Power256(7) == 256 * Power256(6) && Power256(8) == 256 * Power256(7);
  }

  /** The length a receiver reads from the prefix, whichever form it has. */
  lemma PrefixRoundTrip(f: Frame)
    requires Encodable(f)
    ensures var p := Prefix(f);
      var width := LengthWidth(p[1] % 128);
      && |p| == 2 + width && p[0] == f.first && (p[1] >= 128 <==> f.mask.Some?)
      && |f.payload| == if width == 0 then p[1] % 128 else BigEndian(p[2..2 + width])
  {
    hide BigEndian, ToBigEndian, Power256;
    var p := Prefix(f);
    var width := LengthWidth(p[1] % 128);
    if f.form != Seven {
      SizesFit();
      BigEndianRoundTrip(|f.payload|, width);
      assert p[2..2 + width] == ToBigEndian(|f.payload|, width);
    }
  }

  lemma ScanParts(prefix: seq<Byte>, mask: seq<Byte>, raw: seq<Byte>, rest: seq<Byte>)
    requires |prefix| >= 2 && |prefix| == 2 + LengthWidth(prefix[1] % 128)
    requires |mask| == if prefix[1] >= 128 then 4 else 0
    requires |raw| == if |prefix| == 2 then prefix[1] % 128 else BigEndian(prefix[2..])
    requires |raw| <= FRAME_LIMIT
    ensures ScanFrame(prefix + mask + raw + rest)
      == Complete(prefix[0] % 16, if prefix[1] >= 128 then Masked(raw, mask) else raw, |prefix + mask + raw|)
  {
    hide Masked, BigEndian;
    var b := prefix + mask + raw + rest;
    assert b[2..|prefix|] == prefix[2..];
    assert b[|prefix|..|prefix| + |mask|] == mask;
    assert b[|prefix| + |mask|..|prefix| + |mask| + |raw|] == raw;
  }

  /** A frame in any of the three length forms, masked or not, scans back to its opcode and payload. */
  lemma FrameRoundTrip(f: Frame, rest: seq<Byte>)
    requires Sendable(f)
    ensures ScanFrame(Encode(f) + rest) == Complete(f.first % 16, f.payload, |Encode(f)|)
  {
    hide ScanFrame, Masked, BigEndian, Prefix;
    PrefixRoundTrip(f);
    var prefix := Prefix(f);
    assert prefix[2..] == prefix[2..|prefix|];
    if f.mask.Some? {
      EncodeMasked(f);
      var raw := Masked(f.payload, f.mask.value);
      ScanParts(prefix, f.mask.value, raw, rest);
      assert prefix + f.mask.value + raw == Encode(f);
      MaskedTwice(f.payload, f.mask.value);
    } else {
      ScanParts(prefix, [], f.payload, rest);
      assert prefix + [] + f.payload == Encode(f);
    }
  }

  /** What is scanned of a complete frame: the low bits of the first byte, and the last bytes of the frame,
      unmasked with the four before them if it is masked. */
  lemma ScanUnmasks(b: seq<Byte>)
    requires ScanFrame(b).Complete?
    ensures var scan := ScanFrame(b);
      var start := scan.length - |scan.payload|;
      && 2 <= start && scan.opcode == b[0] % 16
      && if b[1] < 128 then scan.payload == b[start..scan.length]
         else 6 <= start && IsMasked(b[start..scan.length], b[start - 4..start], scan.payload)
  {
    hide Masked, BigEndian, IsMasked;
    var scan := ScanFrame(b);
    var start := scan.length - |scan.payload|;
    if b[1] >= 128 {
      MaskedMasks(b[start..scan.length], b[start - 4..start]);
    }
  }

  /** A frame of which bytes are missing is not taken yet. */
  lemma PartialFrame(f: Frame, n: nat)
    requires Sendable(f) && n < |Encode(f)|
    ensures ScanFrame(Encode(f)[..n]) == Short
  {
    hide BigEndian;
    var part := Encode(f)[..n];
    PrefixRoundTrip(f);
    if f.mask.Some? {
      EncodeMasked(f);
    }
    var p := Prefix(f);
    assert Encode(f)[..|p|] == p;
    if n >= 2 {
      assert part[0] == p[0] && part[1] == p[1];
      if n >= |p| {
        assert part[..|p|] == p && part[2..|p|] == p[2..];
        assert p[2..] == p[2..|p|];
      }
    }
  }

  /** A frame over the limit is refused as soon as its length is there. */
  lemma LargeFrameRefused(f: Frame, seen: seq<Byte>)
    requires Encodable(f) && |f.payload| > 1_000_000 && Prefix(f) <= seen
    ensures ScanFrame(seen) == Oversized
  {
    PrefixRoundTrip(f);
    var p := Prefix(f);
    assert seen[0] == p[0] && seen[1] == p[1] && seen[2..|p|] == p[2..|p|];
  }

  ghost function EncodeAll(frames: seq<Frame>): seq<Byte>
    requires forall f :: f in frames ==> Sendable(f)
  {
    if frames == [] then [] else Encode(frames[0]) + EncodeAll(frames[1..])
  }

  datatype Search = NotYet | Found(hello: Hello) | Broken

  /** The first text frame that says hello, or does not decode. */
  function FirstHello(decode: seq<Byte> -> Message, frames: seq<Frame>): Search {
    if frames == [] then NotYet
    else if frames[0].first % 16 != 1 then FirstHello(decode, frames[1..])
    else
      match decode(frames[0].payload)
      case Malformed => Broken
      case Other => FirstHello(decode, frames[1..])
      case Hello(h) => Found(h)
  }

  lemma {:induction false} DrainFrames(decode: seq<Byte> -> Message, frames: seq<Frame>, tail: seq<Byte>)
    requires forall f :: f in frames ==> Sendable(f)
    ensures Drain(decode, EncodeAll(frames) + tail) ==
      match FirstHello(decode, frames)
      case NotYet => Drain(decode, tail)
      case Found(h) => Drained([h], [], true)
      case Broken => Stuck
  {
    if frames == [] {
      assert EncodeAll(frames) + tail == tail;
    } else {
      var f, rest := frames[0], EncodeAll(frames[1..]) + tail;
      assert EncodeAll(frames) + tail == Encode(f) + rest;
      FrameRoundTrip(f, rest);
      assert (Encode(f) + rest)[|Encode(f)|..] == rest;
      DrainFrames(decode, frames[1..], tail);
    }
  }

  /** A stream that upgrades, sends frames and part of one more: cut in any way, the calls report the first
      hello among the frames once, and nothing else; a frame that does not decode before it refuses the
      stream. */
  lemma HelloReportedOnce(decode: seq<Byte> -> Message, header: seq<Byte>, frames: seq<Frame>, part: seq<Byte>,
                          chunks: seq<seq<Byte>>)
    requires Find(header + TERMINATOR, 0) == Some(|header|) && |header| + 3 <= 65536 && IsUpgrade(header)
    requires forall f :: f in frames ==> Sendable(f)
    requires part == [] || exists f, n: nat :: IsPart(f, n, part)
    requires Joined(chunks) == header + TERMINATOR + (EncodeAll(frames) + part)
    ensures FeedAll(decode, chunks) ==
      match FirstHello(decode, frames)
      case NotYet => Fed(State(part, Some(true), false), [])
      case Found(h) => Fed(State([], Some(true), true), [h])
      case Broken => Refused
  {
    hide Encode, EncodeAll, FirstHello, IsUpgrade;
    var stream := header + TERMINATOR + (EncodeAll(frames) + part);
    FindExtends(header + TERMINATOR, EncodeAll(frames) + part);
    assert stream[..|header|] == header && stream[|header| + 4..] == EncodeAll(frames) + part;
    assert INITIAL.buffer + stream == stream;
    DrainFrames(decode, frames, part);
    PartIsShort(part);
    ChunkingIrrelevantIff(decode, stream);
  }

  /** The first bytes of a frame, but not all. */
  ghost predicate IsPart(f: Frame, n: nat, part: seq<Byte>) {
    Sendable(f) && n < |Encode(f)| && part == Encode(f)[..n]
  }

  lemma PartIsShort(part: seq<Byte>)
    requires part == [] || exists f, n: nat :: IsPart(f, n, part)
    ensures ScanFrame(part) == Short
  {
    if part != [] {
      var f, n: nat :| IsPart(f, n, part);
      PartialFrame(f, n);
    }
  }

  /** A stream whose header does not upgrade: whatever follows it, nothing is reported and nothing kept. */
  lemma OpaqueStream(decode: seq<Byte> -> Message, header: seq<Byte>, body: seq<Byte>, chunks: seq<seq<Byte>>)
    requires Find(header + TERMINATOR, 0) == Some(|header|) && |header| + 3 <= 65536 && !IsUpgrade(header)
    requires Joined(chunks) == header + TERMINATOR + body
    ensures FeedAll(decode, chunks) == Fed(State([], Some(false), false), [])
  {
    hide IsUpgrade;
    var stream := header + TERMINATOR + body;
    FindExtends(header + TERMINATOR, body);
    assert stream[..|header|] == header && stream[|header| + 4..] == body;
    assert INITIAL.buffer + stream == stream;
    ChunkingIrrelevantIff(decode, stream);
  }

  // ----- the upgrade line

  /** The byte is this character, or its capital. */
  predicate IsLetter(b: Byte, c: char) {
    b == c as int || ('a' <= c <= 'z' && b == c as int - 32)
  }

  /** These characters stand here, each letter in either case. */
  predicate LineAt(header: seq<Byte>, line: string, i: nat) {
    i + |line| <= |header| && forall k :: 0 <= k < |line| ==> IsLetter(header[i + k], line[k])
  }

  lemma LowerLine(header: seq<Byte>, line: string, bytes: seq<Byte>, i: nat)
    requires |bytes| == |line| && forall k :: 0 <= k < |line| ==> bytes[k] == line[k] as int && !('A' <= line[k] <= 'Z')
    ensures OccursAt(Lower(header), bytes, i) <==> LineAt(header, line, i)
  {
    if i + |line| <= |header| {
      var here := Lower(header)[i..i + |line|];
      forall k | 0 <= k < |line| ensures here[k] == bytes[k] <==> IsLetter(header[i + k], line[k]) {
        assert here[k] == Lower(header)[i + k];
      }
      assert here == bytes <==> forall k :: 0 <= k < |line| ==> here[k] == bytes[k];
    }
  }

  lemma UpgradeBytes()
    ensures var line := "upgrade: websocket";
      |UPGRADE| == |line| && forall k :: 0 <= k < |line| ==> UPGRADE[k] == line[k] as int && !('A' <= line[k] <= 'Z')
  {
  }

  /** A header upgrades exactly when it has these eighteen characters somewhere, each letter in either case. */
  lemma UpgradeInEitherCase(header: seq<Byte>)
    ensures IsUpgrade(header) <==> exists i: nat :: LineAt(header, "upgrade: websocket", i)
  {
    UpgradeBytes();
    hide LineAt, OccursAt;
    forall i: nat ensures OccursAt(Lower(header), UPGRADE, i) <==> LineAt(header, "upgrade: websocket", i) {
      LowerLine(header, "upgrade: websocket", UPGRADE, i);
    }
    LineFits(header, "upgrade: websocket");
  }

  /** The header ends with an empty line. */
  lemma TerminatorIsBlankLine(s: seq<Byte>, i: nat)
    ensures TerminatorAt(s, i) <==>
      i + 4 <= |s| && forall k :: 0 <= k < 4 ==> s[i + k] == "\r\n\r\n"[k] as int
  {
    if i + 4 <= |s| {
      var here := s[i..i + 4];
      assert here == [s[i], s[i + 1], s[i + 2], s[i + 3]];
      var line := "\r\n\r\n";
      assert forall k :: 0 <= k < 4 ==> line[k] as int == TERMINATOR[k];
      assert here == TERMINATOR <==> forall k :: 0 <= k < 4 ==> here[k] == TERMINATOR[k];
    }
  }

  lemma LineFits(header: seq<Byte>, line: string)
    ensures forall i: nat :: LineAt(header, line, i) ==> i <= |header|
  {
  }
}
