/** WebSocket framing and the frame pump (noeta/agent/host/ws_proxy.py); the frame layout is that of
    sections 5.2 and 5.3 of RFC 6455. */
module WsProxy {
  import opened Collections

  type Byte = b: int | 0 <= b < 256

  type Bytes = seq<Byte>

  type Key = k: Bytes | |k| == 4 witness [0, 0, 0, 0]

  datatype Frame = Frame(fin: bool, opcode: nat, payload: Bytes)

  const MAX_PAYLOAD_BYTES := 64 * 1024 * 1024

  const OPCODE_CLOSE: nat := 0x8

  // ---------------------------------------------------------------------------
  // Bytes
  // ---------------------------------------------------------------------------

  function Pow256(k: nat): (p: nat)
    ensures p > 0
  {
    if k == 0 then 1 else 256 * Pow256(k - 1)
  }

  lemma Pow256Values()
    ensures Pow256(2) == 0x1_0000
    ensures Pow256(8) == 0x1_0000_0000_0000_0000
  {
    assert Pow256(4) == 256 * 256 * Pow256(2);
    assert Pow256(6) == 256 * 256 * Pow256(4);
  }

  /** `n` in network byte order, over `k` bytes. */
  function BigEndian(n: nat, k: nat): (bs: Bytes)
    ensures |bs| == k
  {
    if k == 0 then [] else BigEndian(n / 256, k - 1) + [n % 256]
  }

  function Value(bs: Bytes): nat {
    if bs == [] then 0 else Value(bs[..|bs| - 1]) * 256 + bs[|bs| - 1]
  }

  lemma {:induction false} ValueOfBigEndian(n: nat, k: nat)
    requires n < Pow256(k)
    ensures Value(BigEndian(n, k)) == n
  {
    if k > 0 {
      var high := BigEndian(n / 256, k - 1);
      ValueOfBigEndian(n / 256, k - 1);
      var bs := BigEndian(n, k);
      assert bs[..|bs| - 1] == high && bs[|bs| - 1] == n % 256;
    }
  }

  /** Exclusive or of the low `bits` bits. */
  function XorLow(a: nat, b: nat, bits: nat): (x: nat)
    ensures x < Pow2(bits)
  {
    if bits == 0 then 0 else (if a % 2 == b % 2 then 0 else 1) + 2 * XorLow(a / 2, b / 2, bits - 1)
  }

  function Pow2(k: nat): nat {
    if k == 0 then 1 else 2 * Pow2(k - 1)
  }

  function Xor(a: Byte, b: Byte): Byte {
    assert Pow2(8) == 256 by { assert Pow2(4) == 4 * Pow2(2); assert Pow2(6) == 4 * Pow2(4); }
    XorLow(a, b, 8)
  }

  lemma {:induction false} XorLowTwice(a: nat, b: nat, bits: nat)
    requires a < Pow2(bits)
    ensures XorLow(XorLow(a, b, bits), b, bits) == a
  {
    if bits > 0 {
      XorLowTwice(a / 2, b / 2, bits - 1);
      var high, bit := XorLow(a / 2, b / 2, bits - 1), if a % 2 == b % 2 then 0 else 1;
      SplitBit(bit, high);
      assert XorLow(a, b, bits) == bit + 2 * high;
    }
  }

  lemma SplitBit(bit: nat, high: nat)
    requires bit < 2
    ensures (bit + 2 * high) % 2 == bit && (bit + 2 * high) / 2 == high
  {
  }

  function Masked(payload: Bytes, key: Key): (m: Bytes)
    ensures |m| == |payload|
  {
    seq(|payload|, i requires 0 <= i < |payload| => Xor(payload[i], key[i % 4]))
  }

  /** The `k`-th bit of a number. */
  function Bit(n: nat, k: nat): nat {
    if k == 0 then n % 2 else Bit(n / 2, k - 1)
  }

  lemma {:induction false} XorLowBits(a: nat, b: nat, bits: nat, k: nat)
    requires k < bits
    ensures Bit(XorLow(a, b, bits), k) == if Bit(a, k) != Bit(b, k) then 1 else 0
  {
    var high, bit := XorLow(a / 2, b / 2, bits - 1), if a % 2 == b % 2 then 0 else 1;
    SplitBit(bit, high);
    assert XorLow(a, b, bits) == bit + 2 * high;
    if k > 0 {
      XorLowBits(a / 2, b / 2, bits - 1, k - 1);
    }
  }

  /** Masking is exclusive or, bit by bit, with the key repeated every four bytes. */
  lemma MaskedBits(payload: Bytes, key: Key, i: nat, k: nat)
    requires i < |payload| && k < 8
    ensures Bit(Masked(payload, key)[i], k) == 1 <==> Bit(payload[i], k) != Bit(key[i - 4 * (i / 4)], k)
  {
    XorLowBits(payload[i], key[i % 4], 8, k);
    hide Bit;
    hide XorLow;
  }

  lemma MaskedTwice(payload: Bytes, key: Key)
    ensures Masked(Masked(payload, key), key) == payload
  {
    forall i | 0 <= i < |payload| ensures Masked(Masked(payload, key), key)[i] == payload[i] {
      XorLowTwice(payload[i], key[i % 4], 8);
    }
  }

  // ---------------------------------------------------------------------------
  // One frame
  // ---------------------------------------------------------------------------

  // Bit operations on a byte are written as arithmetic: a bit test of 0x80 is `>= 0x80`, masking with
  // 0x7F or 0x0F is the remainder by 0x80 or 0x10, and setting a clear bit is adding it.

  function FirstByte(f: Frame): Byte {
    (if f.fin then 0x80 else 0x00) + f.opcode % 0x10
  }

  /** The second byte and the extended length: three forms. */
  function LengthField(length: nat, maskBit: Byte): Bytes
    requires maskBit in {0x00, 0x80}
  {
    if length < 126 then [maskBit + length]
    else if length < 0x1_0000 then [maskBit + 126] + BigEndian(length, 2)
    else [maskBit + 127] + BigEndian(length, 8)
  }

  /** A frame that a 64-bit length can describe. */
  predicate Encodable(f: Frame) {
    |f.payload| < 0x1_0000_0000_0000_0000
  }

  function Encoded(f: Frame, mask: bool, key: Key): Bytes
  {
    [FirstByte(f)] + LengthField(|f.payload|, if mask then 0x80 else 0x00)
    + if mask then key + Masked(f.payload, key) else f.payload
  }

  method EncodeFrame(f: Frame, mask: bool, key: Key) returns (bytes: Bytes)
    requires Encodable(f)
    ensures bytes == Encoded(f, mask, key)
  {
    hide BigEndian;
    hide Masked;
    var length := |f.payload|;
    var header: Bytes := [];
    header := header + [(if f.fin then 0x80 else 0x00) + f.opcode % 0x10];
    var maskBit: Byte := if mask then 0x80 else 0x00;
    if length < 126 {
      header := header + [maskBit + length];
    } else if length < 0x1_0000 {
      header := header + [maskBit + 126];
      header := header + BigEndian(length, 2);
    } else {
      header := header + [maskBit + 127];
      header := header + BigEndian(length, 8);
    }
    assert header == [FirstByte(f)] + LengthField(length, maskBit);
    if !mask { return header + f.payload; }
    bytes := header + (key + Masked(f.payload, key));
  }

  lemma DivTwice(n: nat, a: nat, b: nat)
    requires a > 0 && b > 0
    ensures a * b > 0 && n / (a * b) == n / a / b
  {
    var q, r := n / a, n % a;
    var p, t := q / b, q % b;
    assert n == a * q + r && q == b * p + t;
    ByParts(n, a, b, p, t, r);
  }

  lemma ByParts(n: nat, a: nat, b: nat, p: nat, t: nat, r: nat)
    requires a > 0 && b > 0 && n == a * (b * p + t) + r && r < a && t < b
    ensures a * b > 0 && n / (a * b) == p
  {
    var m := a * b;
    assert n == m * p + (a * t + r);
    assert a * t + r < m by {
      assert a * t <= a * (b - 1);
      assert a * (b - 1) == m - a;
    }
    Quotient(n, m, p, a * t + r);
  }

  lemma Quotient(n: nat, m: nat, p: nat, r: nat)
    requires m > 0 && n == m * p + r && r < m
    ensures n / m == p
  {
    var q := n / m;
    Difference(m, q, p);
    if q > p { AtLeastOnce(m, q - p); }
    if q < p { AtLeastOnce(m, p - q); }
  }

  lemma Difference(m: nat, q: nat, p: nat)
    ensures m * (q - p) == m * q - m * p && m * (p - q) == m * p - m * q
  {
  }

  lemma AtLeastOnce(m: nat, d: nat)
    requires d >= 1
    ensures m * d >= m
  {
  }

  /** Network byte order: the `i`-th of `k` bytes is the digit of 256 to the `k - 1 - i`. */
  lemma {:induction false} BigEndianDigit(n: nat, k: nat, i: nat)
    requires i < k
    ensures BigEndian(n, k)[i] == n / Pow256(k - 1 - i) % 256
  {
    if i < k - 1 {
      BigEndianDigit(n / 256, k - 1, i);
      DivTwice(n, 256, Pow256(k - 2 - i));
    } else {
      assert n / Pow256(0) == n;
    }
  }

  /** How many bytes of extended length a payload of this length needs. */
  function Wide(n: nat): nat {
    if n < 126 then 0 else if n < 65536 then 2 else 8
  }

  /** The bytes between the mask bit's byte and the key: the length in network byte order. */
  lemma LengthLayout(n: nat, maskBit: Byte)
    requires maskBit in {0x00, 0x80}
    ensures var field := LengthField(n, maskBit);
            && |field| == 1 + Wide(n)
            && field[0] == maskBit + (if n < 126 then n else if n < 65536 then 126 else 127)
            && var digits := field[1..];
               forall i :: 0 <= i < |digits| ==> digits[i] == n / Pow256(Wide(n) - 1 - i) % 256
  {
    hide BigEndian;
    var digits := LengthField(n, maskBit)[1..];
    assert Wide(n) > 0 ==> digits == BigEndian(n, Wide(n));
    forall i | 0 <= i < |digits| ensures digits[i] == n / Pow256(Wide(n) - 1 - i) % 256 {
      BigEndianDigit(n, Wide(n), i);
    }
  }

  /** The layout, byte by byte: the final bit and the opcode; the mask bit and the short length, 126 or 127;
      the length in two or eight bytes when it does not fit; the key; the payload, masked under a key. */
  lemma EncodedLayout(f: Frame, mask: bool, key: Key)
    requires Encodable(f)
    ensures var e, n := Encoded(f, mask, key), |f.payload|;
            var start := 2 + Wide(n) + if mask then 4 else 0;
            && |e| == start + n
            && e[0] == (if f.fin then 128 else 0) + f.opcode % 16
            && e[1] == (if mask then 128 else 0) + (if n < 126 then n else if n < 65536 then 126 else 127)
            && (var digits := e[2..2 + Wide(n)];
                forall i :: 0 <= i < Wide(n) ==> digits[i] == n / Pow256(Wide(n) - 1 - i) % 256)
            && (mask ==> e[2 + Wide(n)..start] == key)
            && e[start..] == (if mask then Masked(f.payload, key) else f.payload)
  {
    hide Masked;
    var n := |f.payload|;
    var field := LengthField(n, if mask then 0x80 else 0x00);
    LengthLayout(n, if mask then 0x80 else 0x00);
    hide LengthField;
    hide Wide;
    hide Pow256;
    JoinsUp(FirstByte(f), field, if mask then key else [], if mask then Masked(f.payload, key) else f.payload);
    var e := Encoded(f, mask, key);
    assert [] + f.payload == f.payload;
    assert e == [FirstByte(f)] + field
                + ((if mask then key else []) + if mask then Masked(f.payload, key) else f.payload);
    assert e[2..2 + Wide(n)] == field[1..];
  }

  lemma JoinsUp(first: Byte, field: Bytes, key: Bytes, body: Bytes)
    requires field != []
    ensures var e, start := [first] + field + (key + body), 1 + |field| + |key|;
            && |e| == start + |body| && e[0] == first && e[1] == field[0]
            && e[2..1 + |field|] == field[1..] && e[1 + |field|..start] == key && e[start..] == body
  {
  }

  datatype Read = Got(frame: Frame, rest: Bytes) | End | TooLong(length: nat, rest: Bytes)

  /** How many bytes of extended length follow a second byte. */
  function Extra(second: Byte): nat {
    if second % 0x80 == 126 then 2 else if second % 0x80 == 127 then 8 else 0
  }

  function DeclaredLength(second: Byte, extended: Bytes): nat {
    if extended == [] then second % 0x80 else Value(extended)
  }

  /** The body of a frame once its length is known. */
  function ReadBody(fin: bool, opcode: nat, masked: bool, length: nat, s: Bytes): Read {
    if length > MAX_PAYLOAD_BYTES then TooLong(length, s)
    else
      var start := if masked then 4 else 0;
      if |s| < start + length then End
      else
        var raw := s[start..start + length];
        Got(Frame(fin, opcode, if masked then Masked(raw, s[..4]) else raw), s[start + length..])
  }

  /** What one read of a byte stream gives. */
  function ReadFrame(s: Bytes): (r: Read)
    ensures r.Got? ==> |r.rest| < |s| && r.frame.opcode < 16 && |r.frame.payload| <= MAX_PAYLOAD_BYTES
    ensures r.TooLong? ==> |r.rest| < |s| && r.length > MAX_PAYLOAD_BYTES
  {
    if |s| < 2 || |s| < 2 + Extra(s[1]) then End
    else
      var body := 2 + Extra(s[1]);
      ReadBody(s[0] >= 0x80, s[0] % 0x10, s[1] >= 0x80, DeclaredLength(s[1], s[2..body]), s[body..])
  }

  /** Reads frames off a byte stream; `stream` is what has not been read yet. */
  class FrameReader {
    var stream: Bytes

    constructor (bytes: Bytes)
      ensures stream == bytes
    {
      stream := bytes;
    }

    /** Gives the next bytes if there are enough; else it drains the stream and gives none. */
    method Exactly(count: nat) returns (data: Bytes, ok: bool)
      modifies this
      ensures ok == (count <= |old(stream)|)
      ensures ok ==> data == old(stream)[..count] && stream == old(stream)[count..]
      ensures !ok ==> stream == []
    {
      if count == 0 { return [], true; }
      var taken := if count <= |stream| then count else |stream|;
      data := stream[..taken];
      stream := stream[taken..];
      ok := |data| == count;
    }

    method Read() returns (r: Read)
      modifies this
      ensures r == ReadFrame(old(stream))
      ensures stream == if r.End? then [] else r.rest
    {
      hide Value;
      hide ReadBody;
      ghost var s := stream;
      var head, ok := Exactly(2);
      if !ok { return End; }
      var fin := head[0] >= 0x80;
      var opcode := head[0] % 0x10;
      var masked := head[1] >= 0x80;
      var length := head[1] % 0x80;
      if head[1] % 0x80 == 126 {
        var extended;
        extended, ok := Exactly(2);
        if !ok { return End; }
        length := Value(extended);
        DropThenCut(s, 2, 4);
      } else if head[1] % 0x80 == 127 {
        var extended;
        extended, ok := Exactly(8);
        if !ok { return End; }
        length := Value(extended);
        DropThenCut(s, 2, 10);
      }
      r := ReadRest(fin, opcode, masked, length);
    }

    method ReadRest(fin: bool, opcode: nat, masked: bool, length: nat) returns (r: Read)
      modifies this
      ensures r == ReadBody(fin, opcode, masked, length, old(stream))
      ensures stream == if r.End? then [] else r.rest
    {
      if length > MAX_PAYLOAD_BYTES { return TooLong(length, stream); }
      var key: Bytes, ok := [0, 0, 0, 0], true;
      if masked {
        key, ok := Exactly(4);
        if !ok { return End; }
      }
      var payload: Bytes := [];
      if length != 0 {
        payload, ok := Exactly(length);
        if !ok { return End; }
      }
      if masked { payload := Masked(payload, key); }
      r := Got(Frame(fin, opcode, payload), stream);
    }
  }

  /** The header and the mask key say what the reader needs: any tail is read as the body. */
  lemma HeaderReads(f: Frame, mask: bool, tail: Bytes)
    requires Encodable(f)
    ensures var s := [FirstByte(f)] + LengthField(|f.payload|, if mask then 0x80 else 0x00) + tail;
            ReadFrame(s) == ReadBody(f.fin, f.opcode % 0x10, mask, |f.payload|, tail)
  {
    hide ReadBody;
    var length := |f.payload|;
    var field := LengthField(length, if mask then 0x80 else 0x00);
    var s := [FirstByte(f)] + field + tail;
    assert s[0] == FirstByte(f) && s[1] == field[0];
    LengthReads(length, mask);
    var body := 2 + Extra(s[1]);
    assert s[2..body] == field[1..];
    assert s[body..] == tail;
  }

  lemma LengthReads(length: nat, mask: bool)
    requires length < 0x1_0000_0000_0000_0000
    ensures var field := LengthField(length, if mask then 0x80 else 0x00);
            && |field| == 1 + Extra(field[0])
            && (field[0] >= 0x80 <==> mask)
            && DeclaredLength(field[0], field[1..]) == length
  {
    hide BigEndian;
    hide Value;
    hide Pow256;
    Pow256Values();
    var field := LengthField(length, if mask then 0x80 else 0x00);
    if 126 <= length < 0x1_0000 {
      ValueOfBigEndian(length, 2);
      assert field[1..] == BigEndian(length, 2);
    } else if length >= 0x1_0000 {
      ValueOfBigEndian(length, 8);
      assert field[1..] == BigEndian(length, 8);
    }
  }

  /** A frame the reader can return, and the only ones it does. */
  predicate Deliverable(f: Frame) {
    f.opcode < 16 && |f.payload| <= MAX_PAYLOAD_BYTES
  }

  predicate DeliverableAll(frames: seq<Frame>) {
    forall i :: 0 <= i < |frames| ==> Deliverable(frames[i])
  }

  /** Framing inverts in all three length forms and under any key; a longer payload is refused. */
  lemma ReadsBack(f: Frame, mask: bool, key: Key, rest: Bytes)
    requires Encodable(f)
    ensures var r := ReadFrame(Encoded(f, mask, key) + rest);
            if |f.payload| <= MAX_PAYLOAD_BYTES then r == Got(f.(opcode := f.opcode % 16), rest)
            else r.TooLong? && r.length == |f.payload|
  {
    hide ReadFrame;
    hide LengthField;
    hide FirstByte;
    hide Masked;
    var header := [FirstByte(f)] + LengthField(|f.payload|, if mask then 0x80 else 0x00);
    var body := if mask then key + Masked(f.payload, key) else f.payload;
    assert Encoded(f, mask, key) + rest == header + (body + rest);
    HeaderReads(f, mask, body + rest);
    if |f.payload| <= MAX_PAYLOAD_BYTES { BodyReads(f, mask, key, rest); }
  }

  lemma BodyReads(f: Frame, mask: bool, key: Key, rest: Bytes)
    requires |f.payload| <= MAX_PAYLOAD_BYTES
    ensures var body := if mask then key + Masked(f.payload, key) else f.payload;
            ReadBody(f.fin, f.opcode % 16, mask, |f.payload|, body + rest) == Got(f.(opcode := f.opcode % 16), rest)
  {
    hide Masked;
    var body := if mask then key + Masked(f.payload, key) else f.payload;
    var start := if mask then 4 else 0;
    assert (body + rest)[start + |f.payload|..] == rest;
    if mask {
      assert (body + rest)[..4] == key;
      assert (body + rest)[4..4 + |f.payload|] == Masked(f.payload, key);
      MaskedTwice(f.payload, key);
    } else {
      assert (body + rest)[0..|f.payload|] == f.payload;
    }
  }

  /** A frame cut anywhere before its end reads as end of stream. */
  lemma CutFrameEnds(f: Frame, mask: bool, key: Key, cut: nat)
    requires |f.payload| <= MAX_PAYLOAD_BYTES && cut < |Encoded(f, mask, key)|
    ensures ReadFrame(Encoded(f, mask, key)[..cut]).End?
  {
    hide Masked;
    hide FirstByte;
    hide DeclaredLength;
    hide LengthField;
    var field := LengthField(|f.payload|, if mask then 0x80 else 0x00);
    var header := [FirstByte(f)] + field;
    var body := if mask then key + Masked(f.payload, key) else f.payload;
    var s := Encoded(f, mask, key)[..cut];
    LengthReads(|f.payload|, mask);
    if |header| <= cut {
      var tail := body[..cut - |header|];
      assert s == header + tail;
      HeaderReads(f, mask, tail);
    } else if 2 <= cut {
      assert s[1] == field[0];
    }
  }

  // ---------------------------------------------------------------------------
  // A stream of frames
  // ---------------------------------------------------------------------------

  /** The frames of a stream and the read that ended it. */
  datatype Run = Run(frames: seq<Frame>, last: Read)

  function ReadAll(s: Bytes): (run: Run)
    ensures DeliverableAll(run.frames)
    decreases |s|
  {
    match ReadFrame(s)
    case Got(f, rest) => var later := ReadAll(rest); later.(frames := [f] + later.frames)
    case r => Run([], r)
  }

  /** The encodings of `frames`, the n-th key masking the first of them. */
  function EncodedAll(frames: seq<Frame>, mask: bool, keys: nat -> Key, n: nat): Bytes
  {
    if frames == [] then [] else Encoded(frames[0], mask, keys(n)) + EncodedAll(frames[1..], mask, keys, n + 1)
  }

  /** How many leading frames lie whole within the first `cut` bytes. */
  function WholeFrames(frames: seq<Frame>, mask: bool, keys: nat -> Key, n: nat, cut: nat): (k: nat)
    ensures k <= |frames|
    ensures |EncodedAll(frames[..k], mask, keys, n)| <= cut
    ensures k < |frames| ==> cut < |EncodedAll(frames[..k + 1], mask, keys, n)|
  {
    if frames == [] then 0
    else
      var size := |Encoded(frames[0], mask, keys(n))|;
      if cut < size then
        assert frames[..1][1..] == [];
        0
      else
        var k := WholeFrames(frames[1..], mask, keys, n + 1, cut - size);
        assert frames[..k + 1][1..] == frames[1..][..k];
        assert k + 1 < |frames| ==> frames[..k + 2][1..] == frames[1..][..k + 1];
        k + 1
  }

  /** Reading any prefix of an encoded stream gives exactly the frames that lie whole in it. */
  lemma {:induction false} StreamReadsBack(frames: seq<Frame>, mask: bool, keys: nat -> Key, n: nat, cut: nat)
    requires DeliverableAll(frames)
    requires cut <= |EncodedAll(frames, mask, keys, n)|
    ensures ReadAll(EncodedAll(frames, mask, keys, n)[..cut])
         == Run(frames[..WholeFrames(frames, mask, keys, n, cut)], End)
  {
    hide Encoded;
    hide ReadFrame;
    hide ReadAll;
    hide WholeFrames;
    WholeFramesStep(frames, mask, keys, n, cut);
    if frames == [] {
      EmptyEnds();
      ReadIsEnd([]);
    } else {
      var f, key := frames[0], keys(n);
      var first, later := Encoded(f, mask, key), EncodedAll(frames[1..], mask, keys, n + 1);
      assert EncodedAll(frames, mask, keys, n) == first + later;
      hide EncodedAll;
      if cut < |first| {
        CutFrameEnds(f, mask, key, cut);
        assert (first + later)[..cut] == first[..cut];
        ReadIsEnd(first[..cut]);
      } else {
        StreamReadsBack(frames[1..], mask, keys, n + 1, cut - |first|);
        ReadsOneMore(f, mask, key, later, cut);
      }
    }
  }

  /** The first frame lies whole in the cut, or none does. */
  lemma WholeFramesStep(frames: seq<Frame>, mask: bool, keys: nat -> Key, n: nat, cut: nat)
    ensures var k := WholeFrames(frames, mask, keys, n, cut);
            if frames == [] || cut < |Encoded(frames[0], mask, keys(n))| then frames[..k] == []
            else
              var later := frames[1..];
              frames[..k] == [frames[0]]
                + later[..WholeFrames(later, mask, keys, n + 1, cut - |Encoded(frames[0], mask, keys(n))|)]
  {
    hide Encoded;
    hide EncodedAll;
  }

  lemma ReadsOneMore(f: Frame, mask: bool, key: Key, later: Bytes, cut: nat)
    requires Deliverable(f) && |Encoded(f, mask, key)| <= cut <= |Encoded(f, mask, key)| + |later|
    ensures var first := Encoded(f, mask, key);
            var rest := ReadAll(later[..cut - |first|]);
            ReadAll((first + later)[..cut]) == rest.(frames := [f] + rest.frames)
  {
    hide Encoded;
    hide ReadFrame;
    var first := Encoded(f, mask, key);
    var rest := later[..cut - |first|];
    assert (first + later)[..cut] == first + rest;
    ReadsBack(f, mask, key, rest);
    assert f.(opcode := f.opcode % 16) == f;
  }

  lemma EmptyEnds()
    ensures ReadFrame([]) == End
  {
  }

  lemma ReadIsEnd(s: Bytes)
    requires ReadFrame(s).End?
    ensures ReadAll(s) == Run([], End)
  {
  }

  /** All of the stream gives all of its frames. */
  lemma {:induction false} WholeStream(frames: seq<Frame>, mask: bool, keys: nat -> Key, n: nat, cut: nat)
    requires cut >= |EncodedAll(frames, mask, keys, n)|
    ensures WholeFrames(frames, mask, keys, n, cut) == |frames|
  {
    hide Encoded;
    if frames != [] {
      WholeStream(frames[1..], mask, keys, n + 1, cut - |Encoded(frames[0], mask, keys(n))|);
    }
  }

  // ---------------------------------------------------------------------------
  // The pump
  // ---------------------------------------------------------------------------

  /** The frames up to and including the first close. */
  function ThroughClose(frames: seq<Frame>): (through: seq<Frame>)
    ensures through <= frames
    ensures forall i :: 0 <= i < |through| - 1 ==> through[i].opcode != OPCODE_CLOSE
    ensures through != frames ==> through != [] && through[|through| - 1].opcode == OPCODE_CLOSE
  {
    if frames == [] then []
    else if frames[0].opcode == OPCODE_CLOSE then [frames[0]]
    else [frames[0]] + ThroughClose(frames[1..])
  }

  /** What the pump writes: the encodings of those frames, or as much of them as the peer takes. */
  function Relayed(input: Bytes, mask: bool, keys: nat -> Key): Bytes {
    EncodedAll(ThroughClose(ReadAll(input).frames), mask, keys, 0)
  }

  /** Relays until the source ends, a close passes, or the destination has taken `capacity` bytes. */
  method Pump(reader: FrameReader, mask: bool, keys: nat -> Key, capacity: nat) returns (sent: Bytes)
    modifies reader
    ensures var all := Relayed(old(reader.stream), mask, keys);
            sent == if |all| <= capacity then all else all[..capacity]
  {
    hide Encoded;
    hide ReadFrame;
    ghost var all := Relayed(reader.stream, mask, keys);
    sent := [];
    var n := 0;
    assert [] + all == all;
    while true
      invariant |sent| <= capacity
      invariant all == sent + EncodedAll(ThroughClose(ReadAll(reader.stream).frames), mask, keys, n)
      decreases |reader.stream|
    {
      ghost var before := reader.stream;
      var r := reader.Read();
      if !r.Got? {
        assert ReadAll(before).frames == [];
        assert all == sent;
        return;
      }
      assert ReadAll(before).frames == [r.frame] + ReadAll(r.rest).frames;
      var bytes := EncodeFrame(r.frame, mask, keys(n));
      PumpStep(all, sent, r.frame, ReadAll(r.rest).frames, mask, keys, n);
      if |sent| + |bytes| > capacity {
        sent := sent + bytes[..capacity - |sent|];
        assert sent == all[..capacity];
        return;
      }
      sent := sent + bytes;
      n := n + 1;
      if r.frame.opcode == OPCODE_CLOSE { return; }
    }
  }

  lemma PumpStep(all: Bytes, sent: Bytes, f: Frame, later: seq<Frame>, mask: bool, keys: nat -> Key, n: nat)
    requires all == sent + EncodedAll(ThroughClose([f] + later), mask, keys, n)
    ensures all == sent + Encoded(f, mask, keys(n))
                 + if f.opcode == OPCODE_CLOSE then [] else EncodedAll(ThroughClose(later), mask, keys, n + 1)
  {
    hide Encoded;
    hide EncodedAll;
    hide ThroughClose;
    ThroughOne(f, later);
    var next := if f.opcode == OPCODE_CLOSE then [] else ThroughClose(later);
    EncodeOne(f, next, mask, keys, n);
    var first, tail := Encoded(f, mask, keys(n)), EncodedAll(next, mask, keys, n + 1);
    assert sent + (first + tail) == sent + first + tail;
    if f.opcode == OPCODE_CLOSE { EncodeNone(mask, keys, n + 1); }
  }

  lemma ThroughOne(f: Frame, later: seq<Frame>)
    ensures ThroughClose([f] + later) == [f] + if f.opcode == OPCODE_CLOSE then [] else ThroughClose(later)
  {
    assert ([f] + later)[1..] == later;
  }

  lemma EncodeOne(f: Frame, later: seq<Frame>, mask: bool, keys: nat -> Key, n: nat)
    ensures EncodedAll([f] + later, mask, keys, n) == Encoded(f, mask, keys(n)) + EncodedAll(later, mask, keys, n + 1)
  {
    hide Encoded;
    assert ([f] + later)[1..] == later;
  }

  lemma EncodeNone(mask: bool, keys: nat -> Key, n: nat)
    ensures EncodedAll([], mask, keys, n) == []
  {
  }

  /** The pump is transparent: whatever the peer received decodes to a prefix of the input's frames
      through the first close, and to all of them when it received everything. */
  lemma PumpIsTransparent(input: Bytes, mask: bool, keys: nat -> Key, received: nat)
    requires received <= |Relayed(input, mask, keys)|
    ensures var frames := ThroughClose(ReadAll(input).frames);
            var run := ReadAll(Relayed(input, mask, keys)[..received]);
            && run == Run(frames[..WholeFrames(frames, mask, keys, 0, received)], End)
            && (received == |Relayed(input, mask, keys)| ==> run.frames == frames)
  {
    hide Encoded;
    hide ReadFrame;
    var frames := ThroughClose(ReadAll(input).frames);
    StreamReadsBack(frames, mask, keys, 0, received);
    if received == |Relayed(input, mask, keys)| {
      WholeStream(frames, mask, keys, 0, received);
    }
  }
}
