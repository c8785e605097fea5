/** The Minecraft wire format: variable-length integers (unsigned LEB128, section 7.6 of the
    DWARF 5 standard, capped at five groups), strings, frames and the handshake
    (internal/mcproto/protocol.go). */
module Wire {
  import opened Wrappers

  type Bytes = seq<byte>

  datatype WireError = EndOfInput | TooLong | BadString | BadLength | NotAHandshake | BadNextState

  const MAX_PACKET: nat := 0x20_0000
  const MAX_STRING: nat := 32767
  const U32: nat := 0x1_0000_0000

  // ------------------------------------------------------------ specifications

  /** The value read after `k` earlier groups, and what is left of the input. */
  function Groups(s: Bytes, k: nat): Result<(nat, Bytes), WireError>
    decreases |s|
  {
    if k >= 5 then Failure(TooLong)
    else if s == [] then Failure(EndOfInput)
    else if s[0] < 128 then Success((s[0] as nat, s[1..]))
    else
      match Groups(s[1..], k + 1)
      case Failure(e) => Failure(e)
      case Success((v, rest)) => Success((s[0] as nat - 128 + 128 * v, rest))
  }

  function Varint(s: Bytes): Result<(nat, Bytes), WireError> {
    Groups(s, 0)
  }

  /** The shortest group sequence for `u`. */
  function Encode(u: nat): (s: Bytes)
    ensures |s| >= 1
  {
    if u < 128 then [u as byte] else [(128 + u % 128) as byte] + Encode(u / 128)
  }

  function Pow128(k: nat): (p: nat)
    ensures p >= 1
  {
    if k == 0 then 1 else 128 * Pow128(k - 1)
  }

  function Text(s: Bytes): Result<(Bytes, Bytes), WireError> {
    match Varint(s)
    case Failure(e) => Failure(e)
    case Success((n, rest)) =>
      if n > MAX_STRING then Failure(BadString)
      else if |rest| < n then Failure(EndOfInput)
      else Success((rest[..n], rest[n..]))
  }

  function EncodeText(s: Bytes): Bytes {
    Encode(|s| % U32) + s
  }

  function Port(s: Bytes): Result<(nat, Bytes), WireError> {
    if |s| < 2 then Failure(EndOfInput) else Success((256 * (s[0] as nat) + s[1] as nat, s[2..]))
  }

  function Frame(payload: Bytes): Bytes {
    Encode(|payload| % U32) + payload
  }

  datatype Handshake = Handshake(protocol: nat, host: Bytes, port: nat, next: nat, frame: Bytes)

  /** The fields of a handshake payload; bytes after the last field are allowed and kept. */
  function Payload(p: Bytes): Result<Handshake, WireError> {
    match Varint(p)
    case Failure(_) => Failure(NotAHandshake)
    case Success((id, p1)) =>
      if id != 0 then Failure(NotAHandshake)
      else
        match Varint(p1)
        case Failure(e) => Failure(e)
        case Success((protocol, p2)) =>
          match Text(p2)
          case Failure(e) => Failure(e)
          case Success((host, p3)) =>
            match Port(p3)
            case Failure(e) => Failure(e)
            case Success((port, p4)) =>
              match Varint(p4)
              case Failure(e) => Failure(e)
              case Success((next, _)) =>
                if next != 1 && next != 2 then Failure(BadNextState)
                else Success(Handshake(protocol, host, port, next, Frame(p)))
  }

  function Accept(s: Bytes): Result<(Handshake, Bytes), WireError> {
    match Varint(s)
    case Failure(e) => Failure(e)
    case Success((n, rest)) =>
      if n == 0 || n > MAX_PACKET then Failure(BadLength)
      else if |rest| < n then Failure(EndOfInput)
      else
        match Payload(rest[..n])
        case Failure(e) => Failure(e)
        case Success(h) => Success((h, rest[n..]))
  }

  /** The handshake that QueryStatus sends. */
  function Probe(host: Bytes): Bytes {
    Frame(Encode(0) + Encode(767) + EncodeText(host) + [99, 221] + Encode(1))
  }

  // ------------------------------------------------------------- implementation

  /** A stream being read. */
  class Reader {
    var data: Bytes

    constructor (s: Bytes)
      ensures data == s
    {
      data := s;
    }

    /** io.ReadFull: a short read uses up what there is. */
    method Take(n: nat) returns (r: Result<Bytes, WireError>)
      modifies this
      ensures if |old(data)| < n then r == Failure(EndOfInput) && data == []
              else r == Success(old(data)[..n]) && data == old(data)[n..]
    {
      if |data| < n {
        data := [];
        return Failure(EndOfInput);
      }
      r := Success(data[..n]);
      data := data[n..];
    }

    /** ReadVarInt. The mask and the test of a group byte are arithmetic here (GroupBits); the bits
        of a new group lie above every bit read so far, so adding them is the program's bitwise or
        (GroupOr). */
    method ReadVarint() returns (r: Result<nat, WireError>)
      modifies this
      ensures match Varint(old(data))
              case Failure(e) => r == Failure(e)
              case Success((v, rest)) => r == Success(v) && data == rest
    {
      var value := 0;
      var k := 0;
      var scale := 1;
      while true
        invariant 0 <= k <= 5 && scale == Pow128(k) && 0 <= value < scale
        invariant match Groups(data, k)
                  case Failure(e) => Varint(old(data)) == Failure(e)
                  case Success((v, rest)) => Varint(old(data)) == Success((value + scale * v, rest))
        decreases 5 - k
      {
        if k >= 5 {
          return Failure(TooLong);
        }
        ghost var before := data;
        var read := Take(1);
        if read.Failure? {
          return Failure(read.error);
        }
        var b := read.value[0] as nat;
        if b < 128 {
          return Success(value + scale * b);
        }
        var digit := b - 128;
        GroupStep(before, k, value, scale);
        GroupFits(value, scale, digit);
        value := value + scale * digit;
        scale := 128 * scale;
        k := k + 1;
      }
    }

    method ReadText() returns (r: Result<Bytes, WireError>)
      modifies this
      ensures match Text(old(data))
              case Failure(e) => r == Failure(e)
              case Success((s, rest)) => r == Success(s) && data == rest
    {
      var n := ReadVarint();
      if n.Failure? {
        return Failure(n.error);
      }
      if n.value > MAX_STRING {
        return Failure(BadString);
      }
      r := Take(n.value);
    }

    method ReadPort() returns (r: Result<nat, WireError>)
      modifies this
      ensures match Port(old(data))
              case Failure(e) => r == Failure(e)
              case Success((p, rest)) => r == Success(p) && data == rest
    {
      var b := Take(2);
      if b.Failure? {
        return Failure(b.error);
      }
      r := Success(256 * (b.value[0] as nat) + b.value[1] as nat);
    }

    method ReadHandshake() returns (r: Result<Handshake, WireError>)
      modifies this
      ensures match Accept(old(data))
              case Failure(e) => r == Failure(e)
              case Success((h, rest)) => r == Success(h) && data == rest
    {
      var n := ReadVarint();
      if n.Failure? {
        return Failure(n.error);
      }
      if n.value == 0 || n.value > MAX_PACKET {
        return Failure(BadLength);
      }
      var payload := Take(n.value);
      if payload.Failure? {
        return Failure(payload.error);
      }
      r := ReadPayload(payload.value);
    }
  }

  /** The part of ReadHandshake that reads the fields from the payload. */
  method ReadPayload(payload: Bytes) returns (r: Result<Handshake, WireError>)
    ensures r == Payload(payload)
  {
    var pr := new Reader(payload);
    var id := pr.ReadVarint();
    if id.Failure? || id.value != 0 {
      return Failure(NotAHandshake);
    }
    var protocol := pr.ReadVarint();
    if protocol.Failure? {
      return Failure(protocol.error);
    }
    var host := pr.ReadText();
    if host.Failure? {
      return Failure(host.error);
    }
    var port := pr.ReadPort();
    if port.Failure? {
      return Failure(port.error);
    }
    var next := pr.ReadVarint();
    if next.Failure? {
      return Failure(next.error);
    }
    if next.value != 1 && next.value != 2 {
      return Failure(BadNextState);
    }
    r := Success(Handshake(protocol.value, host.value, port.value, next.value, Frame(payload)));
  }

  /** A byte buffer being written. */
  class Buffer {
    var bytes: Bytes

    constructor ()
      ensures bytes == []
    {
      bytes := [];
    }

    method Append(s: Bytes)
      modifies this
      ensures bytes == old(bytes) + s
    {
      bytes := bytes + s;
    }

    /** WriteVarInt: the argument is truncated to 32 bits first. Its masks and shifts are the
        remainders and quotients here (GroupOff, GroupBits). */
    method WriteVarint(v: int)
      modifies this
      ensures bytes == old(bytes) + Encode(v % U32)
    {
      var u := v % U32;
      while true
        invariant 0 <= u < U32
        invariant old(bytes) + Encode(v % U32) == bytes + Encode(u)
        decreases u
      {
        var b := u % 128;
        u := u / 128;
        if u != 0 {
          b := b + 128;
        }
        bytes := bytes + [b as byte];
        if u == 0 {
          return;
        }
      }
    }

    method WriteText(s: Bytes)
      modifies this
      ensures bytes == old(bytes) + EncodeText(s)
    {
      WriteVarint(|s|);
      Append(s);
    }
  }

  /** The bytes that QueryStatus sends before its status request. */
  method BuildProbe(host: Bytes) returns (s: Bytes)
    ensures s == Probe(host)
  {
    var p := new Buffer();
    p.WriteVarint(0);
    assert p.bytes == Encode(0) by { FitsU32(0); }
    p.WriteVarint(767);
    assert p.bytes == Encode(0) + Encode(767) by { FitsU32(767); }
    p.WriteText(host);
    p.Append([99, 221]);
    p.WriteVarint(1);
    assert p.bytes == Encode(0) + Encode(767) + EncodeText(host) + [99, 221] + Encode(1) by { FitsU32(1); }
    var b := new Buffer();
    b.WriteVarint(|p.bytes|);
    b.Append(p.bytes);
    s := b.bytes;
  }

  // ------------------------------------------------------- bits and arithmetic

  /** Masking, testing and marking a group byte. */
  lemma GroupBits(b: bv8)
    ensures (b & 0x7f) as int == b as int % 128
    ensures b & 0x80 == 0 <==> b as int < 128
    ensures b & 0x80 == 0 ==> (b | 0x80) as int == b as int + 128
  {
  }

  /** Placing a group above the bits of the `k` groups read so far adds it. */
  lemma GroupOr(value: bv64, digit: bv64, k: bv64)
    requires k < 5 && digit < 128 && value < (1 << (7 * k))
    ensures value | (digit << (7 * k)) == value + digit * (1 << (7 * k))
    ensures value | (digit << (7 * k)) < (1 << (7 * k + 7))
  {
  }

  /** Taking the lowest group off a 32-bit number. */
  lemma GroupOff(u: bv32)
    ensures u & 0x7f == u % 128 && u >> 7 == u / 128
  {
  }

  lemma GroupFits(value: nat, scale: nat, digit: nat)
    requires value < scale && digit < 128
    ensures value + scale * digit < 128 * scale
  {
    assert scale * digit <= scale * 127;
  }

  lemma GroupStep(s: Bytes, k: nat, value: nat, scale: nat)
    requires k < 5 && s != [] && s[0] >= 128
    ensures match Groups(s[1..], k + 1)
            case Failure(e) => Groups(s, k) == Failure(e)
            case Success((v, rest)) =>
              Groups(s, k).Success? && Groups(s, k).value.1 == rest
              && value + scale * Groups(s, k).value.0 == (value + scale * (s[0] as nat - 128)) + (128 * scale) * v
  {
  }

  // ------------------------------------------------------------------ the codec

  lemma {:induction false} DecodeEncoded(u: nat, k: nat, suffix: Bytes)
    requires k < 5 && u < Pow128(5 - k)
    ensures Groups(Encode(u) + suffix, k) == Success((u, suffix))
    decreases u
  {
    var s := Encode(u) + suffix;
    assert Pow128(1) == 128;
    if u < 128 {
      assert s[1..] == suffix;
    } else {
      assert k < 4;
      assert Pow128(5 - k) == 128 * Pow128(5 - k - 1);
      DecodeEncoded(u / 128, k + 1, suffix);
      assert s[1..] == Encode(u / 128) + suffix;
    }
  }

  lemma FiveGroups()
    ensures Pow128(5) == 0x8_0000_0000
  {
    assert Pow128(2) == 16384;
    assert Pow128(4) == 16384 * 16384;
  }

  /** Every integer comes back as its value modulo 2^32 with exactly the suffix left; a negative
      32-bit value therefore comes back as v + 2^32. */
  lemma VarintRoundTrip(v: int, suffix: Bytes)
    ensures Varint(Encode(v % U32) + suffix) == Success((v % U32, suffix))
    ensures 0 <= v < U32 ==> v % U32 == v
    ensures -0x8000_0000 <= v < 0 ==> v % U32 == v + U32
  {
    FiveGroups();
    DecodeEncoded(v % U32, 0, suffix);
  }

  /** What any accepted group sequence tells: its length, the bound on its value, and that the
      written form is the shortest one and the only one of that length. */
  lemma {:induction false} AnyDecoding(s: Bytes, k: nat)
    requires Groups(s, k).Success?
    ensures var (v, rest) := Groups(s, k).value;
            var n := |s| - |rest|;
            && 1 <= n <= 5 - k && rest == s[n..]
            && v < Pow128(5 - k)
            && |Encode(v)| <= n
            && (|Encode(v)| == n <==> s[..n] == Encode(v))
    decreases |s|
  {
    assert Pow128(5 - k) == 128 * Pow128(5 - k - 1);
    if s[0] >= 128 {
      AnyDecoding(s[1..], k + 1);
      var (v1, rest) := Groups(s[1..], k + 1).value;
      var n := |s| - |rest|;
      var v := s[0] as nat - 128 + 128 * v1;
      assert s[n..] == s[1..][n - 1..];
      assert s[..n] == [s[0]] + s[1..][..n - 1];
      if v1 > 0 {
        assert v / 128 == v1 && v % 128 == s[0] as nat - 128;
        assert Encode(v) == [s[0]] + Encode(v1);
      } else {
        assert Encode(v) == [v as byte];
        assert s[..n][0] == s[0];
      }
    } else {
      assert s[..1] == [s[0]];
    }
  }

  /** Reading consumes at most five bytes, yields less than 2^35, and no byte string shorter than
      the written one decodes to the same value. */
  lemma VarintMinimal(s: Bytes)
    requires Varint(s).Success?
    ensures var (v, rest) := Varint(s).value;
            var n := |s| - |rest|;
            && 1 <= n <= 5 && rest == s[n..] && v < 0x8_0000_0000
            && |Encode(v)| <= n && (|Encode(v)| == n <==> s[..n] == Encode(v))
  {
    FiveGroups();
    AnyDecoding(s, 0);
  }

  // -------------------------------------------------------------- the handshake

  /** A written string reads back exactly when it is at most 32767 bytes long. Its length is
      written modulo 2^32, so a longer one is refused, or read as one of its beginnings. */
  lemma TextRoundTrip(s: Bytes, suffix: Bytes)
    ensures Text(EncodeText(s) + suffix) == Success((s, suffix)) <==> |s| <= MAX_STRING
    ensures |s| > MAX_STRING ==>
              Text(EncodeText(s) + suffix) ==
              if |s| % U32 <= MAX_STRING then Success((s[..|s| % U32], s[|s| % U32..] + suffix)) else Failure(BadString)
  {
    var n := |s| % U32;
    VarintRoundTrip(|s|, s + suffix);
    assert EncodeText(s) + suffix == Encode(n) + (s + suffix);
    if n <= MAX_STRING {
      assert (s + suffix)[..n] == s[..n] && (s + suffix)[n..] == s[n..] + suffix;
      if |s| <= MAX_STRING {
        FitsU32(|s|);
        assert s[..n] == s && s[n..] + suffix == suffix;
      } else {
        assert |s[..n]| < |s|;
      }
    } else {
      assert |s| > MAX_STRING;
    }
  }

  lemma FrameOpens(payload: Bytes, suffix: Bytes)
    requires |payload| < U32
    ensures Varint(Frame(payload) + suffix) == Success((|payload|, payload + suffix))
  {
    VarintRoundTrip(|payload|, payload + suffix);
    assert Frame(payload) + suffix == Encode(|payload|) + (payload + suffix);
  }

  /** An accepted stream is a length prefix, the payload, and what is left. */
  lemma AcceptedShape(s: Bytes)
    requires Accept(s).Success?
    ensures var (n, body) := Varint(s).value;
            var (h, rest) := Accept(s).value;
            var p := |s| - |body|;
            && 1 <= p <= 5 && 0 < n <= MAX_PACKET && p + n + |rest| == |s|
            && rest == s[p + n..] && body[..n] == s[p..p + n]
            && Payload(s[p..p + n]) == Success(h)
            && |Encode(n)| <= p && (|Encode(n)| == p <==> s[..p] == Encode(n))
  {
    VarintMinimal(s);
    var (n, body) := Varint(s).value;
    var p := |s| - |body|;
    assert body == s[p..];
    assert body[..n] == s[p..p + n] && body[n..] == s[p + n..];
  }

  /** The pieces of an accepted stream: `a` is its length prefix, `payload` its payload. */
  lemma AcceptedPieces(s: Bytes) returns (a: Bytes, payload: Bytes)
    requires Accept(s).Success?
    ensures var (h, rest) := Accept(s).value;
            && s == a + payload + rest && |a| >= 1
            && 0 < |payload| <= MAX_PACKET && Payload(payload) == Success(h)
            && |Encode(|payload|)| <= |a| && (|Encode(|payload|)| == |a| <==> a == Encode(|payload|))
  {
    AcceptedShape(s);
    var (n, body) := Varint(s).value;
    var p := |s| - |body|;
    Slices(s, p, n);
    a, payload := s[..p], s[p..p + n];
  }

  lemma FrameOfPayload(payload: Bytes)
    requires Payload(payload).Success? && |payload| < U32
    ensures Payload(payload).value.frame == Encode(|payload|) + payload
  {
    FitsU32(|payload|);
    assert Payload(payload).value.frame == Frame(payload);
  }

  lemma FitsU32(n: nat)
    requires n < U32
    ensures n % U32 == n
  {
  }

  /** For every accepted stream, parsing the forwarded frame succeeds, consumes all of it and
      gives the same handshake; the frame is the consumed bytes themselves exactly when their
      length prefix was written in its shortest form. */
  lemma HandshakeReplay(s: Bytes)
    requires Accept(s).Success?
    ensures |Accept(s).value.1| < |s|
    ensures var (h, rest) := Accept(s).value;
            var used := s[..|s| - |rest|];
            && s == used + rest
            && Accept(h.frame) == Success((h, []))
            && |h.frame| <= |used|
            && (h.frame == used <==> |h.frame| == |used|)
  {
    var a, payload := AcceptedPieces(s);
    var h, rest := Accept(s).value.0, Accept(s).value.1;
    FrameOfPayload(payload);
    FrameReplays(payload, h);
    SamePayload(Encode(|payload|), a, payload);
    assert s[..|s| - |rest|] == a + payload;
  }

  lemma Slices(s: Bytes, p: nat, n: nat)
    requires p + n <= |s|
    ensures |s[p..p + n]| == n && s[..p + n] == s[..p] + s[p..p + n] && s == s[..p + n] + s[p + n..]
  {
  }

  lemma SamePayload(a: Bytes, b: Bytes, payload: Bytes)
    requires |a| <= |b| && (|a| == |b| <==> b == a)
    ensures |a + payload| <= |b + payload|
    ensures a + payload == b + payload <==> |a + payload| == |b + payload|
  {
  }

  lemma FrameReplays(payload: Bytes, h: Handshake)
    requires 0 < |payload| <= MAX_PACKET && Payload(payload) == Success(h)
    ensures Accept(Frame(payload)) == Success((h, []))
  {
    FrameOpens(payload, []);
    assert Frame(payload) + [] == Frame(payload) && payload + [] == payload;
    assert payload[..|payload|] == payload && payload[|payload|..] == [];
  }

  /** No accepted handshake has a host beyond a protocol string. */
  lemma AcceptedHostFits(s: Bytes)
    requires Accept(s).Success?
    ensures |Accept(s).value.0.host| <= MAX_STRING
  {
  }

  /** The probe for a host parses back to exactly what was asked, leaving what follows it, if and
      only if the host fits a protocol string. */
  lemma ProbeAccepted(host: Bytes, suffix: Bytes)
    ensures Accept(Probe(host) + suffix) == Success((Handshake(767, host, 25565, 1, Probe(host)), suffix))
            <==> |host| <= MAX_STRING
    ensures MAX_STRING < |host| < 0x8000_0000 ==> Accept(Probe(host) + suffix).Failure?
  {
    if |host| < 0x8000_0000 {
      ShortProbe(host, suffix);
    }
    if Accept(Probe(host) + suffix).Success? {
      AcceptedHostFits(Probe(host) + suffix);
    }
  }

  lemma ShortProbe(host: Bytes, suffix: Bytes)
    requires |host| < 0x8000_0000
    ensures |host| <= MAX_STRING ==>
              Accept(Probe(host) + suffix) == Success((Handshake(767, host, 25565, 1, Probe(host)), suffix))
    ensures |host| > MAX_STRING ==> Accept(Probe(host) + suffix).Failure?
  {
    var tail := [99 as byte, 221] + Encode(1);
    var p3 := EncodeText(host) + tail;
    var p2 := Encode(767) + p3;
    var payload := Encode(0) + p2;
    assert payload == Encode(0) + Encode(767) + EncodeText(host) + [99, 221] + Encode(1);
    ShortEncodings(|host|);
    FrameOpens(payload, suffix);
    assert (payload + suffix)[..|payload|] == payload && (payload + suffix)[|payload|..] == suffix;
    ProbePayload(host, payload);
  }

  lemma ProbePayload(host: Bytes, payload: Bytes)
    requires |host| < U32
    requires payload == Encode(0) + (Encode(767) + (EncodeText(host) + ([99, 221] + Encode(1))))
    ensures Payload(payload) == if |host| <= MAX_STRING then Success(Handshake(767, host, 25565, 1, Frame(payload)))
                                else Failure(BadString)
  {
    var tail := [99 as byte, 221] + Encode(1);
    var p3 := EncodeText(host) + tail;
    VarintRoundTrip(0, Encode(767) + p3);
    VarintRoundTrip(767, p3);
    FitsU32(|host|);
    TextRoundTrip(host, tail);
    VarintRoundTrip(1, []);
    assert Encode(1) + [] == Encode(1);
    assert tail[2..] == Encode(1);
  }

  lemma ShortEncodings(n: nat)
    requires n < 0x8000_0000
    ensures |Encode(0)| == 1 && |Encode(1)| == 1 && |Encode(767)| == 2 && |Encode(n)| <= 5
  {
    VarintRoundTrip(n, []);
    VarintMinimal(Encode(n) + []);
  }

  // ------------------------------------------------------ exactly what is accepted

  /** The parts of a handshake on the wire, in their order. */
  datatype Parts = Parts(
    length: Bytes, id: Bytes, protocol: Bytes, hostLength: Bytes, host: Bytes,
    high: byte, low: byte, next: Bytes, trailing: Bytes)

  function Fields(p: Parts): Bytes {
    p.id + (p.protocol + (p.hostLength + (p.host + ([p.high, p.low] + (p.next + p.trailing)))))
  }

  /** The bytes `s` are a group sequence for `v`, not necessarily the shortest. */
  ghost predicate Spells(s: Bytes, v: nat) {
    Varint(s) == Success((v, []))
  }

  /** `p` spells the fields of `h`, whose frame has the shortest length prefix. */
  ghost predicate SpellsHandshake(p: Parts, h: Handshake) {
    && Spells(p.length, |Fields(p)|) && 0 < |Fields(p)| <= 2097152
    && Spells(p.id, 0) && Spells(p.protocol, h.protocol)
    && Spells(p.hostLength, |p.host|) && |p.host| <= 32767 && h.host == p.host
    && h.port == 256 * (p.high as nat) + p.low as nat
    && Spells(p.next, h.next) && (h.next == 1 || h.next == 2)
    && h.frame == Encode(|Fields(p)|) + Fields(p)
  }

  /** A group sequence ends by itself, whatever follows. */
  lemma {:induction false} GroupsExtend(s: Bytes, k: nat, suffix: Bytes)
    requires Groups(s, k).Success?
    ensures Groups(s + suffix, k) == Success((Groups(s, k).value.0, Groups(s, k).value.1 + suffix))
    decreases |s|
  {
    var all := s + suffix;
    assert all[0] == s[0] && all[1..] == s[1..] + suffix;
    if s[0] >= 128 {
      GroupsExtend(s[1..], k + 1, suffix);
    }
  }

  lemma SpelledReads(s: Bytes, v: nat, suffix: Bytes)
    requires Spells(s, v)
    ensures Varint(s + suffix) == Success((v, suffix))
  {
    GroupsExtend(s, 0, suffix);
    assert [] + suffix == suffix;
  }

  /** What was read was spelled. */
  lemma ReadIsSpelled(s: Bytes) returns (a: Bytes)
    requires Varint(s).Success?
    ensures s == a + Varint(s).value.1 && Spells(a, Varint(s).value.0) && |a| >= 1
  {
    VarintMinimal(s);
    var n := |s| - |Varint(s).value.1|;
    a := s[..n];
    assert s == a + s[n..];
    GroupsPrefix(s, 0, n);
  }

  lemma {:induction false} GroupsPrefix(s: Bytes, k: nat, n: nat)
    requires Groups(s, k).Success? && n <= |s| && Groups(s, k).value.1 == s[n..] && n == |s| - |Groups(s, k).value.1|
    ensures Groups(s[..n], k) == Success((Groups(s, k).value.0, []))
    decreases |s|
  {
    AnyDecoding(s, k);
    assert s[..n][0] == s[0];
    if s[0] >= 128 {
      var rest := Groups(s[1..], k + 1).value.1;
      AnyDecoding(s[1..], k + 1);
      assert s[1..][n - 1..] == s[n..];
      GroupsPrefix(s[1..], k + 1, n - 1);
      assert s[..n][1..] == s[1..][..n - 1];
    } else {
      assert s[1..] == s[n..] && n == 1;
      assert s[..1][1..] == [];
    }
  }

  /** Every stream that begins with a well-spelled handshake is accepted, with exactly its fields. */
  lemma WellSpelledAccepted(p: Parts, h: Handshake, rest: Bytes)
    requires SpellsHandshake(p, h)
    ensures Accept(p.length + Fields(p) + rest) == Success((h, rest))
  {
    var payload := Fields(p);
    SpelledReads(p.length, |payload|, payload + rest);
    assert p.length + payload + rest == p.length + (payload + rest);
    assert (payload + rest)[..|payload|] == payload && (payload + rest)[|payload|..] == rest;
    WellSpelledPayload(p, h);
  }

  lemma WellSpelledPayload(p: Parts, h: Handshake)
    requires SpellsHandshake(p, h)
    ensures Payload(Fields(p)) == Success(h)
  {
    var p5 := p.next + p.trailing;
    var p4 := [p.high, p.low] + p5;
    var p3 := p.host + p4;
    var p2 := p.hostLength + p3;
    SpelledReads(p.id, 0, p.protocol + p2);
    SpelledReads(p.protocol, h.protocol, p2);
    SpelledText(p.hostLength, p.host, p4);
    SpelledPort(p.high, p.low, p5);
    SpelledReads(p.next, h.next, p.trailing);
    FitsU32(|Fields(p)|);
  }

  lemma SpelledText(length: Bytes, s: Bytes, suffix: Bytes)
    requires Spells(length, |s|) && |s| <= MAX_STRING
    ensures Text(length + (s + suffix)) == Success((s, suffix))
  {
    SpelledReads(length, |s|, s + suffix);
    assert (s + suffix)[..|s|] == s && (s + suffix)[|s|..] == suffix;
  }

  lemma SpelledPort(high: byte, low: byte, suffix: Bytes)
    ensures Port([high, low] + suffix) == Success((256 * (high as nat) + low as nat, suffix))
  {
    assert ([high, low] + suffix)[2..] == suffix;
  }

  /** Every accepted stream begins with a well-spelled handshake. */
  lemma AcceptedIsSpelled(s: Bytes) returns (p: Parts)
    requires Accept(s).Success?
    ensures SpellsHandshake(p, Accept(s).value.0)
    ensures s == p.length + Fields(p) + Accept(s).value.1
  {
    var a := ReadIsSpelled(s);
    var (n, body) := Varint(s).value;
    var payload, rest := body[..n], body[n..];
    assert body == payload + rest;
    p := PayloadIsSpelled(payload, a);
  }

  lemma PayloadIsSpelled(payload: Bytes, length: Bytes) returns (p: Parts)
    requires Payload(payload).Success? && 0 < |payload| <= MAX_PACKET && Spells(length, |payload|)
    ensures p.length == length && Fields(p) == payload && SpellsHandshake(p, Payload(payload).value)
  {
    var id := ReadIsSpelled(payload);
    var p1 := Varint(payload).value.1;
    var protocol := ReadIsSpelled(p1);
    var p2 := Varint(p1).value.1;
    var hostLength := ReadIsSpelled(p2);
    var (n, p3) := Varint(p2).value;
    var host, p4 := p3[..n], p3[n..];
    assert p3 == host + p4;
    var p5 := p4[2..];
    assert p4 == [p4[0], p4[1]] + p5;
    var next := ReadIsSpelled(p5);
    p := Parts(length, id, protocol, hostLength, host, p4[0], p4[1], next, Varint(p5).value.1);
    assert Fields(p) == payload;
    FitsU32(|payload|);
  }

  /** What is accepted, exactly: a stream yields a handshake and a rest if and only if it is some
      spelling of that handshake followed by that rest. */
  lemma AcceptsExactly(s: Bytes, h: Handshake, rest: Bytes)
    ensures Accept(s) == Success((h, rest)) <==>
            exists p :: SpellsHandshake(p, h) && s == p.length + Fields(p) + rest
  {
    if Accept(s) == Success((h, rest)) {
      var p := AcceptedIsSpelled(s);
    }
    forall p | SpellsHandshake(p, h) && s == p.length + Fields(p) + rest
      ensures Accept(s) == Success((h, rest))
    {
      WellSpelledAccepted(p, h, rest);
    }
  }

  /** A handshake with the given fields, written in the shortest form, reads back to exactly these
      fields whatever follows: any protocol, host, port, either next state, and any trailing bytes
      that the packet limit leaves room for. */
  lemma HandshakeComplete(protocol: nat, host: Bytes, port: nat, next: nat, trailing: Bytes, suffix: Bytes)
    requires protocol < 4294967296 && |host| <= 32767 && port < 65536 && (next == 1 || next == 2)
    ensures var payload := [0] + (Encode(protocol) + (Encode(|host|) + (host +
                           ([(port / 256) as byte, (port % 256) as byte] + ([next as byte] + trailing)))));
            |payload| <= 2097152 ==>
              Accept(Encode(|payload|) + payload + suffix)
              == Success((Handshake(protocol, host, port, next, Encode(|payload|) + payload), suffix))
  {
    assert Encode(0) == [0] && Encode(next) == [next as byte];
    var p := Parts([], [0], Encode(protocol), Encode(|host|), host,
                   (port / 256) as byte, (port % 256) as byte, [next as byte], trailing);
    var payload := Fields(p);
    if |payload| <= 2097152 {
      p := p.(length := Encode(|payload|));
      ShortestSpells(|payload|);
      ShortestSpells(0);
      ShortestSpells(protocol);
      ShortestSpells(|host|);
      ShortestSpells(next);
      WellSpelledAccepted(p, Handshake(protocol, host, port, next, Encode(|payload|) + payload), suffix);
    }
  }

  lemma ShortestSpells(v: nat)
    requires v < U32
    ensures Spells(Encode(v), v)
  {
    VarintRoundTrip(v, []);
    FitsU32(v);
    assert Encode(v) + [] == Encode(v);
  }

  lemma EncodeMore(u: nat)
    requires u >= 128
    ensures Encode(u) == [(128 + u % 128) as byte] + Encode(u / 128)
  {
  }

  /** Known encodings: groups of seven bits, the lowest first, all but the last marked. */
  lemma KnownVarints()
    ensures Encode(0) == [0] && Encode(127) == [127] && Encode(128) == [0x80, 1]
    ensures Encode(25565) == [0xdd, 0xc7, 1] && Encode(2097151) == [0xff, 0xff, 0x7f]
    ensures Encode(4294967295) == [0xff, 0xff, 0xff, 0xff, 0x0f]
  {
    EncodeMore(128);
    EncodeMore(25565);
    EncodeMore(199);
    EncodeMore(2097151);
    EncodeMore(16383);
    EncodeMore(4294967295);
    EncodeMore(33554431);
    EncodeMore(262143);
    EncodeMore(2047);
  }

  /** After five marked groups a number is refused as too long; before that, an input that ends inside it
      is refused as cut off. */
  lemma {:induction false} MarkedGroups(s: Bytes, k: nat)
    requires k <= 5 && forall i :: 0 <= i < |s| && i < 5 - k ==> s[i] >= 128
    ensures Groups(s, k) == if |s| >= 5 - k then Failure(TooLong) else Failure(EndOfInput)
    decreases |s|
  {
    if k < 5 && s != [] {
      MarkedGroups(s[1..], k + 1);
    }
  }
}
