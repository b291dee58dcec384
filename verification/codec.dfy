/**
 * The byte layout of the agent connection (monitor/src/server.rs): a frame is
 * a big-endian u32 length followed by that many bytes; after the handshake a
 * frame's bytes are a 12-byte nonce followed by the AES-256-GCM sealing of
 * "SKNT" and the encoded message; the handshake frame is an ECIES envelope
 * around a 32-byte session key followed by the agent's uid.
 *
 * The cryptography, the protobuf codec and the lossy UTF-8 decoding are not
 * modelled: they are the function values of a `Suite`, and `Sound` states the
 * only facts about them the proofs use.
 */
module Codec {
  import opened Wrappers
  import opened Types
  import opened Messages

  /** MAX_MESSAGE_SIZE: 128 MiB. */
  const MAX_MESSAGE_SIZE: nat := 1024 * 1024 * 128
  /** The frame limit while no session key exists yet. */
  const HANDSHAKE_LIMIT: nat := 256
  const AES256_KEY_SIZE: nat := 32
  const NONCE_SIZE: nat := 12
  /** MAGIC_NUMBER, the bytes of "SKNT". */
  const MAGIC: Bytes := [83, 75, 78, 84]

  datatype Error =
    | UnexpectedEof          // a read returned zero bytes
    | InvalidData            // a length over the limit
    | IoFailure              // the socket reported an error
    | LengthOverflow         // a payload length that does not fit a u32
    | DecryptFailed          // the AEAD or ECIES layer refused the bytes
    | InvalidMagic           // "Invalid magic number"
    | DecodeFailed           // the protobuf decoder refused the bytes
    | InvalidHandshakeData   // "Invalid handshake data"
    | ShortFrame             // a sealed frame too short to hold a nonce

  /** The primitives the framing layer relies on but does not define. */
  datatype Suite = Suite(
    seal: (Bytes, Bytes, Bytes) -> Bytes,          // AES-256-GCM encrypt(key, nonce, plain)
    open: (Bytes, Bytes, Bytes) -> Option<Bytes>,  // AES-256-GCM decrypt(key, nonce, sealed)
    unwrap: (Bytes, Bytes) -> Option<Bytes>,       // ECIES decrypt(secret key, envelope)
    encode: Message -> Bytes,                      // protobuf encoding
    decode: Bytes -> Option<Message>,              // protobuf decoding
    lossy: Bytes -> string)                        // String::from_utf8_lossy

  /** Decryption undoes encryption under the same key and nonce, and decoding undoes encoding. */
  ghost predicate Sound(s: Suite) {
    (forall k, n, p :: s.open(k, n, s.seal(k, n, p)) == Some(p)) &&
    (forall m :: s.decode(s.encode(m)) == Some(m))
  }

  // ---------------------------------------------------------------------
  // Big-endian u32
  // ---------------------------------------------------------------------

  /** `u32::to_be_bytes`, as written by `write_u32`. */
  function BeBytes(n: U32): (b: Bytes)
    ensures |b| == 4
  {
    var q1 := n / 0x100;
    var q2 := q1 / 0x100;
    [q2 / 0x100, q2 % 0x100, q1 % 0x100, n % 0x100]
  }

  /** `u32::from_be_bytes`. */
  function FromBe(b: Bytes): (n: U32)
    requires |b| == 4
  {
    ((b[0] as int * 0x100 + b[1]) * 0x100 + b[2]) * 0x100 + b[3]
  }

  lemma DivMod256(q: int, r: int)
    requires 0 <= r < 0x100
    ensures (q * 0x100 + r) / 0x100 == q && (q * 0x100 + r) % 0x100 == r
  {
  }

  lemma {:induction false} BeRoundTrip(n: U32)
    ensures FromBe(BeBytes(n)) == n
  {
    var q1 := n / 0x100;
    var q2 := q1 / 0x100;
    assert n == q1 * 0x100 + n % 0x100;
    assert q1 == q2 * 0x100 + q1 % 0x100;
    assert q2 == (q2 / 0x100) * 0x100 + q2 % 0x100;
  }

  lemma {:induction false} FromBeRoundTrip(b: Bytes)
    requires |b| == 4
    ensures BeBytes(FromBe(b)) == b
  {
    var x2 := b[0] as int * 0x100 + b[1];
    var x1 := x2 * 0x100 + b[2];
    var n := x1 * 0x100 + b[3];
    assert n == FromBe(b);
    DivMod256(x1, b[3]);
    DivMod256(x2, b[2]);
    DivMod256(b[0], b[1]);
  }

  // ---------------------------------------------------------------------
  // Length-prefixed frames
  // ---------------------------------------------------------------------

  /** What `Frame::send` writes for `p`: the length as a big-endian u32, then the bytes. */
  function EncodeFrame(p: Bytes): (b: Bytes)
    requires |p| < U32_LIMIT
    ensures |b| == 4 + |p| && b[4..] == p && FromBe(b[..4]) == |p|
  {
    BeRoundTrip(|p|);
    BeBytes(|p|) + p
  }

  datatype Decoded = Incomplete | Rejected(error: Error) | Complete(payload: Bytes, rest: Bytes)

  /**
   * A reference reader for a byte string: the frame `Frame::read(limit)` takes
   * off its front, once all of its bytes have arrived.
   */
  function DecodeFrame(b: Bytes, limit: nat): (d: Decoded)
    ensures d.Complete? ==> |d.payload| <= limit && |d.payload| < U32_LIMIT && b == EncodeFrame(d.payload) + d.rest
    ensures d.Rejected? ==> d.error == InvalidData && |b| >= 4 && FromBe(b[..4]) > limit
    ensures d.Incomplete? ==> |b| < 4 || |b| < 4 + FromBe(b[..4])
    ensures |b| >= 4 && FromBe(b[..4]) > limit ==> d == Rejected(InvalidData)
    ensures |b| >= 4 && FromBe(b[..4]) <= limit && |b| >= 4 + FromBe(b[..4]) ==> d.Complete?
  {
    if |b| < 4 then Incomplete
    else
      var n := FromBe(b[..4]);
      if n > limit then Rejected(InvalidData)
      else if |b| < 4 + n then Incomplete
      else
        var p := b[4..4 + n];
        FromBeRoundTrip(b[..4]);
        assert b == EncodeFrame(p) + b[4 + n..];
        Complete(p, b[4 + n..])
  }

  /** A frame written by `send` is read back whole by `read`, whatever follows it. */
  lemma FrameRoundTrip(p: Bytes, rest: Bytes, limit: nat)
    requires |p| <= limit && |p| < U32_LIMIT
    ensures DecodeFrame(EncodeFrame(p) + rest, limit) == Complete(p, rest)
  {
    var b := EncodeFrame(p) + rest;
    assert b[..4] == EncodeFrame(p)[..4];
    assert b[4..4 + |p|] == p;
    assert b[4 + |p|..] == rest;
  }

  /** Frames are self-delimiting: the bytes of one frame and what follows it determine both. */
  lemma FramesSelfDelimiting(p: Bytes, q: Bytes, a: Bytes, b: Bytes)
    requires |p| < U32_LIMIT && |q| < U32_LIMIT
    requires EncodeFrame(p) + a == EncodeFrame(q) + b
    ensures p == q && a == b
  {
    var x := EncodeFrame(p) + a;
    assert x[..4] == EncodeFrame(p)[..4] && x[..4] == EncodeFrame(q)[..4];
    assert |p| == |q|;
    assert p == x[4..4 + |p|] == q;
    assert a == x[4 + |p|..] == b;
  }

  // ---------------------------------------------------------------------
  // Sealed messages
  // ---------------------------------------------------------------------

  /** `send_msg`: the nonce, then the sealing of the magic prefix and the encoded message. */
  function Seal(s: Suite, key: Bytes, nonce: Bytes, m: Message): (c: Bytes)
    ensures |c| >= |nonce| && c[..|nonce|] == nonce
    ensures Sound(s) ==> s.open(key, nonce, c[|nonce|..]) == Some(MAGIC + s.encode(m))
  {
    nonce + s.seal(key, nonce, MAGIC + s.encode(m))
  }

  /**
   * The post-handshake branch of `read_msg`: split off the nonce, open the
   * rest, check the magic prefix and decode what follows it. A frame shorter
   * than a nonce is refused with ShortFrame.
   */
  function Unseal(s: Suite, key: Bytes, buf: Bytes): (r: Result<Message, Error>)
    ensures |buf| < NONCE_SIZE ==> r == Err(ShortFrame)
    ensures r.Ok? ==> (|buf| >= NONCE_SIZE &&
      var plain := s.open(key, buf[..NONCE_SIZE], buf[NONCE_SIZE..]);
      plain.Some? && |plain.value| >= 4 && plain.value[..4] == MAGIC && s.decode(plain.value[4..]) == Some(r.value))
    ensures r == Err(InvalidMagic) ==>
      var plain := s.open(key, buf[..NONCE_SIZE], buf[NONCE_SIZE..]);
      plain.Some? && !(|plain.value| >= 4 && plain.value[..4] == MAGIC)
    ensures |buf| >= NONCE_SIZE ==>
      var plain := s.open(key, buf[..NONCE_SIZE], buf[NONCE_SIZE..]);
      && (plain.None? ==> r == Err(DecryptFailed))
      && (plain.Some? && !(|plain.value| >= 4 && plain.value[..4] == MAGIC) ==> r == Err(InvalidMagic))
      && (plain.Some? && |plain.value| >= 4 && plain.value[..4] == MAGIC && s.decode(plain.value[4..]).None? ==> r == Err(DecodeFailed))
  {
    if |buf| < NONCE_SIZE then Err(ShortFrame)
    else
      match s.open(key, buf[..NONCE_SIZE], buf[NONCE_SIZE..])
      case None => Err(DecryptFailed)
      case Some(plain) =>
        if !(|plain| >= 4 && plain[..4] == MAGIC) then Err(InvalidMagic)
        else
          match s.decode(plain[4..])
          case None => Err(DecodeFailed)
          case Some(m) => Ok(m)
  }

  /**
   * The post-handshake branch of `read_msg` as written: `&buf[0..12]` is
   * taken without a length check, so the branch is only defined for frames
   * of at least twelve bytes; on a shorter one the slice panics.
   */
  function UnsealAsWritten(s: Suite, key: Bytes, buf: Bytes): (r: Result<Message, Error>)
    requires |buf| >= NONCE_SIZE
    ensures r == Unseal(s, key, buf)
  {
    match s.open(key, buf[..NONCE_SIZE], buf[NONCE_SIZE..])
    case None => Err(DecryptFailed)
    case Some(plain) =>
      if !(|plain| >= 4 && plain[..4] == MAGIC) then Err(InvalidMagic)
      else
        match s.decode(plain[4..])
        case None => Err(DecodeFailed)
        case Some(m) => Ok(m)
  }

  /**
   * The length check of `Frame::read` lets a post-handshake frame of one byte
   * through, although `UnsealAsWritten` is not defined on it: the slice in
   * `read_msg` panics where `Unseal` answers ShortFrame.
   */
  lemma ShortSealedFrameAccepted()
    ensures var d := DecodeFrame(EncodeFrame([0]), MAX_MESSAGE_SIZE);
      d == Complete([0], []) && |d.payload| < NONCE_SIZE
    ensures forall s: Suite, key: Bytes :: Unseal(s, key, [0]) == Err(ShortFrame)
  {
    FrameRoundTrip([0], [], MAX_MESSAGE_SIZE);
    assert EncodeFrame([0]) + [] == EncodeFrame([0]);
  }

  /** Whatever one side seals under the session key, the other side unseals to the same message. */
  lemma SealRoundTrip(s: Suite, key: Bytes, nonce: Bytes, m: Message)
    requires Sound(s) && |nonce| == NONCE_SIZE
    ensures Unseal(s, key, Seal(s, key, nonce, m)) == Ok(m)
  {
    var buf := Seal(s, key, nonce, m);
    assert buf[..NONCE_SIZE] == nonce && buf[NONCE_SIZE..] == s.seal(key, nonce, MAGIC + s.encode(m));
    var plain := MAGIC + s.encode(m);
    assert s.open(key, nonce, s.seal(key, nonce, plain)) == Some(plain);
    assert plain[..4] == MAGIC && plain[4..] == s.encode(m);
    assert s.decode(s.encode(m)) == Some(m);
  }

  /**
   * The handshake branch of `read_msg`: the opened envelope must be longer
   * than a key; its first 32 bytes are the session key, the rest the uid.
   */
  function OpenHandshake(s: Suite, sk: Bytes, buf: Bytes): (r: Result<(Bytes, string), Error>)
    ensures s.unwrap(sk, buf).None? ==> r == Err(DecryptFailed)
    ensures s.unwrap(sk, buf).Some? && |s.unwrap(sk, buf).value| <= AES256_KEY_SIZE ==> r == Err(InvalidHandshakeData)
    ensures r.Ok? <==> s.unwrap(sk, buf).Some? && |s.unwrap(sk, buf).value| > AES256_KEY_SIZE
    ensures r.Ok? ==> (|r.value.0| == AES256_KEY_SIZE &&
      var data := s.unwrap(sk, buf).value;
      r.value.0 == data[..AES256_KEY_SIZE] && r.value.1 == s.lossy(data[AES256_KEY_SIZE..]))
  {
    match s.unwrap(sk, buf)
    case None => Err(DecryptFailed)
    case Some(data) =>
      if |data| > AES256_KEY_SIZE then Ok((data[..AES256_KEY_SIZE], s.lossy(data[AES256_KEY_SIZE..])))
      else Err(InvalidHandshakeData)
  }

  /** An envelope around a 32-byte key and a non-empty uid yields exactly that key and uid. */
  lemma HandshakeSplit(s: Suite, sk: Bytes, buf: Bytes, key: Bytes, uid: Bytes)
    requires |key| == AES256_KEY_SIZE && |uid| > 0 && s.unwrap(sk, buf) == Some(key + uid)
    ensures OpenHandshake(s, sk, buf) == Ok((key, s.lossy(uid)))
  {
    assert (key + uid)[..AES256_KEY_SIZE] == key;
    assert (key + uid)[AES256_KEY_SIZE..] == uid;
  }
}
