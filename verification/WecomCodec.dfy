/** The WeCom message codec: framing, 32-byte PKCS#7 padding, CBC over an
    invertible block cipher, and base64. */
module WecomCodec {
  import opened Common

  type Byte = n: int | 0 <= n < 256
  type Bytes = seq<Byte>

  // ---- padding (section 6.3 of RFC 5652, with a block of 32) ----

  const PAD_BLOCK: nat := 32

  function Fill(n: Byte): Bytes { seq(n, _ => n) }

  lemma PaddedLength(n: nat)
    ensures (n + (PAD_BLOCK - n % PAD_BLOCK)) % PAD_BLOCK == 0
    ensures (n + (PAD_BLOCK - n % PAD_BLOCK)) % BLOCK == 0
  {
    var blocks := n / 32 + 1;
    assert n == 32 * (n / 32) + n % 32;
    assert n + (PAD_BLOCK - n % PAD_BLOCK) == 32 * blocks == 16 * (2 * blocks);
  }

  function Pad(text: Bytes): (r: Bytes)
    ensures |r| % 32 == 0 && |r| % BLOCK == 0
    ensures text < r && |r| - |text| <= 32
    ensures forall i :: |text| <= i < |r| ==> r[i] == |r| - |text|
  {
    PaddedLength(|text|);
    text + Fill(PAD_BLOCK - |text| % PAD_BLOCK)
  }

  /** `text[:-text[-1]]`, with Python's clamping; empty input raises. */
  function Unpad(text: Bytes): Option<Bytes> {
    if text == [] then None
    else
      var padLen := text[|text| - 1];
      if padLen == 0 || padLen > |text| then Some([]) else Some(text[..|text| - padLen])
  }

  lemma UnpadPad(text: Bytes)
    ensures Unpad(Pad(text)) == Some(text)
  {
  }

  // ---- CBC (section 6.2 of NIST SP 800-38A) ----

  const BLOCK: nat := 16

  function XorBits(a: nat, b: nat, bits: nat): (r: nat)
    decreases bits
  {
    if bits == 0 then 0
    else (if a % 2 == b % 2 then 0 else 1) + 2 * XorBits(a / 2, b / 2, bits - 1)
  }

  lemma {:induction false} XorBitsBound(a: nat, b: nat, bits: nat, top: nat)
    requires bits <= 8 && top == Pow2(bits)
    ensures XorBits(a, b, bits) < top
    decreases bits
  {
    if bits > 0 {
      XorBitsBound(a / 2, b / 2, bits - 1, Pow2(bits - 1));
    }
  }

  function Pow2(n: nat): nat { if n == 0 then 1 else 2 * Pow2(n - 1) }

  lemma {:induction false} XorBitsInverse(a: nat, b: nat, bits: nat)
    requires a < Pow2(bits)
    ensures XorBits(XorBits(a, b, bits), b, bits) == a
    decreases bits
  {
    if bits > 0 {
      XorBitsInverse(a / 2, b / 2, bits - 1);
      LowBit(a % 2 != b % 2, XorBits(a / 2, b / 2, bits - 1));
    }
  }

  /** A number with the low bit `odd` and the others of `rest`. */
  lemma LowBit(odd: bool, rest: nat)
    ensures var n := (if odd then 1 else 0) + 2 * rest; n / 2 == rest && n % 2 == if odd then 1 else 0
  {
  }

  function Xor(a: Byte, b: Byte): Byte {
    assert Pow2(8) == 256 by { assert Pow2(4) == 16; }
    XorBitsBound(a, b, 8, 256);
    XorBits(a, b, 8)
  }

  lemma XorInverse(a: Byte, b: Byte)
    ensures Xor(Xor(a, b), b) == a
  {
    assert Pow2(8) == 256 by { assert Pow2(4) == 16; }
    XorBitsInverse(a, b, 8);
  }

  type Block = b: Bytes | |b| == BLOCK witness [0, 0, 0, 0, 0, 0, 0, 0, 0, 0, 0, 0, 0, 0, 0, 0]

  function XorBlock(a: Block, b: Block): Block {
    seq(BLOCK, i requires 0 <= i < BLOCK => Xor(a[i], b[i]))
  }

  lemma XorBlockInverse(a: Block, b: Block)
    ensures XorBlock(XorBlock(a, b), b) == a
  {
    forall i | 0 <= i < BLOCK
      ensures XorBlock(XorBlock(a, b), b)[i] == a[i]
    {
      XorInverse(a[i], b[i]);
    }
  }

  /** A keyed permutation of blocks, standing for AES. */
  datatype Cipher = Cipher(enc: (Bytes, Block) -> Block, dec: (Bytes, Block) -> Block)

  ghost predicate Invertible(c: Cipher) {
    forall key: Bytes, b: Block :: c.dec(key, c.enc(key, b)) == b
  }

  function CbcEncrypt(c: Cipher, key: Bytes, iv: Block, plain: Bytes): (r: Bytes)
    requires |plain| % BLOCK == 0
    ensures |r| == |plain|
    decreases |plain|
  {
    if plain == [] then []
    else
      var first := c.enc(key, XorBlock(plain[..BLOCK], iv));
      first + CbcEncrypt(c, key, first, plain[BLOCK..])
  }

  function CbcDecrypt(c: Cipher, key: Bytes, iv: Block, text: Bytes): (r: Bytes)
    requires |text| % BLOCK == 0
    ensures |r| == |text|
    decreases |text|
  {
    if text == [] then []
    else XorBlock(c.dec(key, text[..BLOCK]), iv) + CbcDecrypt(c, key, text[..BLOCK], text[BLOCK..])
  }

  lemma {:induction false} CbcRoundTrip(c: Cipher, key: Bytes, iv: Block, plain: Bytes)
    requires Invertible(c) && |plain| % BLOCK == 0
    ensures CbcDecrypt(c, key, iv, CbcEncrypt(c, key, iv, plain)) == plain
    decreases |plain|
  {
    if plain != [] {
      var head, tail := plain[..BLOCK], plain[BLOCK..];
      var first := c.enc(key, XorBlock(head, iv));
      var text := CbcEncrypt(c, key, iv, plain);
      assert text[..BLOCK] == first && text[BLOCK..] == CbcEncrypt(c, key, first, tail);
      CbcRoundTrip(c, key, first, tail);
      XorBlockInverse(head, iv);
      assert plain == head + tail;
    }
  }

  function BlockAt(b: Bytes, j: nat): Block
    requires BLOCK * (j + 1) <= |b|
  {
    b[BLOCK * j..BLOCK * j + BLOCK]
  }

  lemma BlockAfter(first: Block, rest: Bytes, j: nat)
    requires BLOCK * (j + 1) <= |rest|
    ensures BlockAt(first + rest, 0) == first && BlockAt(first + rest, j + 1) == BlockAt(rest, j)
  {
  }

  /** The standard's own equation for the mode: every ciphertext block is the
      cipher of its plaintext block xored with the ciphertext block before it, the
      first with the initialisation vector. */
  lemma {:induction false} CbcEquation(c: Cipher, key: Bytes, iv: Block, plain: Bytes, j: nat)
    requires |plain| % BLOCK == 0 && BLOCK * (j + 1) <= |plain|
    ensures var text := CbcEncrypt(c, key, iv, plain);
            BlockAt(text, j) == c.enc(key, XorBlock(BlockAt(plain, j), if j == 0 then iv else BlockAt(text, j - 1)))
    decreases j
  {
    var first := c.enc(key, XorBlock(plain[..BLOCK], iv));
    var rest := CbcEncrypt(c, key, first, plain[BLOCK..]);
    if j == 0 {
      assert BlockAt(first + rest, 0) == first;
    } else {
      CbcEquation(c, key, first, plain[BLOCK..], j - 1);
      assert plain == plain[..BLOCK] + plain[BLOCK..];
      BlockAfter(plain[..BLOCK], plain[BLOCK..], j - 1);
      BlockAfter(first, rest, j - 1);
      if j > 1 {
        BlockAfter(first, rest, j - 2);
      }
    }
  }

  // ---- base64 (section 4 of RFC 4648) ----

  type Sextet = n: int | 0 <= n < 64

  function CharOf(x: Sextet): char {
    if x < 26 then 'A' + x as char
    else if x < 52 then 'a' + (x - 26) as char
    else if x < 62 then '0' + (x - 52) as char
    else if x == 62 then '+' else '/'
  }

  function SextetOf(c: char): Option<Sextet> {
    if 'A' <= c <= 'Z' then Some(c as int - 'A' as int)
    else if 'a' <= c <= 'z' then Some(c as int - 'a' as int + 26)
    else if '0' <= c <= '9' then Some(c as int - '0' as int + 52)
    else if c == '+' then Some(62) else if c == '/' then Some(63) else None
  }

  /** The four characters of three bytes. */
  function CharsOf(b0: Byte, b1: Byte, b2: Byte): (r: string)
    ensures |r| == 4
  {
    [CharOf(b0 / 4), CharOf(b0 % 4 * 16 + b1 / 16), CharOf(b1 % 16 * 4 + b2 / 64), CharOf(b2 % 64)]
  }

  function Base64Encode(b: Bytes): string
    decreases |b|
  {
    if b == [] then ""
    else if |b| == 1 then [CharOf(b[0] / 4), CharOf(b[0] % 4 * 16), '=', '=']
    else if |b| == 2 then [CharOf(b[0] / 4), CharOf(b[0] % 4 * 16 + b[1] / 16), CharOf(b[1] % 16 * 4), '=']
    else CharsOf(b[0], b[1], b[2]) + Base64Encode(b[3..])
  }

  /** The decoder's state: position in the group of four, the bits carried over,
      and the pad characters in a row. */
  datatype Scan = Scan(quad: nat, left: nat, pads: nat)

  predicate ScanOk(s: Scan) {
    s.quad < 4 && s.left < (if s.quad == 1 then 64 else if s.quad == 2 then 16 else if s.quad == 3 then 4 else 1)
  }

  function Advance(s: Scan, x: Sextet): Scan
    requires ScanOk(s)
  {
    if s.quad == 0 then Scan(1, x, 0)
    else if s.quad == 1 then Scan(2, x % 16, 0)
    else if s.quad == 2 then Scan(3, x % 4, 0)
    else Scan(0, 0, 0)
  }

  /** The byte completed by a further sextet, if it completes one. */
  function Completed(s: Scan, x: Sextet): Bytes
    requires ScanOk(s)
  {
    if s.quad == 0 then []
    else if s.quad == 1 then [s.left * 4 + x / 16]
    else if s.quad == 2 then [s.left * 16 + x / 4]
    else [s.left * 64 + x]
  }

  /** `binascii.a2b_base64` in its lenient mode: characters outside the alphabet
      are skipped, a complete pad ends the input, an unfinished group raises. */
  function Scan64(t: string, s: Scan): Option<Bytes>
    requires ScanOk(s)
    decreases |t|
  {
    if t == "" then (if s.quad == 0 then Some([]) else None)
    else if t[0] == '=' then
      if s.quad >= 2 && s.quad + s.pads + 1 >= 4 then Some([])
      else Scan64(t[1..], if s.quad >= 2 then s.(pads := s.pads + 1) else s)
    else if SextetOf(t[0]).None? then Scan64(t[1..], s)
    else
      var x := SextetOf(t[0]).value;
      var rest := Scan64(t[1..], Advance(s, x));
      if rest.Some? then Some(Completed(s, x) + rest.value) else None
  }

  function Base64Decode(t: string): Option<Bytes> { Scan64(t, Scan(0, 0, 0)) }

  /** One character of the alphabet read by the decoder. */
  lemma ScanSextet(x: Sextet, t: string, s: Scan, rest: Bytes)
    requires ScanOk(s) && Scan64(t, Advance(s, x)) == Some(rest)
    ensures Scan64([CharOf(x)] + t, s) == Some(Completed(s, x) + rest)
  {
  }

  /** The three bytes are put together again out of their four sextets. */
  lemma SextetsRejoin(b0: Byte, b1: Byte, b2: Byte)
    ensures b0 / 4 * 4 + (b0 % 4 * 16 + b1 / 16) / 16 == b0
    ensures (b0 % 4 * 16 + b1 / 16) % 16 * 16 + (b1 % 16 * 4 + b2 / 64) / 4 == b1
    ensures (b1 % 16 * 4 + b2 / 64) % 4 * 64 + b2 % 64 == b2
  {
  }

  /** The last two of four sextets. */
  lemma ScanBack(x2: Sextet, x3: Sextet, left: nat, b1: Byte, b2: Byte, t: string, rest: Bytes)
    requires Base64Decode(t) == Some(rest) && left < 16
    requires left * 16 + x2 / 4 == b1 && x2 % 4 * 64 + x3 == b2
    ensures Scan64([CharOf(x2)] + ([CharOf(x3)] + t), Scan(2, left, 0)) == Some([b1] + ([b2] + rest))
  {
    ScanSextet(x3, t, Scan(3, x2 % 4, 0), rest);
    ScanSextet(x2, [CharOf(x3)] + t, Scan(2, left, 0), [b2] + rest);
  }

  /** The first two of them. */
  lemma ScanFront(x0: Sextet, x1: Sextet, b0: Byte, t: string, rest: Bytes)
    requires Scan64(t, Scan(2, x1 % 16, 0)) == Some(rest) && x0 * 4 + x1 / 16 == b0
    ensures Base64Decode([CharOf(x0)] + ([CharOf(x1)] + t)) == Some([b0] + rest)
  {
    ScanSextet(x1, t, Scan(1, x0, 0), rest);
    assert [] + ([b0] + rest) == [b0] + rest;
    ScanSextet(x0, [CharOf(x1)] + t, Scan(0, 0, 0), [b0] + rest);
  }

  lemma Regroup(c0: char, c1: char, c2: char, c3: char, t: string, b0: Byte, b1: Byte, b2: Byte, rest: Bytes)
    ensures [c0, c1, c2, c3] + t == [c0] + ([c1] + ([c2] + ([c3] + t)))
    ensures [b0, b1, b2] + rest == [b0] + ([b1] + ([b2] + rest))
  {
  }

  /** Four characters give the three bytes they were made of. */
  lemma ScanGroup(b0: Byte, b1: Byte, b2: Byte, t: string, rest: Bytes)
    requires Base64Decode(t) == Some(rest)
    ensures Base64Decode(CharsOf(b0, b1, b2) + t) == Some([b0, b1, b2] + rest)
  {
    var x0: Sextet, x1: Sextet, x2: Sextet, x3: Sextet :=
      b0 / 4, b0 % 4 * 16 + b1 / 16, b1 % 16 * 4 + b2 / 64, b2 % 64;
    SextetsRejoin(b0, b1, b2);
    ScanBack(x2, x3, x1 % 16, b1, b2, t, rest);
    ScanFront(x0, x1, b0, [CharOf(x2)] + ([CharOf(x3)] + t), [b1] + ([b2] + rest));
    Regroup(CharOf(x0), CharOf(x1), CharOf(x2), CharOf(x3), t, b0, b1, b2, rest);
  }

  lemma PadAfterOne()
    ensures Scan64("==", Scan(2, 0, 0)) == Some([])
  {
  }

  lemma ScanOne(b0: Byte)
    ensures Base64Decode([CharOf(b0 / 4), CharOf(b0 % 4 * 16), '=', '=']) == Some([b0])
  {
    var x0: Sextet, x1: Sextet := b0 / 4, b0 % 4 * 16;
    SextetsRejoin(b0, 0, 0);
    PadAfterOne();
    ScanSextet(x1, "==", Scan(1, x0, 0), []);
    assert [b0] + [] == [b0] == [] + [b0];
    ScanSextet(x0, [CharOf(x1)] + "==", Scan(0, 0, 0), [b0]);
    assert [CharOf(x0), CharOf(x1), '=', '='] == [CharOf(x0)] + ([CharOf(x1)] + "==");
  }

  lemma ScanTwo(b0: Byte, b1: Byte)
    ensures Base64Decode([CharOf(b0 / 4), CharOf(b0 % 4 * 16 + b1 / 16), CharOf(b1 % 16 * 4), '=']) == Some([b0, b1])
  {
    var x0: Sextet, x1: Sextet, x2: Sextet := b0 / 4, b0 % 4 * 16 + b1 / 16, b1 % 16 * 4;
    SextetsRejoin(b0, b1, 0);
    var t2 := [CharOf(x2)] + "=";
    assert Scan64("=", Scan(3, 0, 0)) == Some([]);
    ScanSextet(x2, "=", Scan(2, x1 % 16, 0), []);
    assert [b1] + [] == [b1] && [b0] + [b1] == [b0, b1] == [] + [b0, b1];
    ScanSextet(x1, t2, Scan(1, x0, 0), [b1]);
    ScanSextet(x0, [CharOf(x1)] + t2, Scan(0, 0, 0), [b0, b1]);
    assert [CharOf(x0), CharOf(x1), CharOf(x2), '='] == [CharOf(x0)] + ([CharOf(x1)] + t2);
  }

  lemma {:induction false} Base64RoundTrip(b: Bytes)
    ensures Base64Decode(Base64Encode(b)) == Some(b)
    decreases |b|
  {
    if |b| == 1 {
      ScanOne(b[0]);
      assert b == [b[0]];
    } else if |b| == 2 {
      ScanTwo(b[0], b[1]);
      assert b == [b[0], b[1]];
    } else if |b| >= 3 {
      Base64RoundTrip(b[3..]);
      ScanGroup(b[0], b[1], b[2], Base64Encode(b[3..]), b[3..]);
      assert b == [b[0], b[1], b[2]] + b[3..];
    }
  }

  /** Two of the standard's test vectors (section 10 of RFC 4648): "fo" and "foobar". */
  lemma Base64Vectors()
    ensures Base64Encode([0x66, 0x6f]) == "Zm8="
    ensures Base64Encode([0x66, 0x6f, 0x6f, 0x62, 0x61, 0x72]) == "Zm9vYmFy"
  {
    EncodeMore([0x66, 0x6f, 0x6f], [0x62, 0x61, 0x72]);
    EncodeMore([0x62, 0x61, 0x72], []);
    VectorChars();
    assert [0x62, 0x61, 0x72] + [] == [0x62, 0x61, 0x72];
    assert [0x66, 0x6f, 0x6f] + [0x62, 0x61, 0x72] == [0x66, 0x6f, 0x6f, 0x62, 0x61, 0x72];
  }

  lemma VectorChars()
    ensures CharsOf(0x66, 0x6f, 0x6f) == "Zm9v" && CharsOf(0x62, 0x61, 0x72) == "YmFy"
  {
  }

  lemma EncodeMore(group: Bytes, b: Bytes)
    requires |group| == 3
    ensures Base64Encode(group + b) == CharsOf(group[0], group[1], group[2]) + Base64Encode(b)
  {
    assert (group + b)[3..] == b;
  }

  // ---- the message frame ----

  const LIMIT: nat := 0x1_0000_0000

  /** `struct.pack("!I", n)` */
  function PackLength(n: nat): (r: Bytes)
    requires n < LIMIT
    ensures |r| == 4
  {
    [n / 0x100_0000, n / 0x1_0000 % 256, n / 256 % 256, n % 256]
  }

  function UnpackLength(b: Bytes): nat
    requires |b| == 4
  {
    var b0: int, b1: int, b2: int, b3: int := b[0], b[1], b[2], b[3];
    b0 * 0x100_0000 + b1 * 0x1_0000 + b2 * 256 + b3
  }

  lemma LengthRoundTrip(n: nat)
    requires n < LIMIT
    ensures UnpackLength(PackLength(n)) == n
  {
    var h := n / 256;
    var hh := h / 256;
    assert n / 0x1_0000 == hh && n / 0x100_0000 == hh / 256;
  }

  /** The key the channel configuration stores without its final pad. */
  function AesKey(encodedKey: string): Option<Bytes> {
    var key := Base64Decode(encodedKey + "=");
    if key.Some? && |key.value| in {16, 24, 32} then key else None
  }

  function Frame(random: Block, msg: Bytes, corp: Bytes): Bytes
    requires |msg| < LIMIT
  {
    random + PackLength(|msg|) + msg + corp
  }

  /** `_encrypt_msg`; `None` stands for the exceptions of a bad key or length. */
  function EncryptMsg(c: Cipher, encodedKey: string, random: Block, msg: Bytes, corp: Bytes): Option<string> {
    var key := AesKey(encodedKey);
    if key.None? || |msg| >= LIMIT then None
    else
      Some(Base64Encode(CbcEncrypt(c, key.value, key.value[..BLOCK], Pad(Frame(random, msg, corp)))))
  }

  /** Python's `b[i:j]` with both ends clamped. */
  function Slice(b: Bytes, i: nat, j: nat): Bytes {
    var hi := if j > |b| then |b| else j;
    if i >= hi then [] else b[i..hi]
  }

  function ParseFrame(b: Bytes): Option<(Bytes, Bytes)> {
    if |b| < 20 then None
    else
      var n := UnpackLength(b[16..20]);
      Some((Slice(b, 20, 20 + n), Slice(b, 20 + n, |b|)))
  }

  /** `_decrypt_msg`; `None` stands for any exception on the way. */
  function DecryptMsg(c: Cipher, encodedKey: string, text: string): Option<(Bytes, Bytes)> {
    var key := AesKey(encodedKey);
    var raw := Base64Decode(text);
    if key.None? || raw.None? || |raw.value| % BLOCK != 0 then None
    else
      var frame := Unpad(CbcDecrypt(c, key.value, key.value[..BLOCK], raw.value));
      if frame.None? then None else ParseFrame(frame.value)
  }

  lemma ParseFrameOf(random: Block, msg: Bytes, corp: Bytes)
    requires |msg| < LIMIT
    ensures ParseFrame(Frame(random, msg, corp)) == Some((msg, corp))
  {
    var b := Frame(random, msg, corp);
    LengthRoundTrip(|msg|);
    assert b[16..20] == PackLength(|msg|);
    assert Slice(b, 20, 20 + |msg|) == msg;
    assert Slice(b, 20 + |msg|, |b|) == corp;
  }

  /** The codec round trip: with a usable key, encryption succeeds exactly for
      messages shorter than 2^32 bytes, and then decryption gives message and corp
      id back, whatever the 16 random bytes are. */
  lemma CodecRoundTrip(c: Cipher, encodedKey: string, random: Block, msg: Bytes, corp: Bytes)
    requires Invertible(c) && AesKey(encodedKey).Some?
    ensures EncryptMsg(c, encodedKey, random, msg, corp).Some? <==> |msg| < LIMIT
    ensures |msg| < LIMIT ==>
              DecryptMsg(c, encodedKey, EncryptMsg(c, encodedKey, random, msg, corp).value) == Some((msg, corp))
  {
    if |msg| < LIMIT {
      var key := AesKey(encodedKey).value;
      var frame := Frame(random, msg, corp);
      var text := CbcEncrypt(c, key, key[..BLOCK], Pad(frame));
      Base64RoundTrip(text);
      CbcRoundTrip(c, key, key[..BLOCK], Pad(frame));
      UnpadPad(frame);
      ParseFrameOf(random, msg, corp);
    }
  }

  /** A 32-byte key survives the configuration's habit of storing it without the
      final pad character. */
  lemma KeyRoundTrip(key: Bytes)
    requires |key| == 32
    ensures var encoded := Base64Encode(key);
            encoded != "" && AesKey(encoded[..|encoded| - 1]) == Some(key)
  {
    Base64RoundTrip(key);
    EncodeEndsInPad(key);
    var encoded := Base64Encode(key);
    assert encoded[..|encoded| - 1] + "=" == encoded;
  }

  predicate EndsInPad(s: string) {
    s != "" && s[|s| - 1] == '='
  }

  lemma {:induction false} EncodeEndsInPad(b: Bytes)
    requires |b| % 3 != 0
    ensures EndsInPad(Base64Encode(b))
    decreases |b|
  {
    if |b| < 3 {
      ShortEndsInPad(b);
    } else {
      OneGroupLess(|b|);
      EncodeEndsInPad(b[3..]);
      EncodeMore(b[..3], b[3..]);
      assert b == b[..3] + b[3..];
      StillEndsInPad(CharsOf(b[0], b[1], b[2]), Base64Encode(b[3..]));
    }
  }

  lemma OneGroupLess(n: nat)
    requires n % 3 != 0 && n >= 3
    ensures (n - 3) % 3 != 0
  {
  }

  lemma ShortEndsInPad(b: Bytes)
    requires |b| == 1 || |b| == 2
    ensures EndsInPad(Base64Encode(b))
  {
  }

  lemma StillEndsInPad(a: string, b: string)
    requires EndsInPad(b)
    ensures EndsInPad(a + b)
  {
  }
}
