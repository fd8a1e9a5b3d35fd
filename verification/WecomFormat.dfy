/** The wire format of WeCom messages in the standards' own terms, and what the lenient
    base64 decoder does with text that no encoder made. */
module WecomFormat {
  import opened Common
  import opened WecomCodec

  // ---- exclusive or, bit by bit ----

  /** Bit `k` of `n`. */
  predicate Bit(n: nat, k: nat)
    decreases k
  {
    if k == 0 then n % 2 == 1 else Bit(n / 2, k - 1)
  }

  lemma {:induction false} XorBitsAt(a: nat, b: nat, bits: nat, k: nat)
    requires k < bits
    ensures Bit(XorBits(a, b, bits), k) <==> Bit(a, k) != Bit(b, k)
    decreases k
  {
    LowBit(a % 2 != b % 2, XorBits(a / 2, b / 2, bits - 1));
    if k > 0 {
      XorBitsAt(a / 2, b / 2, bits - 1, k - 1);
    }
  }

  /** A bit of the exclusive or of two blocks is set exactly when it differs in them. */
  lemma XorBlockBits(a: Block, b: Block, i: nat, k: nat)
    requires i < 16 && k < 8
    ensures Bit(XorBlock(a, b)[i], k) <==> Bit(a[i], k) != Bit(b[i], k)
  {
    XorBitsAt(a[i], b[i], 8, k);
  }

  // ---- the frame ----

  /** Four bytes, the most significant first (network order). */
  lemma BigEndian(n: nat)
    requires n < 0x1_0000_0000
    ensures var b := PackLength(n); var b0: int, b1: int, b2: int, b3: int := b[0], b[1], b[2], b[3];
            ((b0 * 256 + b1) * 256 + b2) * 256 + b3 == n
  {
    LengthRoundTrip(n);
  }

  /** Sixteen random bytes, the length, the message and the corp id, in this order, then one
      to thirty-two bytes that each give their number, up to a multiple of thirty-two. */
  ghost predicate IsFramed(plain: Bytes, random: Block, msg: Bytes, corp: Bytes) {
    var n := 20 + |msg| + |corp|;
    && |msg| < 0x1_0000_0000 && n < |plain| <= n + 32 && |plain| % 32 == 0
    && plain[..16] == random && plain[16..20] == PackLength(|msg|)
    && plain[20..20 + |msg|] == msg && plain[20 + |msg|..n] == corp
    && forall i | n <= i < |plain| :: plain[i] == |plain| - n
  }

  lemma PaddedFrame(random: Block, msg: Bytes, corp: Bytes)
    requires |msg| < 0x1_0000_0000
    ensures IsFramed(Pad(Frame(random, msg, corp)), random, msg, corp)
  {
    var frame := Frame(random, msg, corp);
    var plain := Pad(frame);
    assert frame[..16] == random && frame[16..20] == PackLength(|msg|);
    assert frame[20..20 + |msg|] == msg && frame[20 + |msg|..] == corp;
    assert plain[..|frame|] == frame;
    FrontSlices(plain, frame, |msg|);
  }

  lemma FrontSlices(plain: Bytes, frame: Bytes, n: nat)
    requires frame <= plain && 20 + n <= |frame|
    ensures plain[..16] == frame[..16] && plain[16..20] == frame[16..20]
    ensures plain[20..20 + n] == frame[20..20 + n] && plain[20 + n..|frame|] == frame[20 + n..]
  {
  }

  /** What goes over the wire is base64 of the framed message in cipher block chaining, with
      the first sixteen bytes of the key as initialisation vector. */
  lemma WireFormat(c: Cipher, encodedKey: string, random: Block, msg: Bytes, corp: Bytes)
    returns (key: Bytes, plain: Bytes, text: Bytes)
    requires EncryptMsg(c, encodedKey, random, msg, corp).Some?
    ensures Base64Decode(encodedKey + "=") == Some(key) && (|key| == 16 || |key| == 24 || |key| == 32)
    ensures IsFramed(plain, random, msg, corp)
    ensures Base64Decode(EncryptMsg(c, encodedKey, random, msg, corp).value) == Some(text) && |text| == |plain|
    ensures forall j: nat | 16 * (j + 1) <= |text| ::
              BlockAt(text, j) == c.enc(key, XorBlock(BlockAt(plain, j), if j == 0 then key[..16] else BlockAt(text, j - 1)))
  {
    key := AesKey(encodedKey).value;
    plain := Pad(Frame(random, msg, corp));
    text := CbcEncrypt(c, key, key[..16], plain);
    PaddedFrame(random, msg, corp);
    Base64RoundTrip(text);
    forall j: nat | 16 * (j + 1) <= |text|
      ensures BlockAt(text, j) == c.enc(key, XorBlock(BlockAt(plain, j), if j == 0 then key[..16] else BlockAt(text, j - 1)))
    {
      CbcEquation(c, key, key[..16], plain, j);
    }
  }

  // ---- base64 (section 4 of RFC 4648) ----

  const UPPER: string := "ABCDEFGHIJKLMNOPQRSTUVWXYZ"
  const LOWER: string := "abcdefghijklmnopqrstuvwxyz"
  const DIGITS: string := "0123456789"

  lemma Letters(i: nat)
    requires i < 26
    ensures UPPER[i] == 'A' + i as char && LOWER[i] == 'a' + i as char
  {
    assert i == 0 || i == 1 || i == 2 || i == 3 || i == 4 || i == 5 || i == 6 || i == 7 || i == 8 || i == 9 || i == 10
        || i == 11 || i == 12 || i == 13 || i == 14 || i == 15 || i == 16 || i == 17 || i == 18 || i == 19 || i == 20
        || i == 21 || i == 22 || i == 23 || i == 24 || i == 25;
  }

  lemma Digits(i: nat)
    requires i < 10
    ensures DIGITS[i] == '0' + i as char
  {
    assert i == 0 || i == 1 || i == 2 || i == 3 || i == 4 || i == 5 || i == 6 || i == 7 || i == 8 || i == 9;
  }

  /** The alphabet of the standard, read both ways. */
  lemma Alphabet(x: Sextet)
    ensures x < 26 ==> CharOf(x) == UPPER[x]
    ensures 26 <= x < 52 ==> CharOf(x) == LOWER[x - 26]
    ensures 52 <= x < 62 ==> CharOf(x) == DIGITS[x - 52]
    ensures x >= 62 ==> CharOf(x) == "+/"[x - 62]
    ensures SextetOf(CharOf(x)) == Some(x)
  {
    if x < 26 {
      Letters(x);
    } else if x < 52 {
      Letters(x - 26);
    } else if x < 62 {
      Digits(x - 52);
    }
  }

  lemma SextetsInAlphabet(ch: char)
    ensures SextetOf(ch).Some? ==> CharOf(SextetOf(ch).value) == ch
    ensures SextetOf('=').None?
  {
  }

  /** A character outside the alphabet is skipped wherever it stands, also between two pads. */
  lemma {:induction false} ForeignIsSkipped(a: string, ch: char, b: string, s: Scan)
    requires ScanOk(s) && SextetOf(ch).None? && ch != '='
    ensures Scan64(a + [ch] + b, s) == Scan64(a + b, s)
    decreases |a|
  {
    if a == "" {
      assert a + [ch] + b == [ch] + b && a + b == b;
    } else {
      assert (a + [ch] + b)[1..] == a[1..] + [ch] + b && (a + b)[1..] == a[1..] + b;
      ForeignIsSkipped(a[1..], ch, b, After(s, a[0]));
    }
  }

  /** The decoder's state behind one more character, unless it stops there. */
  function After(s: Scan, ch: char): (s': Scan)
    requires ScanOk(s)
    ensures ScanOk(s')
  {
    if ch == '=' then if s.quad >= 2 then s.(pads := s.pads + 1) else s
    else if SextetOf(ch).None? then s else Advance(s, SextetOf(ch).value)
  }

  predicate OnlySextets(t: string) {
    forall i | 0 <= i < |t| :: SextetOf(t[i]).Some?
  }

  /** Text of the alphabet alone decodes exactly when it ends with a group of four. */
  lemma {:induction false} WholeGroupsOnly(t: string, s: Scan)
    requires ScanOk(s) && OnlySextets(t)
    ensures Scan64(t, s).Some? <==> (s.quad + |t|) % 4 == 0
    decreases |t|
  {
    if t != "" {
      WholeGroupsOnly(t[1..], Advance(s, SextetOf(t[0]).value));
    }
  }

  /** Two pads end a group of two characters, one pad a group of three; fewer are an error,
      and whatever follows is not read. */
  lemma PadsEndGroups(x0: Sextet, x1: Sextet, x2: Sextet, t: string)
    ensures Base64Decode([CharOf(x0), CharOf(x1), '=', '='] + t).Some?
    ensures Base64Decode([CharOf(x0), CharOf(x1), '=', '='] + t) == Base64Decode([CharOf(x0), CharOf(x1), '=', '='])
    ensures Base64Decode([CharOf(x0), CharOf(x1), CharOf(x2), '='] + t).Some?
    ensures Base64Decode([CharOf(x0), CharOf(x1), CharOf(x2), '='] + t) == Base64Decode([CharOf(x0), CharOf(x1), CharOf(x2), '='])
    ensures Base64Decode([CharOf(x0), CharOf(x1), '=']).None?
  {
    Alphabet(x0);
    Alphabet(x1);
    Alphabet(x2);
    TwoPads(x0, x1, t);
    TwoPads(x0, x1, "");
    OnePad(x0, x1, x2, t);
    OnePad(x0, x1, x2, "");
    assert [CharOf(x0), CharOf(x1), '=', '='] + "" == [CharOf(x0), CharOf(x1), '=', '='];
    assert [CharOf(x0), CharOf(x1), CharOf(x2), '='] + "" == [CharOf(x0), CharOf(x1), CharOf(x2), '='];
    LonePad(x0, x1);
  }

  lemma TwoPads(x0: Sextet, x1: Sextet, t: string)
    ensures Base64Decode([CharOf(x0), CharOf(x1), '=', '='] + t) == Some([x0 * 4 + x1 / 16])
  {
    BothPads(x1 % 16, t);
    ScanFront(x0, x1, x0 * 4 + x1 / 16, "==" + t, []);
    Four(CharOf(x0), CharOf(x1), '=', '=', t);
    assert "==" + t == ['='] + (['='] + t);
    assert [x0 * 4 + x1 / 16] + [] == [x0 * 4 + x1 / 16];
  }

  lemma BothPads(left: nat, t: string)
    requires left < 16
    ensures Scan64("==" + t, Scan(2, left, 0)) == Some([])
  {
    assert ("==" + t)[1..] == "=" + t;
    assert Scan64("=" + t, Scan(2, left, 1)) == Some([]);
  }

  lemma Four(c0: char, c1: char, c2: char, c3: char, t: string)
    ensures [c0, c1, c2, c3] + t == [c0] + ([c1] + ([c2] + ([c3] + t)))
  {
  }

  lemma OnePad(x0: Sextet, x1: Sextet, x2: Sextet, t: string)
    ensures Base64Decode([CharOf(x0), CharOf(x1), CharOf(x2), '='] + t) == Some([x0 * 4 + x1 / 16, x1 % 16 * 16 + x2 / 4])
  {
    var b0: Byte, b1: Byte := x0 * 4 + x1 / 16, x1 % 16 * 16 + x2 / 4;
    ThirdAndPad(x2, x1 % 16, t);
    ScanFront(x0, x1, b0, [CharOf(x2)] + (['='] + t), [b1]);
    Four(CharOf(x0), CharOf(x1), CharOf(x2), '=', t);
    assert [b0] + [b1] == [b0, b1];
  }

  lemma ThirdAndPad(x2: Sextet, left: nat, t: string)
    requires left < 16
    ensures Scan64([CharOf(x2)] + (['='] + t), Scan(2, left, 0)) == Some([left * 16 + x2 / 4])
  {
    assert Scan64(['='] + t, Scan(3, x2 % 4, 0)) == Some([]);
    ScanSextet(x2, ['='] + t, Scan(2, left, 0), []);
    assert [left * 16 + x2 / 4] + [] == [left * 16 + x2 / 4];
  }

  lemma LonePad(x0: Sextet, x1: Sextet)
    ensures Base64Decode([CharOf(x0), CharOf(x1), '=']).None?
  {
    Alphabet(x0);
    Alphabet(x1);
    var t := [CharOf(x0), CharOf(x1), '='];
    assert t[1..] == [CharOf(x1), '='] && t[1..][1..] == "=" && t[1..][1..][1..] == "";
    assert Scan64("=", Scan(2, x1 % 16, 0)) == None;
    assert Scan64([CharOf(x1), '='], Scan(1, x0, 0)) == None;
  }

  /** A pad that no group calls for is skipped. */
  lemma StrayPadIsSkipped(x: Sextet, t: string)
    ensures Base64Decode("=" + t) == Base64Decode(t)
    ensures Base64Decode([CharOf(x)] + "=" + t) == Base64Decode([CharOf(x)] + t)
  {
    Alphabet(x);
    assert ("=" + t)[1..] == t;
    assert Scan64("=" + t, Scan(1, x, 0)) == Scan64(t, Scan(1, x, 0));
    assert ([CharOf(x)] + "=" + t)[1..] == "=" + t && ([CharOf(x)] + t)[1..] == t;
  }

  // ---- keys ----

  lemma {:induction false} DecodeMore(b: Bytes, t: string, rest: Bytes)
    requires |b| % 3 == 0 && Base64Decode(t) == Some(rest)
    ensures Base64Decode(Base64Encode(b) + t) == Some(b + rest)
    decreases |b|
  {
    if b == [] {
      assert "" + t == t && b + rest == rest;
    } else {
      LessByThree(|b|);
      DecodeMore(b[3..], t, rest);
      ScanGroup(b[0], b[1], b[2], Base64Encode(b[3..]) + t, b[3..] + rest);
      Regrouped(CharsOf(b[0], b[1], b[2]), Base64Encode(b[3..]), t);
      FirstThree(b, rest);
    }
  }

  lemma Regrouped<T>(a: seq<T>, b: seq<T>, c: seq<T>)
    ensures a + b + c == a + (b + c)
  {
  }

  lemma FirstThree(b: Bytes, rest: Bytes)
    requires |b| >= 3
    ensures b + rest == [b[0], b[1], b[2]] + (b[3..] + rest)
  {
  }

  lemma LessByThree(n: nat)
    requires n > 0 && n % 3 == 0
    ensures n >= 3 && (n - 3) % 3 == 0
  {
  }

  /** The key as the channel configuration stores it: without a final pad. */
  function Stored(encoded: string): string {
    if EndsInPad(encoded) then encoded[..|encoded| - 1] else encoded
  }

  lemma PadRestored(encoded: string)
    requires EndsInPad(encoded)
    ensures Stored(encoded) + "=" == encoded
  {
  }

  lemma PadAlone()
    ensures Base64Decode("=") == Some([])
  {
    assert "="[1..] == "";
  }

  lemma UnpaddedDecodes(key: Bytes)
    requires |key| % 3 == 0
    ensures Base64Decode(Base64Encode(key) + "=") == Some(key)
  {
    PadAlone();
    DecodeMore(key, "=", []);
    assert key + [] == key;
  }

  lemma StoredDecodes(key: Bytes)
    ensures Base64Decode(Stored(Base64Encode(key)) + "=") == Some(key)
  {
    if EndsInPad(Base64Encode(key)) {
      PadRestored(Base64Encode(key));
      Base64RoundTrip(key);
    } else {
      if |key| % 3 != 0 {
        EncodeEndsInPad(key);
      }
      UnpaddedDecodes(key);
    }
  }

  /** A stored key is usable exactly when it has one of the three key sizes of AES, and then
      it is read back (section 5 of FIPS 197). */
  lemma StoredKeyUsableIff(key: Bytes)
    ensures AesKey(Stored(Base64Encode(key))) ==
            if |key| == 16 || |key| == 24 || |key| == 32 then Some(key) else None
  {
    StoredDecodes(key);
  }
}
