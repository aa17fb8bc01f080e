/**
 * The hex codec `buf2hex`/`hex2buf` and the `encrypt`/`decrypt` wrappers that
 * store an API key as two hex strings (backend/src/crypto.ts).
 *
 * The PBKDF2 key derivation and AES-GCM are WebCrypto calls; here they are an
 * abstract authenticated cipher passed in as a value (`AeadCipher`).
 */
module Crypto {
  import opened Wrappers
  import opened Slices

  /** One element of a `Uint8Array`. */
  type byte = x: int | 0 <= x < 256

  /** The digits `Number.prototype.toString(16)` writes, indexed by their value. */
  const LowerHexDigits: string := "0123456789abcdef"

  /** The digit of value `v` in radix 16, lower case. */
  function Digit(v: int): (c: char)
    requires 0 <= v < 16
    ensures IsLowerHexChar(c)
  {
    LowerHexDigits[v]
  }

  /** A character of the class `[0-9a-f]`. */
  predicate IsLowerHexChar(c: char)
  {
    '0' <= c <= '9' || 'a' <= c <= 'f'
  }

  /** A character matched by `[\da-f]` under the `i` flag: `\d` is `[0-9]`, `i` adds `A-F`. */
  predicate IsHexChar(c: char)
  {
    '0' <= c <= '9' || 'a' <= c <= 'f' || 'A' <= c <= 'F'
  }

  /** The value `parseInt` gives one hex digit, either case. */
  function HexValue(c: char): (v: int)
    requires IsHexChar(c)
    ensures 0 <= v < 16
  {
    if '0' <= c <= '9' then c as int - '0' as int
    else if 'a' <= c <= 'f' then c as int - 'a' as int + 10
    else c as int - 'A' as int + 10
  }

  lemma HexValueOfDigit(v: int)
    requires 0 <= v < 16
    ensures IsHexChar(Digit(v)) && HexValue(Digit(v)) == v
  {
  }

  // ---------------------------------------------------------------------------
  // buf2hex (backend/src/crypto.ts:1)
  // ---------------------------------------------------------------------------

  /** The number a string of hex digits denotes, most significant digit first. */
  function HexNumber(s: string): nat
    requires forall k :: 0 <= k < |s| ==> IsHexChar(s[k])
  {
    if s == [] then 0 else 16 * HexNumber(s[..|s| - 1]) + HexValue(s[|s| - 1])
  }

  /** `n.toString(16)` for a non-negative integer: lower-case digits denoting `n`, no leading zero. */
  function ToHexString(n: nat): (s: string)
    ensures |s| >= 1
    ensures forall k :: 0 <= k < |s| ==> IsLowerHexChar(s[k])
    ensures n >= 16 ==> s[0] != '0'
    ensures (forall k :: 0 <= k < |s| ==> IsHexChar(s[k])) && HexNumber(s) == n
    decreases n
  {
    if n < 16 then
      HexValueOfDigit(n);
      [Digit(n)]
    else
      var high := ToHexString(n / 16);
      var s := high + [Digit(n % 16)];
      assert s[..|s| - 1] == high;
      HexValueOfDigit(n % 16);
      s
  }

  /** One byte as `buf2hex` writes it: `('00' + x.toString(16)).slice(-2)`. */
  function ByteToHex(x: byte): (r: string)
    ensures |r| == 2
  {
    SliceLast("00" + ToHexString(x), 2)
  }

  /** Padding and slicing leave exactly the high and the low nibble of the byte, high first. */
  lemma ByteToHexIsTwoDigits(x: byte)
    ensures ByteToHex(x) == [Digit(x / 16), Digit(x % 16)]
  {
    if x < 16 {
      assert ToHexString(x) == [Digit(x)];
      assert "00" + ToHexString(x) == ['0', '0', Digit(x)];
    } else {
      assert ToHexString(x / 16) == [Digit(x / 16)];
      assert ToHexString(x) == [Digit(x / 16), Digit(x % 16)];
      assert "00" + ToHexString(x) == ['0', '0', Digit(x / 16), Digit(x % 16)];
    }
  }

  /** `Array.prototype.map.call(buf, encode).join('')`: each byte's text, in order. */
  function MapJoin(encode: byte -> string, b: seq<byte>): string
  {
    if b == [] then "" else encode(b[0]) + MapJoin(encode, b[1..])
  }

  /** `buf2hex(buf)`: the bytes' two-character forms joined in order (Buf2HexLayout says which characters). */
  function Buf2Hex(b: seq<byte>): (r: string)
    ensures |r| == 2 * |b|
  {
    MapJoinLength(ByteToHex, b);
    MapJoin(ByteToHex, b)
  }

  /** Joining two-character texts gives two characters per byte. */
  lemma {:induction false} MapJoinLength(encode: byte -> string, b: seq<byte>)
    requires forall x :: |encode(x)| == 2
    ensures |MapJoin(encode, b)| == 2 * |b|
  {
    if b != [] {
      MapJoinLength(encode, b[1..]);
    }
  }

  /** With two-character texts, byte `i` is written at characters `2i` and `2i+1`. */
  lemma {:induction false} MapJoinAt(encode: byte -> string, b: seq<byte>, i: int)
    requires forall x :: |encode(x)| == 2
    requires 0 <= i < |b|
    ensures 2 * i + 1 < |MapJoin(encode, b)|
    ensures MapJoin(encode, b)[2 * i] == encode(b[i])[0]
    ensures MapJoin(encode, b)[2 * i + 1] == encode(b[i])[1]
  {
    MapJoinLength(encode, b);
    MapJoinLength(encode, b[1..]);
    if i > 0 {
      MapJoinAt(encode, b[1..], i - 1);
      assert b[1..][i - 1] == b[i];
    }
  }

  /** Two hex digits per byte, byte `i` at characters `2i` and `2i+1`, high nibble first. */
  lemma Buf2HexLayout(b: seq<byte>)
    ensures |Buf2Hex(b)| == 2 * |b|
    ensures forall i :: 0 <= i < |b| ==>
      Buf2Hex(b)[2 * i] == Digit(b[i] / 16) && Buf2Hex(b)[2 * i + 1] == Digit(b[i] % 16)
  {
    MapJoinLength(ByteToHex, b);
    forall i | 0 <= i < |b|
      ensures Buf2Hex(b)[2 * i] == Digit(b[i] / 16) && Buf2Hex(b)[2 * i + 1] == Digit(b[i] % 16)
    {
      MapJoinAt(ByteToHex, b, i);
      ByteToHexIsTwoDigits(b[i]);
    }
  }

  /** Every character `buf2hex` writes is in `[0-9a-f]`. */
  lemma Buf2HexIsLowerHex(b: seq<byte>)
    ensures forall k :: 0 <= k < |Buf2Hex(b)| ==> IsLowerHexChar(Buf2Hex(b)[k])
  {
    Buf2HexLayout(b);
    forall k | 0 <= k < |Buf2Hex(b)| ensures IsLowerHexChar(Buf2Hex(b)[k]) {
      var i := k / 2;
      assert k == 2 * i || k == 2 * i + 1;
      assert 0 <= i < |b|;
      assert IsLowerHexChar(Digit(b[i] / 16)) && IsLowerHexChar(Digit(b[i] % 16));
    }
  }

  // ---------------------------------------------------------------------------
  // hex2buf (backend/src/crypto.ts:2)
  // ---------------------------------------------------------------------------

  /**
   * The values of the matches of `/[\da-f]{2}/gi`, left to right: at each
   * position a pair of hex digits is taken whole; otherwise the scan moves on
   * by one character. A trailing single digit matches nothing.
   */
  function MatchHexPairs(s: string): (r: seq<byte>)
    ensures 2 * |r| <= |s|
    decreases |s|
  {
    if |s| < 2 then []
    else if IsHexChar(s[0]) && IsHexChar(s[1]) then
      [HexValue(s[0]) * 16 + HexValue(s[1])] + MatchHexPairs(s[2..])
    else MatchHexPairs(s[1..])
  }

  /**
   * `hex2buf(hex)`: the matched bytes. When nothing matches, `match` returns
   * null and the non-null assertion fails at `.map`; that throw is `None`.
   */
  function Hex2Buf(s: string): (r: Option<seq<byte>>)
    ensures r.Some? ==> r.value != []
  {
    var m := MatchHexPairs(s);
    if m == [] then None else Some(m)
  }

  /** Two adjacent hex digits somewhere in `s`. */
  predicate HasHexPair(s: string)
  {
    exists i :: 0 <= i < |s| - 1 && IsHexChar(s[i]) && IsHexChar(s[i + 1])
  }

  /** The scan finds something exactly when two adjacent hex digits occur. */
  lemma {:induction false} MatchHexPairsEmptyIff(s: string)
    ensures MatchHexPairs(s) == [] <==> !HasHexPair(s)
    decreases |s|
  {
    if |s| < 2 {
    } else if IsHexChar(s[0]) && IsHexChar(s[1]) {
      assert IsHexChar(s[0]) && IsHexChar(s[0 + 1]);
    } else {
      MatchHexPairsEmptyIff(s[1..]);
      if HasHexPair(s) {
        var i :| 0 <= i < |s| - 1 && IsHexChar(s[i]) && IsHexChar(s[i + 1]);
        assert i > 0;
        assert IsHexChar(s[1..][i - 1]) && IsHexChar(s[1..][i - 1 + 1]);
      }
      if HasHexPair(s[1..]) {
        var i :| 0 <= i < |s[1..]| - 1 && IsHexChar(s[1..][i]) && IsHexChar(s[1..][i + 1]);
        assert IsHexChar(s[i + 1]) && IsHexChar(s[(i + 1) + 1]);
      }
    }
  }

  /** `hex2buf` throws exactly when the input holds no pair of adjacent hex digits, the empty string included. */
  lemma Hex2BufFailsIff(s: string)
    ensures Hex2Buf(s).None? <==> !HasHexPair(s)
    ensures Hex2Buf("").None?
  {
    MatchHexPairsEmptyIff(s);
  }

  /** Two digits at the front are taken as one pair, whatever follows. */
  lemma MatchHexPairsOfDigits(x: byte, rest: string)
    ensures MatchHexPairs([Digit(x / 16), Digit(x % 16)] + rest) == [x] + MatchHexPairs(rest)
  {
    HexValueOfDigit(x / 16);
    HexValueOfDigit(x % 16);
    var s := [Digit(x / 16), Digit(x % 16)] + rest;
    assert s[2..] == rest;
  }

  /** Decoding what `buf2hex` wrote gives back the bytes, high nibble first, pair by pair. */
  lemma {:induction false} MatchHexPairsOfBuf2Hex(b: seq<byte>)
    ensures MatchHexPairs(Buf2Hex(b)) == b
  {
    if b != [] {
      ByteToHexIsTwoDigits(b[0]);
      var rest := Buf2Hex(b[1..]);
      assert Buf2Hex(b) == [Digit(b[0] / 16), Digit(b[0] % 16)] + rest;
      MatchHexPairsOfDigits(b[0], rest);
      MatchHexPairsOfBuf2Hex(b[1..]);
      assert [b[0]] + b[1..] == b;
    }
  }

  /** Round trip: every non-empty buffer survives `hex2buf(buf2hex(b))`; the empty one does not. */
  lemma Hex2BufOfBuf2Hex(b: seq<byte>)
    ensures b != [] ==> Hex2Buf(Buf2Hex(b)) == Some(b)
    ensures b == [] ==> Hex2Buf(Buf2Hex(b)) == None
  {
    MatchHexPairsOfBuf2Hex(b);
  }

  /** ASCII lower-casing of one character. */
  function ToLowerAscii(c: char): char
  {
    if 'A' <= c <= 'Z' then (c as int - 'A' as int + 'a' as int) as char else c
  }

  /** ASCII lower-casing of a string, character by character. */
  function ToLowerAsciiString(s: string): (r: string)
    ensures |r| == |s|
    ensures forall i :: 0 <= i < |s| ==> r[i] == ToLowerAscii(s[i])
  {
    seq(|s|, i requires 0 <= i < |s| => ToLowerAscii(s[i]))
  }

  /** The `i` flag: lower-casing the input changes neither the matches nor their values. */
  lemma {:induction false} MatchHexPairsIgnoresCase(s: string)
    ensures MatchHexPairs(ToLowerAsciiString(s)) == MatchHexPairs(s)
    decreases |s|
  {
    var t := ToLowerAsciiString(s);
    if |s| >= 2 {
      assert IsHexChar(t[0]) == IsHexChar(s[0]) && IsHexChar(t[1]) == IsHexChar(s[1]);
      if IsHexChar(s[0]) && IsHexChar(s[1]) {
        assert HexValue(t[0]) == HexValue(s[0]) && HexValue(t[1]) == HexValue(s[1]);
        assert t[2..] == ToLowerAsciiString(s[2..]);
        MatchHexPairsIgnoresCase(s[2..]);
      } else {
        assert t[1..] == ToLowerAsciiString(s[1..]);
        MatchHexPairsIgnoresCase(s[1..]);
      }
    }
  }

  /** Upper- and lower-case spellings decode to the same bytes. */
  lemma Hex2BufIgnoresCase(s: string)
    ensures Hex2Buf(ToLowerAsciiString(s)) == Hex2Buf(s)
  {
    MatchHexPairsIgnoresCase(s);
  }

  /** Pairs are taken left to right without overlap: non-hex characters are skipped, a trailing odd digit is dropped. */
  lemma Hex2BufScanExamples()
    ensures Hex2Buf("abc") == Some([0xab])
    ensures Hex2Buf("a-bc") == Some([0xbc])
    ensures Hex2Buf("0AbZ") == Some([0x0a])
    ensures Hex2Buf("zz") == None
  {
    assert HexValue('a') == 10 && HexValue('b') == 11 && HexValue('c') == 12;
    assert HexValue('0') == 0 && HexValue('A') == 10;
    assert MatchHexPairs("c") == [];
    assert "abc"[2..] == "c";
    assert MatchHexPairs("abc") == [HexValue('a') * 16 + HexValue('b')] + MatchHexPairs("c");
    assert MatchHexPairs("bc") == [HexValue('b') * 16 + HexValue('c')] + MatchHexPairs("");
    assert "a-bc"[1..] == "-bc" && "-bc"[1..] == "bc" && "bc"[2..] == "";
    assert MatchHexPairs("a-bc") == MatchHexPairs("-bc") == MatchHexPairs("bc");
    assert "0AbZ"[2..] == "bZ" && "bZ"[1..] == "Z";
    assert MatchHexPairs("bZ") == MatchHexPairs("Z") == [];
    assert MatchHexPairs("0AbZ") == [HexValue('0') * 16 + HexValue('A')] + MatchHexPairs("bZ");
    assert MatchHexPairs("abc") == [0xab];
    assert MatchHexPairs("a-bc") == [0xbc];
    assert MatchHexPairs("0AbZ") == [0x0a];
    assert "zz"[1..] == "z";
  }

  // ---------------------------------------------------------------------------
  // encrypt / decrypt (backend/src/crypto.ts:8-17)
  // ---------------------------------------------------------------------------

  /** Length of the random IV, `new Uint8Array(12)`. */
  const IvLength: nat := 12

  /** Length of the AES-GCM authentication tag appended to every ciphertext (128 bits). */
  const TagLength: nat := 16

  /**
   * The WebCrypto calls: `deriveKey` is `getKey` (PBKDF2), `seal` and `open`
   * are AES-GCM encryption and decryption under a key and an IV; `open`
   * yields None when the integrity check fails.
   */
  datatype AeadCipher = AeadCipher(
    deriveKey: string -> seq<byte>,
    seal: (seq<byte>, seq<byte>, seq<byte>) -> seq<byte>,
    open: (seq<byte>, seq<byte>, seq<byte>) -> Option<seq<byte>>)

  /** What the model assumes of AES-GCM: opening undoes sealing, and sealing appends the tag. */
  ghost predicate Authenticated(c: AeadCipher)
  {
    && (forall k, iv, p :: c.open(k, iv, c.seal(k, iv, p)) == Some(p))
    && (forall k, iv, p :: |c.seal(k, iv, p)| == |p| + TagLength)
  }

  /** The row `encrypt` returns for storage. */
  datatype EncryptedKey = EncryptedKey(encryptedKeyHex: string, ivHex: string)

  /** Why `decrypt` throws. */
  datatype DecryptError =
    | NoHexPair        // `hex2buf` found nothing in one of the two hex strings
    | IntegrityFailure // AES-GCM rejected the ciphertext, the IV or the key

  /** `encrypt(secret, plaintext)` with the random IV passed in; the plaintext is its encoded bytes. */
  function Encrypt(c: AeadCipher, secret: string, plaintext: seq<byte>, iv: seq<byte>): (r: EncryptedKey)
    requires |iv| == IvLength
    ensures |r.ivHex| == 2 * IvLength
    ensures forall k :: 0 <= k < |r.ivHex| ==> IsLowerHexChar(r.ivHex[k])
  {
    Buf2HexLayout(iv);
    Buf2HexIsLowerHex(iv);
    EncryptedKey(Buf2Hex(c.seal(c.deriveKey(secret), iv, plaintext)), Buf2Hex(iv))
  }

  /** `decrypt(secret, encrypted_key_hex, iv_hex)`: decode the IV, then the ciphertext, then open. */
  function Decrypt(c: AeadCipher, secret: string, encryptedKeyHex: string, ivHex: string): (r: Result<seq<byte>, DecryptError>)
    ensures r.Success? ==> Hex2Buf(ivHex).Some? && Hex2Buf(encryptedKeyHex).Some?
    ensures r.Success? ==> c.open(c.deriveKey(secret), Hex2Buf(ivHex).value, Hex2Buf(encryptedKeyHex).value) == Some(r.value)
    ensures r == Failure(NoHexPair) <==> Hex2Buf(ivHex).None? || Hex2Buf(encryptedKeyHex).None?
    ensures r == Failure(IntegrityFailure) <==> (
      && Hex2Buf(ivHex).Some? && Hex2Buf(encryptedKeyHex).Some?
      && c.open(c.deriveKey(secret), Hex2Buf(ivHex).value, Hex2Buf(encryptedKeyHex).value).None?)
  {
    var key := c.deriveKey(secret);
    match Hex2Buf(ivHex)
    case None => Failure(NoHexPair)
    case Some(iv) =>
      match Hex2Buf(encryptedKeyHex)
      case None => Failure(NoHexPair)
      case Some(data) =>
        match c.open(key, iv, data)
        case None => Failure(IntegrityFailure)
        case Some(p) => Success(p)
  }

  /** Decrypting with the same secret what `encrypt` stored gives back the plaintext. */
  lemma DecryptEncrypt(c: AeadCipher, secret: string, plaintext: seq<byte>, iv: seq<byte>)
    requires Authenticated(c)
    requires |iv| == IvLength
    ensures var e := Encrypt(c, secret, plaintext, iv);
      Decrypt(c, secret, e.encryptedKeyHex, e.ivHex) == Success(plaintext)
  {
    var key := c.deriveKey(secret);
    var sealed := c.seal(key, iv, plaintext);
    assert |sealed| == |plaintext| + TagLength;
    Hex2BufOfBuf2Hex(iv);
    Hex2BufOfBuf2Hex(sealed);
  }
}
