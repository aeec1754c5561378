/** Password hashing of src/utils/secure.ts: the UTF-8 bytes of the
    password go through SHA-256 (FIPS 180-4, section 6.2), and the digest is
    rendered as lowercase hexadecimal, two zero-padded digits per byte. The
    digest itself is a parameter; the encoding on either side of it is
    modelled exactly. */
module Secure {
  import opened Wrappers

  type Byte = b: int | 0 <= b < 256

  /** What `crypto.subtle.digest('SHA-256', …)` returns: 32 bytes. */
  type Digest = d: seq<Byte> | |d| == 32 witness seq(32, i => 0)

  /** `TextEncoder.encode` of one character (a Unicode scalar value). */
  function Utf8Char(c: char): (r: seq<Byte>)
    ensures 1 <= |r| <= 4
    ensures |r| == 1 <==> c as int < 0x80
    ensures |r| == 1 ==> r[0] == c as int
    ensures |r| > 1 ==> 0xC0 <= r[0] && forall k :: 1 <= k < |r| ==> 0x80 <= r[k] < 0xC0
  {
    var n := c as int;
    if n < 0x80 then [n]
    else if n < 0x800 then [0xC0 + n / 64, 0x80 + n % 64]
    else if n < 0x10000 then [0xE0 + n / 4096, 0x80 + (n / 64) % 64, 0x80 + n % 64]
    else [0xF0 + n / 262144, 0x80 + (n / 4096) % 64, 0x80 + (n / 64) % 64, 0x80 + n % 64]
  }

  /** `new TextEncoder().encode(s)`. */
  function Utf8Encode(s: string): (r: seq<Byte>)
    ensures |s| <= |r| <= 4 * |s|
    ensures (forall i :: 0 <= i < |s| ==> s[i] as int < 0x80) ==> |r| == |s|
  {
    if s == [] then [] else Utf8Char(s[0]) + Utf8Encode(s[1..])
  }

  /** An ASCII password is encoded one byte per character, unchanged. */
  lemma {:induction false} Utf8Ascii(s: string)
    requires forall i :: 0 <= i < |s| ==> s[i] as int < 0x80
    ensures forall i :: 0 <= i < |s| ==> Utf8Encode(s)[i] == s[i] as int
  {
    if s != [] {
      Utf8Ascii(s[1..]);
      forall i | 0 <= i < |s| ensures Utf8Encode(s)[i] == s[i] as int {
        if i > 0 { assert s[1..][i - 1] == s[i]; }
      }
    }
  }

  /** A lowercase hexadecimal digit, `0-9a-f`. */
  predicate IsHexDigit(c: char) {
    '0' <= c <= '9' || 'a' <= c <= 'f'
  }

  /** The lowercase digit for `n`. */
  function HexDigit(n: nat): (c: char)
    requires n < 16
    ensures IsHexDigit(c)
  {
    if n < 10 then ('0' as int + n) as char else ('a' as int + n - 10) as char
  }

  /** `n.toString(16)`: lowercase digits, no leading zeros. */
  function Radix16(n: nat): (s: string)
    ensures 1 <= |s|
    ensures n < 16 <==> |s| == 1
    ensures 16 <= n < 256 ==> |s| == 2
    decreases n
  {
    if n < 16 then [HexDigit(n)] else Radix16(n / 16) + [HexDigit(n % 16)]
  }

  /** `'0'` repeated `n` times. */
  function Zeros(n: nat): (s: string)
    ensures |s| == n && forall i :: 0 <= i < n ==> s[i] == '0'
  {
    if n == 0 then "" else "0" + Zeros(n - 1)
  }

  /** `s.padStart(width, '0')`: zeros on the left up to `width`; a string
      already that long is returned as it is. */
  function PadStart(s: string, width: nat): (r: string)
    ensures |s| >= width ==> r == s
    ensures |s| < width ==> |r| == width && r[width - |s|..] == s
                            && forall i :: 0 <= i < width - |s| ==> r[i] == '0'
  {
    if |s| >= width then s else Zeros(width - |s|) + s
  }

  /** `b.toString(16).padStart(2, '0')`. */
  function ByteHex(b: Byte): string {
    PadStart(Radix16(b), 2)
  }

  /** Each byte becomes exactly two lowercase digits: its high nibble, then
      its low nibble. */
  lemma ByteHexDigits(b: Byte)
    ensures ByteHex(b) == [HexDigit(b / 16), HexDigit(b % 16)]
  {
    if b < 16 {
      assert Radix16(b) == [HexDigit(b)];
      assert ByteHex(b) == "0" + [HexDigit(b)];
    } else {
      assert Radix16(b / 16) == [HexDigit(b / 16)];
    }
  }

  /** `Array.from(bytes).map(ByteHex).join('')`. */
  function Hex(bytes: seq<Byte>): (s: string)
    ensures |s| == 2 * |bytes|
  {
    if bytes == [] then ""
    else
      ByteHexDigits(bytes[0]);
      ByteHex(bytes[0]) + Hex(bytes[1..])
  }

  /** The rendering of a non-empty digest: the first byte's two digits,
      then the rest. */
  lemma HexCons(bytes: seq<Byte>)
    requires bytes != []
    ensures Hex(bytes) == [HexDigit(bytes[0] / 16), HexDigit(bytes[0] % 16)] + Hex(bytes[1..])
  {
    ByteHexDigits(bytes[0]);
  }

  /** Byte `i` sits at characters `2i` and `2i+1`. */
  lemma {:induction false} HexAt(bytes: seq<Byte>, i: nat)
    requires i < |bytes|
    ensures Hex(bytes)[2 * i] == HexDigit(bytes[i] / 16)
    ensures Hex(bytes)[2 * i + 1] == HexDigit(bytes[i] % 16)
  {
    HexCons(bytes);
    if i > 0 {
      var rest := Hex(bytes[1..]);
      HexAt(bytes[1..], i - 1);
      assert bytes[1..][i - 1] == bytes[i];
      assert Hex(bytes)[2 * i] == rest[2 * (i - 1)];
      assert Hex(bytes)[2 * i + 1] == rest[2 * (i - 1) + 1];
    }
  }

  /** Every character of the rendering is one of `0-9a-f`. */
  lemma HexChars(bytes: seq<Byte>)
    ensures forall k :: 0 <= k < |Hex(bytes)| ==> IsHexDigit(Hex(bytes)[k])
  {
    forall k | 0 <= k < |Hex(bytes)| ensures IsHexDigit(Hex(bytes)[k]) {
      var i := k / 2;
      HexAt(bytes, i);
      assert k == 2 * i || k == 2 * i + 1;
    }
  }

  /** The value of a lowercase hex digit; anything else (upper case
      included) has none. */
  function HexValue(c: char): (r: Option<nat>)
    ensures r.Some? <==> IsHexDigit(c)
    ensures r.Some? ==> r.value < 16 && HexDigit(r.value) == c
  {
    if '0' <= c <= '9' then Some(c as int - '0' as int)
    else if 'a' <= c <= 'f' then Some(c as int - 'a' as int + 10)
    else None
  }

  /** Reading a rendering back: pairs of lowercase digits, high nibble
      first. */
  function UnHex(s: string): Option<seq<Byte>>
    decreases |s|
  {
    if s == [] then Some([])
    else if |s| == 1 || HexValue(s[0]).None? || HexValue(s[1]).None? then None
    else
      match UnHex(s[2..])
      case None => None
      case Some(rest) => Some([HexValue(s[0]).value * 16 + HexValue(s[1]).value] + rest)
  }

  /** A digit reads back as its own value. */
  lemma HexValueDigit(n: nat)
    requires n < 16
    ensures HexValue(HexDigit(n)) == Some(n)
  {
  }

  /** One step of `UnHex`: a leading pair of digits, then the rest. */
  lemma UnHexStep(s: string)
    requires |s| >= 2
    ensures UnHex(s) ==
              if HexValue(s[0]).Some? && HexValue(s[1]).Some? && UnHex(s[2..]).Some?
              then Some([HexValue(s[0]).value * 16 + HexValue(s[1]).value] + UnHex(s[2..]).value)
              else None
  {
  }

  /** A byte is its high nibble times 16 plus its low nibble. */
  lemma NibbleSplit(b: Byte)
    ensures b / 16 < 16 && b % 16 < 16 && (b / 16) * 16 + b % 16 == b
  {
  }

  /** Two nibbles make a byte whose nibbles they are. */
  lemma NibbleJoin(hi: nat, lo: nat)
    requires hi < 16 && lo < 16
    ensures hi * 16 + lo < 256 && (hi * 16 + lo) / 16 == hi && (hi * 16 + lo) % 16 == lo
  {
  }

  /** Reading back a rendering gives the bytes. */
  lemma {:induction false} UnHexHex(bytes: seq<Byte>)
    ensures UnHex(Hex(bytes)) == Some(bytes)
  {
    if bytes != [] {
      var b, tail := bytes[0], bytes[1..];
      var hi, lo := b / 16, b % 16;
      NibbleSplit(b);
      var s := Hex(bytes);
      HexCons(bytes);
      assert s[0] == HexDigit(hi) && s[1] == HexDigit(lo) && s[2..] == Hex(tail);
      UnHexHex(tail);
      HexValueDigit(hi);
      HexValueDigit(lo);
      UnHexStep(s);
      assert UnHex(s) == Some([hi * 16 + lo] + tail);
      assert [b] + tail == bytes;
    }
  }

  /** Whatever reads back is the rendering of what it reads back to. */
  lemma {:induction false} HexUnHex(s: string, bytes: seq<Byte>)
    requires UnHex(s) == Some(bytes)
    ensures Hex(bytes) == s
    decreases |s|
  {
    if s != [] {
      UnHexStep(s);
      var hi, lo := HexValue(s[0]).value, HexValue(s[1]).value;
      var rest := UnHex(s[2..]).value;
      NibbleJoin(hi, lo);
      var b: Byte := hi * 16 + lo;
      assert bytes == [b] + rest;
      assert bytes[0] == b && bytes[1..] == rest;
      HexUnHex(s[2..], rest);
      HexCons(bytes);
      assert Hex(bytes) == [HexDigit(hi), HexDigit(lo)] + s[2..];
      assert s == [s[0], s[1]] + s[2..];
    }
  }

  /** The rendering is fixed-width, so distinct byte sequences render
      distinctly. */
  lemma HexInjective(a: seq<Byte>, b: seq<Byte>)
    ensures Hex(a) == Hex(b) ==> a == b
  {
    UnHexHex(a);
    UnHexHex(b);
  }

  /** `hashPw(pw)`: the hex rendering of the SHA-256 digest of the UTF-8
      bytes of `pw`, 64 lowercase hex characters. */
  function HashPw(sha256: seq<Byte> -> Digest, pw: string): (h: string)
    ensures |h| == 64
    ensures forall k :: 0 <= k < |h| ==> IsHexDigit(h[k])
  {
    HexChars(sha256(Utf8Encode(pw)));
    Hex(sha256(Utf8Encode(pw)))
  }

  /** `verifyPw(pw, hash)`: string equality with the fresh hash. */
  function VerifyPw(sha256: seq<Byte> -> Digest, pw: string, hash: string): (ok: bool)
    ensures ok ==> |hash| == 64 && forall k :: 0 <= k < |hash| ==> IsHexDigit(hash[k])
    ensures hash == HashPw(sha256, pw) ==> ok
  {
    HashPw(sha256, pw) == hash
  }

  /** A stored hash verifies exactly when it reads back to the password's
      digest; so a password verifies against its own hash, and a hash with
      an upper-case or non-hex character, or of the wrong length, never
      verifies. */
  lemma VerifyPwSpec(sha256: seq<Byte> -> Digest, pw: string, hash: string)
    ensures VerifyPw(sha256, pw, hash) <==> UnHex(hash) == Some(sha256(Utf8Encode(pw)))
    ensures VerifyPw(sha256, pw, HashPw(sha256, pw))
    ensures (|hash| != 64 || exists k :: 0 <= k < |hash| && !IsHexDigit(hash[k])) ==> !VerifyPw(sha256, pw, hash)
  {
    var d := sha256(Utf8Encode(pw));
    UnHexHex(d);
    if UnHex(hash) == Some(d) {
      HexUnHex(hash, d);
    }
  }
}
