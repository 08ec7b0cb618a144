/** ASCII string operations used by the parsers and sources: case mapping,
    prefix/suffix tests, hexadecimal formatting (`f"{n:0wX}"`, `bytes.hex().upper()`)
    and the hexadecimal reading of `int(s, 16)`. */
module Text {
  import opened Results
  import opened Seqs

  type Byte = b: int | 0 <= b < 256

  const HexDigits: string := "0123456789ABCDEF"

  function UpperChar(c: char): char {
    if 'a' <= c <= 'z' then (c as int - 32) as char else c
  }

  function LowerChar(c: char): char {
    if 'A' <= c <= 'Z' then (c as int + 32) as char else c
  }

  /** `str.upper()` on the ASCII letters; other characters are kept. */
  function Upper(s: string): (r: string)
    ensures |r| == |s|
    ensures forall i :: 0 <= i < |s| ==> r[i] == UpperChar(s[i])
  {
    seq(|s|, i requires 0 <= i < |s| => UpperChar(s[i]))
  }

  /** `str.lower()` on the ASCII letters; other characters are kept. */
  function Lower(s: string): (r: string)
    ensures |r| == |s|
    ensures forall i :: 0 <= i < |s| ==> r[i] == LowerChar(s[i])
  {
    seq(|s|, i requires 0 <= i < |s| => LowerChar(s[i]))
  }

  /** Lower-casing forgets any earlier change of case. */
  lemma LowerForgetsCase(s: string)
    ensures Lower(Upper(s)) == Lower(s)
    ensures Lower(Lower(s)) == Lower(s)
  {
    forall i | 0 <= i < |s|
      ensures LowerChar(UpperChar(s[i])) == LowerChar(s[i])
      ensures LowerChar(LowerChar(s[i])) == LowerChar(s[i])
    {
    }
  }

  predicate StartsWith(s: string, prefix: string) {
    |prefix| <= |s| && s[..|prefix|] == prefix
  }

  predicate EndsWith(s: string, suffix: string) {
    |suffix| <= |s| && s[|s| - |suffix|..] == suffix
  }

  function DigitChar(d: int): char
    requires 0 <= d < 16
  {
    HexDigits[d]
  }

  /** The value of one hexadecimal digit in either case. */
  function DigitValue(c: char): (r: Option<int>)
    ensures r.Some? ==> 0 <= r.value < 16
  {
    if '0' <= c <= '9' then Some(c as int - '0' as int)
    else if 'a' <= c <= 'f' then Some(c as int - 'a' as int + 10)
    else if 'A' <= c <= 'F' then Some(c as int - 'A' as int + 10)
    else None
  }

  predicate IsHexDigits(s: string) {
    forall i :: 0 <= i < |s| ==> DigitValue(s[i]).Some?
  }

  function DigitsValue(s: string): nat
    requires IsHexDigits(s)
    decreases |s|
  {
    if s == [] then 0 else 16 * DigitsValue(s[..|s| - 1]) + DigitValue(s[|s| - 1]).value
  }

  /** `int(s, 16)`: an optional `0x`/`0X` prefix followed by at least one hexadecimal
      digit; anything else raises ValueError, modelled as `None`. */
  function ParseInt16(s: string): (r: Option<nat>)
    ensures r.Some? ==> |s| > 0
  {
    var body := if |s| >= 2 && s[0] == '0' && (s[1] == 'x' || s[1] == 'X') then s[2..] else s;
    if |body| > 0 && IsHexDigits(body) then Some(DigitsValue(body)) else None
  }

  /** Upper-case hexadecimal digits of `n`, without leading zeros. */
  function ToHex(n: nat): (r: string)
    ensures |r| >= 1
    ensures IsHexDigits(r)
    ensures n < 16 <==> |r| == 1
  {
    if n < 16 then [DigitChar(n)] else ToHex(n / 16) + [DigitChar(n % 16)]
  }

  function Zeros(k: nat): (r: string)
    ensures |r| == k
    ensures forall i :: 0 <= i < k ==> r[i] == '0'
  {
    if k == 0 then "" else "0" + Zeros(k - 1)
  }

  /** `f"{n:0{width}X}"`: upper-case hexadecimal padded with zeros to at least `width` digits. */
  function FormatHex(n: nat, width: nat): (r: string)
    ensures |r| >= width
    ensures IsHexDigits(r)
  {
    var digits := ToHex(n);
    (if |digits| < width then Zeros(width - |digits|) else "") + digits
  }

  /** Two upper-case digits of one byte, as `bytes.hex().upper()` writes it. */
  function ByteHex(b: Byte): string {
    [DigitChar(b / 16), DigitChar(b % 16)]
  }

  /** `bytes.hex().upper()`. */
  function HexEncode(bs: seq<Byte>): (r: string)
    ensures |r| == 2 * |bs|
  {
    if bs == [] then "" else ByteHex(bs[0]) + HexEncode(bs[1..])
  }

  /** `[s[i:i+2] for i in range(0, len(s), 2)]`: two-character chunks, the last one
      a single character when the length is odd. */
  function Chunks(s: string): (r: seq<string>)
    ensures |r| == (|s| + 1) / 2
    ensures forall k :: 0 <= k < |r| ==> 1 <= |r[k]| <= 2
    decreases |s|
  {
    if s == [] then [] else if |s| <= 2 then [s] else [s[..2]] + Chunks(s[2..])
  }

  /** Chunk `k` covers characters `2k` and, when present, `2k + 1`. */
  lemma {:induction false} ChunkAt(s: string, k: nat)
    requires k < |Chunks(s)|
    ensures 2 * k < |s|
    ensures Chunks(s)[k] == s[2 * k .. if 2 * k + 2 <= |s| then 2 * k + 2 else |s|]
    decreases |s|
  {
    if |s| > 2 && k > 0 {
      ChunkAt(s[2..], k - 1);
    }
  }

  /** `s * k` for a string. */
  function Repeat(s: string, k: nat): (r: string)
    ensures |r| == |s| * k
  {
    if k == 0 then "" else s + Repeat(s, k - 1)
  }

  // ---- Properties ----

  lemma {:induction false} DigitsValueToHex(n: nat)
    ensures DigitsValue(ToHex(n)) == n
  {
    if n >= 16 {
      var d := ToHex(n);
      assert d[..|d| - 1] == ToHex(n / 16);
      DigitsValueToHex(n / 16);
    }
  }

  lemma {:induction false} DigitsValueZeros(k: nat)
    ensures IsHexDigits(Zeros(k)) && DigitsValue(Zeros(k)) == 0
  {
    if k > 0 {
      var z := Zeros(k);
      assert z[..k - 1] == Zeros(k - 1);
      DigitsValueZeros(k - 1);
    }
  }

  /** Leading zeros do not change a hexadecimal value. */
  lemma {:induction false} DigitsValueLeadingZeros(k: nat, d: string)
    requires IsHexDigits(d)
    ensures IsHexDigits(Zeros(k) + d) && DigitsValue(Zeros(k) + d) == DigitsValue(d)
    decreases |d|
  {
    DigitsValueZeros(k);
    var s := Zeros(k) + d;
    if d != [] {
      assert s[..|s| - 1] == Zeros(k) + d[..|d| - 1];
      DigitsValueLeadingZeros(k, d[..|d| - 1]);
    } else {
      assert s == Zeros(k);
    }
  }

  /** Reading back a padded hexadecimal rendering gives the number. */
  lemma FormatHexValue(n: nat, width: nat)
    ensures DigitsValue(FormatHex(n, width)) == n
  {
    var digits := ToHex(n);
    DigitsValueToHex(n);
    if |digits| < width {
      DigitsValueLeadingZeros(width - |digits|, digits);
    } else {
      assert FormatHex(n, width) == digits;
    }
  }

  /** `int("0x" + f"{n:0wX}", 16) == n`: the id strings the sources write parse back. */
  lemma ParsePrefixedFormatHex(n: nat, width: nat)
    ensures ParseInt16("0x" + FormatHex(n, width)) == Some(n)
  {
    var s := "0x" + FormatHex(n, width);
    assert s[2..] == FormatHex(n, width);
    FormatHexValue(n, width);
  }

  /** Every two-character chunk of an encoding is the encoding of one byte. */
  lemma {:induction false} ChunksOfHexEncode(bs: seq<Byte>)
    ensures |Chunks(HexEncode(bs))| == |bs|
    ensures forall i :: 0 <= i < |bs| ==> Chunks(HexEncode(bs))[i] == ByteHex(bs[i])
  {
    if bs != [] {
      var e := HexEncode(bs);
      ChunksOfHexEncode(bs[1..]);
      if |bs| == 1 {
        assert e == ByteHex(bs[0]);
      } else {
        assert e[..2] == ByteHex(bs[0]);
        assert e[2..] == HexEncode(bs[1..]);
      }
    }
  }

  lemma DigitCharValue(d: int)
    requires 0 <= d < 16
    ensures DigitValue(DigitChar(d)) == Some(d)
  {
    if d < 10 {
      assert DigitChar(d) as int == '0' as int + d;
    } else {
      assert DigitChar(d) as int == 'A' as int + d - 10;
    }
  }

  /** Each chunk of an encoding reads back as its byte. */
  lemma ParseByteHex(b: Byte)
    ensures ParseInt16(ByteHex(b)) == Some(b)
  {
    var s := ByteHex(b);
    DigitCharValue(b / 16);
    DigitCharValue(b % 16);
    assert s[1] != 'x' && s[1] != 'X';
    assert s[..1] == [s[0]];
    assert DigitsValue(s[..1]) == b / 16;
  }

  /** Every character of an encoding is an upper-case hexadecimal digit. */
  lemma {:induction false} HexEncodeDigits(bs: seq<Byte>)
    ensures IsHexDigits(HexEncode(bs))
    ensures Upper(HexEncode(bs)) == HexEncode(bs)
  {
    if bs != [] {
      var e, t := HexEncode(bs), HexEncode(bs[1..]);
      HexEncodeDigits(bs[1..]);
      assert e == ByteHex(bs[0]) + t;
      forall i | 0 <= i < |e|
        ensures DigitValue(e[i]).Some? && UpperChar(e[i]) == e[i]
      {
        if i == 0 {
          UpperDigitChar(bs[0] / 16);
        } else if i == 1 {
          UpperDigitChar(bs[0] % 16);
        } else {
          assert e[i] == t[i - 2];
        }
      }
    }
  }

  /** A digit character is a hexadecimal digit that upper-casing keeps. */
  lemma UpperDigitChar(d: int)
    requires 0 <= d < 16
    ensures DigitValue(DigitChar(d)).Some? && UpperChar(DigitChar(d)) == DigitChar(d)
  {
    DigitCharValue(d);
    if d < 10 {
      assert DigitChar(d) as int == '0' as int + d;
    } else {
      assert DigitChar(d) as int == 'A' as int + d - 10;
    }
  }

  lemma {:induction false} RepeatChunks(s: string, k: nat)
    requires |s| == 2
    ensures Chunks(Repeat(s, k)) == seq(k, _ => s)
  {
    if k > 0 {
      var r := Repeat(s, k);
      RepeatChunks(s, k - 1);
      if k == 1 {
        assert r == s;
      } else {
        assert r[..2] == s && r[2..] == Repeat(s, k - 1);
      }
    }
  }

  /** A hex payload repeats one byte: an even number of characters, at least two, and
      every character equal to the character of the same parity in the first byte. */
  predicate RepeatsOneByte(h: string) {
    |h| >= 2 && |h| % 2 == 0 && forall i :: 0 <= i < |h| ==> h[i] == h[i % 2]
  }

  /** A payload of at least two characters repeats one byte exactly when its chunks
      form a one-element set, and that element is the first byte. */
  lemma RepeatedByteChunks(h: string)
    requires |h| >= 2
    ensures Chunks(h)[0] == h[..2]
    ensures RepeatsOneByte(h) <==> |set c | c in Chunks(h)| == 1
  {
    ChunkAt(h, 0);
    SingleElementSet(Chunks(h));
    if RepeatsOneByte(h) {
      RepeatedByteConstantChunks(h);
    }
    if |set c | c in Chunks(h)| == 1 {
      ConstantChunksRepeatByte(h);
    }
  }

  lemma RepeatedByteConstantChunks(h: string)
    requires RepeatsOneByte(h)
    ensures forall k :: 0 <= k < |Chunks(h)| ==> Chunks(h)[k] == Chunks(h)[0]
  {
    var chunks := Chunks(h);
    ChunkAt(h, 0);
    forall k | 0 <= k < |chunks|
      ensures chunks[k] == chunks[0]
    {
      ChunkAt(h, k);
      assert (2 * k) % 2 == 0 && (2 * k + 1) % 2 == 1;
      assert h[2 * k] == h[0] && h[2 * k + 1] == h[1];
    }
  }

  lemma ConstantChunksRepeatByte(h: string)
    requires |h| >= 2
    requires forall k :: 0 <= k < |Chunks(h)| ==> Chunks(h)[k] == Chunks(h)[0]
    ensures RepeatsOneByte(h)
  {
    var chunks := Chunks(h);
    ChunkAt(h, 0);
    var last := |chunks| - 1;
    ChunkAt(h, last);
    assert |chunks[last]| == 2;
    assert |h| % 2 == 0;
    forall i | 0 <= i < |h|
      ensures h[i] == h[i % 2]
    {
      ChunkAt(h, i / 2);
      assert h[i] == chunks[i / 2][i % 2];
    }
  }

  /** `s[i:j]` for non-negative bounds: both ends are clamped to the length. */
  function Slice(s: string, i: nat, j: nat): (r: string)
    ensures |r| <= |s|
    ensures j <= |s| && i <= j ==> r == s[i..j]
  {
    var lo := if i <= |s| then i else |s|;
    var hi := if j <= |s| then j else |s|;
    if lo <= hi then s[lo..hi] else ""
  }

  /** At most two characters read by `int(s, 16)` never exceed one byte. */
  lemma ShortHexByte(s: string)
    requires |s| <= 2 && ParseInt16(s).Some?
    ensures ParseInt16(s).value < 256
  {
    assert !(|s| >= 2 && s[0] == '0' && (s[1] == 'x' || s[1] == 'X'));
    assert IsHexDigits(s);
    if |s| == 2 {
      assert DigitValue(s[0]).Some? && DigitValue(s[1]).Some?;
      assert s[..1][..0] == [];
      assert DigitsValue(s[..1]) == DigitValue(s[0]).value;
      assert DigitsValue(s) == 16 * DigitValue(s[0]).value + DigitValue(s[1]).value;
    } else {
      assert s[..0] == [];
      assert DigitsValue(s) == DigitValue(s[0]).value;
    }
  }

  /** The first two bytes of an encoding sit at characters 0-1 and 2-3. */
  lemma HexEncodeFirstBytes(bs: seq<Byte>)
    requires |bs| >= 2
    ensures HexEncode(bs)[0..2] == ByteHex(bs[0])
    ensures HexEncode(bs)[2..4] == ByteHex(bs[1])
  {
    var b0, b1, rest := ByteHex(bs[0]), ByteHex(bs[1]), HexEncode(bs[2..]);
    assert |b0| == 2 && |b1| == 2;
    assert bs[1..][0] == bs[1] && bs[1..][1..] == bs[2..];
    assert HexEncode(bs[1..]) == b1 + rest;
    assert HexEncode(bs) == b0 + (b1 + rest);
    assert (b0 + (b1 + rest))[0..2] == b0;
    assert (b0 + (b1 + rest))[2..4] == b1;
  }

  /** `s * k` for a two-character `s` repeats one byte, and that byte is `s`. */
  lemma {:induction false} RepeatRepeatsOneByte(s: string, k: nat)
    requires |s| == 2 && k >= 1
    ensures Repeat(s, k)[..2] == s
    ensures RepeatsOneByte(Repeat(s, k))
  {
    var r := Repeat(s, k);
    assert r == s + Repeat(s, k - 1);
    if k > 1 {
      RepeatRepeatsOneByte(s, k - 1);
      var tail := Repeat(s, k - 1);
      forall i | 0 <= i < |r|
        ensures r[i] == r[i % 2]
      {
        if i >= 2 {
          assert r[i] == tail[i - 2];
          assert (i - 2) % 2 == i % 2;
        }
      }
    }
  }
}
