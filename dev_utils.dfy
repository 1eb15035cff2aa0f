/** String and colour helpers of the game: a clamp on reals, a fixed-length
    string splitter, a short hexadecimal parser and a "#RRGGBB[AA]" colour
    parser. */
module DevUtils {

  /** An `unsigned char`. */
  newtype byte = x: int | 0 <= x < 256

  /** raylib's `Color`: four unsigned-char channels. */
  datatype Color = Color(r: byte, g: byte, b: byte, a: byte)

  function Min(a: int, b: int): int { if a <= b then a else b }

  function RealMin(a: real, b: real): real { if a <= b then a else b }

  function RealMax(a: real, b: real): real { if a <= b then b else a }

  // ---------------------------------------------------------------------
  // clamp

  /** `clamp(d, min, max)`: first raise `d` to `min`, then lower the result
      to `max`. When `min > max` the second step wins and the result is `max`. */
  function Clamp(d: real, min: real, max: real): (r: real)
    ensures min <= max ==> min <= r <= max
    ensures min <= d <= max ==> r == d
    ensures d < min && min <= max ==> r == min
    ensures max < d ==> r == max
    ensures max < min ==> r == max
  {
    var t := if d < min then min else d;
    if t > max then max else t
  }

  /** Clamping twice with the same bounds is clamping once. */
  lemma ClampIdempotent(d: real, min: real, max: real)
    ensures Clamp(Clamp(d, min, max), min, max) == Clamp(d, min, max)
  {
  }

  /** Clamp only looks at the order of its arguments: it is monotone in `d`. */
  lemma ClampMonotone(d1: real, d2: real, min: real, max: real)
    requires d1 <= d2
    ensures Clamp(d1, min, max) <= Clamp(d2, min, max)
  {
  }

  /** With ordered bounds, clamp agrees with the textbook max(min, min(d, max)). */
  lemma ClampIsMaxOfMin(d: real, min: real, max: real)
    requires min <= max
    ensures Clamp(d, min, max) == RealMax(min, RealMin(d, max))
  {
  }

  // ---------------------------------------------------------------------
  // SplitString

  /** Concatenation of a vector of strings, the inverse of splitting. */
  function Flatten(chunks: seq<string>): string
  {
    if chunks == [] then [] else Flatten(chunks[..|chunks| - 1]) + chunks[|chunks| - 1]
  }

  /** The k-th piece of `s` when it is cut every `n` characters
      (`substr(k * n, n)`, which stops at the end of the string). */
  function Chunk(s: string, n: nat, k: nat): string
  {
    s[Min(k * n, |s|)..Min(k * n + n, |s|)]
  }

  /** A positive multiple of a positive number is at least that number. */
  lemma {:induction false} MulAtLeast(d: int, n: int)
    requires d >= 1 && n > 0
    ensures d * n >= n
  {
    if d > 1 {
      MulAtLeast(d - 1, n);
      assert d * n == (d - 1) * n + n;
    }
  }

  /** If `a == q * n + r` with `0 <= r < n` then `a / n == q` and `a % n == r`. */
  lemma DivModUnique(a: int, n: int, q: int, r: int)
    requires n > 0 && 0 <= r < n && a == q * n + r
    ensures a / n == q && a % n == r
  {
    var q', r' := a / n, a % n;
    assert a == q' * n + r';
    assert (q' - q) * n == r - r' by {
      assert q' * n - q * n == (q' - q) * n;
    }
    if q' > q {
      MulAtLeast(q' - q, n);
    } else if q' < q {
      MulAtLeast(q - q', n);
    }
  }

  /** The full pieces fit in the string, with the remainder left over. */
  lemma DivBounds(len: nat, n: int)
    requires n > 0
    ensures 0 <= n * (len / n) && n * (len / n) + len % n == len
    ensures (len / n) * n == n * (len / n)
  {
  }

  /** The arithmetic of one step of the splitting loop. */
  lemma NextPieceFits(i: int, q: int, n: int)
    requires 0 <= i < q && n > 0
    ensures (i + 1) * n == i * n + n
    ensures 0 <= i * n && (i + 1) * n <= q * n
  {
    MulAtLeast(q - i, n);
    assert q * n - i * n == (q - i) * n;
  }

  /** The number of pieces is ceil(|s| / n): the full pieces plus one when
      characters are left over. */
  lemma PieceCount(len: nat, n: int)
    requires n > 0
    ensures (len + n - 1) / n == len / n + (if len % n != 0 then 1 else 0)
  {
    var q, r := len / n, len % n;
    assert len == q * n + r;
    if r == 0 {
      DivModUnique(len + n - 1, n, q, n - 1);
    } else {
      DivModUnique(len + n - 1, n, q + 1, r - 1);
    }
  }

  /** The first `i` pieces of `s` cut every `n` characters. */
  function Chunks(s: string, n: nat, i: nat): (r: seq<string>)
    ensures |r| == i
  {
    if i == 0 then [] else Chunks(s, n, i - 1) + [Chunk(s, n, i - 1)]
  }

  /** The k-th of the first `i` pieces is the k-th chunk. */
  lemma {:induction false} ChunksAt(s: string, n: nat, i: nat)
    ensures forall k :: 0 <= k < i ==> Chunks(s, n, i)[k] == Chunk(s, n, k)
  {
    if i > 0 {
      ChunksAt(s, n, i - 1);
    }
  }

  /** Appending the piece `s[m..k]` to pieces that concatenate to `s[..m]`
      gives pieces that concatenate to `s[..k]`. */
  lemma FlattenAppend(s: string, m: int, k: int, pieces: seq<string>)
    requires 0 <= m <= k <= |s| && Flatten(pieces) == s[..m]
    ensures Flatten(pieces + [s[m..k]]) == s[..k]
  {
    assert (pieces + [s[m..k]])[..|pieces|] == pieces;
    assert s[..m] + s[m..k] == s[..k];
  }

  /** Where the `k`-th piece starts, for `k` below a number of pieces that fit. */
  lemma PieceBounds(s: string, n: nat, k: nat, i: nat)
    requires k < i && i * n <= |s|
    ensures 0 <= k * n && k * n + n <= i * n
    ensures Chunk(s, n, k) == s[k * n..k * n + n]
  {
    if n > 0 {
      NextPieceFits(k, i, n);
    }
  }

  /** While they fit, the first `i` pieces concatenate to the first `i * n`
      characters. */
  lemma {:induction false} ChunksFlatten(s: string, n: nat, i: nat)
    requires i * n <= |s|
    ensures Flatten(Chunks(s, n, i)) == s[..i * n]
  {
    if i > 0 {
      var m := (i - 1) * n;
      PieceBounds(s, n, i - 1, i);
      assert m + n == i * n;
      ChunksFlatten(s, n, i - 1);
      FlattenAppend(s, m, m + n, Chunks(s, n, i - 1));
    }
  }

  /** While they fit, each of the first `i` pieces is `n` long. */
  lemma ChunksLength(s: string, n: nat, i: nat)
    requires i * n <= |s|
    ensures forall k :: 0 <= k < i ==> |Chunks(s, n, i)[k]| == n
  {
    ChunksAt(s, n, i);
    forall k | 0 <= k < i
      ensures |Chunks(s, n, i)[k]| == n
    {
      PieceBounds(s, n, k, i);
    }
  }

  /** The split `SplitString` computes: the `|str| / n` full pieces, then the
      leftover characters as one shorter piece, if there are any. */
  function Split(str: string, n: int): (r: seq<string>)
    requires n > 0
    ensures |r| == |str| / n + (if |str| % n != 0 then 1 else 0)
  {
    var q := |str| / n;
    DivBounds(|str|, n);
    if |str| % n != 0 then Chunks(str, n, q) + [str[n * q..]] else Chunks(str, n, q)
  }

  /** Appending the rest of a string to pieces that concatenate to its
      beginning gives pieces that concatenate to the whole string. */
  lemma FlattenWithRest(str: string, m: int, pieces: seq<string>)
    requires 0 <= m <= |str| && Flatten(pieces) == str[..m]
    ensures Flatten(pieces + [str[m..]]) == str
  {
    assert (pieces + [str[m..]])[..|pieces|] == pieces;
    assert str[..m] + str[m..] == str;
  }

  /** Concatenating the pieces of a split gives back the string. */
  lemma SplitFlatten(str: string, n: int)
    requires n > 0
    ensures Flatten(Split(str, n)) == str
  {
    var q := |str| / n;
    DivBounds(|str|, n);
    ChunksFlatten(str, n, q);
    if |str| % n != 0 {
      FlattenWithRest(str, n * q, Chunks(str, n, q));
    } else {
      assert str[..q * n] == str;
    }
  }

  /** A split has ceil(|str| / n) pieces, none for the empty string. */
  lemma SplitCount(str: string, n: int)
    requires n > 0
    ensures |Split(str, n)| == (|str| + n - 1) / n
    ensures str == [] ==> Split(str, n) == []
  {
    PieceCount(|str|, n);
  }

  /** Every piece of a split is the corresponding chunk; all but the last are
      `n` long and the last is 1 to `n` long. */
  lemma SplitPieces(str: string, n: int)
    requires n > 0
    ensures forall k :: 0 <= k < |Split(str, n)| ==> Split(str, n)[k] == Chunk(str, n, k)
    ensures forall k :: 0 <= k < |Split(str, n)| - 1 ==> |Split(str, n)[k]| == n
    ensures |Split(str, n)| > 0 ==> 1 <= |Split(str, n)[|Split(str, n)| - 1]| <= n
  {
    var q := |str| / n;
    var r := Split(str, n);
    assert q * n + |str| % n == |str|;
    assert n * q == q * n;
    ChunksAt(str, n, q);
    ChunksLength(str, n, q);
    if |str| % n != 0 {
      assert r[q] == Chunk(str, n, q);
    }
  }

  /** One turn of the splitting loop adds the next full piece. */
  lemma ChunksStep(str: string, n: int, i: int, q: int)
    requires n > 0 && 0 <= i < q && q == |str| / n
    ensures 0 <= i * n && i * n + n <= |str|
    ensures Chunks(str, n, i) + [str[i * n..i * n + n]] == Chunks(str, n, i + 1)
  {
    NextPieceFits(i, q, n);
    assert q * n <= |str|;
    assert str[i * n..i * n + n] == Chunk(str, n, i);
  }

  /** `SplitString(str, splitLength)`: the loop collects the full pieces, then
      the leftover characters are added as one more piece. */
  method SplitString(str: string, splitLength: int) returns (ret: seq<string>)
    requires splitLength > 0
    ensures ret == Split(str, splitLength)
  {
    var numSubstrings := |str| / splitLength;
    ret := [];
    var i := 0;
    while i < numSubstrings
      invariant 0 <= i <= numSubstrings
      invariant ret == Chunks(str, splitLength, i)
    {
      ChunksStep(str, splitLength, i, numSubstrings);
      ret := ret + [str[i * splitLength..i * splitLength + splitLength]];
      i := i + 1;
    }
    DivBounds(|str|, splitLength);
    if |str| % splitLength != 0 {
      ret := ret + [str[splitLength * numSubstrings..]];
    }
  }

  // ---------------------------------------------------------------------
  // HexToChar

  predicate IsHexDigit(c: char)
  {
    '0' <= c <= '9' || 'a' <= c <= 'f' || 'A' <= c <= 'F'
  }

  predicate IsHexString(s: string)
  {
    forall i :: 0 <= i < |s| ==> IsHexDigit(s[i])
  }

  /** The value of one hexadecimal digit, in either case. */
  function HexDigitValue(c: char): (v: nat)
    requires IsHexDigit(c)
    ensures v < 16
  {
    if '0' <= c <= '9' then c as int - '0' as int
    else if 'a' <= c <= 'f' then c as int - 'a' as int + 10
    else c as int - 'A' as int + 10
  }

  /** The value of a hexadecimal numeral, most significant digit first
      (what `std::hex` extraction into an `int` reads). */
  function HexValue(s: string): nat
    requires IsHexString(s)
  {
    if s == [] then 0 else 16 * HexValue(s[..|s| - 1]) + HexDigitValue(s[|s| - 1])
  }

  /** `HexToChar(hex)`: parse `hex` as a hexadecimal number and narrow it to an
      `unsigned char`. On one or two digits the narrowing loses nothing. */
  function HexToChar(hex: string): (b: byte)
    requires 1 <= |hex| <= 2 && IsHexString(hex)
    ensures b as int == HexValue(hex)
    ensures |hex| == 1 ==> b as int == HexDigitValue(hex[0])
    ensures |hex| == 2 ==> b as int == 16 * HexDigitValue(hex[0]) + HexDigitValue(hex[1])
  {
    assert HexValue(hex[..1]) == HexDigitValue(hex[0]) by {
      assert hex[..1][..0] == [];
    }
    assert |hex| == 2 ==> hex[..|hex| - 1] == hex[..1];
    (HexValue(hex) % 256) as byte
  }

  /** The lower-case digit for a value below 16. */
  function HexDigitChar(d: nat): (c: char)
    requires d < 16
    ensures IsHexDigit(c) && HexDigitValue(c) == d
  {
    if d < 10 then ('0' as int + d) as char else ('a' as int + d - 10) as char
  }

  /** Two lower-case hex digits for a byte, as "%02x" would print it. */
  function ToHex(b: byte): (s: string)
    ensures |s| == 2 && IsHexString(s)
  {
    [HexDigitChar(b as int / 16), HexDigitChar(b as int % 16)]
  }

  /** Printing a byte as two hex digits and parsing it back gives the byte. */
  lemma HexToCharRoundTrip(b: byte)
    ensures HexToChar(ToHex(b)) == b
  {
    var s := ToHex(b);
    assert HexToChar(s) as int == 16 * (b as int / 16) + b as int % 16;
  }

  // ---------------------------------------------------------------------
  // HexCode

  /** What `HexCode` asks of its argument: a first character to drop, and hex
      digits in the rest whenever the rest is long enough to be parsed. */
  predicate HexCodeReady(hexCode: string)
  {
    |hexCode| > 0 && (5 <= |hexCode| - 1 <= 8 ==> IsHexString(hexCode[1..]))
  }

  /** The colour a "#RRGGBB" / "#RRGGBBAA" string denotes, stated on the
      characters after the first: 5 or 6 of them give three channels and an
      opaque alpha, 7 or 8 give four channels, any other count gives the
      all-zero colour. A short last group is parsed as a single digit. */
  function HexColor(hexCode: string): (c: Color)
    requires HexCodeReady(hexCode)
    ensures var n := |hexCode| - 1;
      (n == 5 || n == 6 ==>
        c.r as int == HexValue(hexCode[1..3]) && c.g as int == HexValue(hexCode[3..5]) &&
        c.b as int == HexValue(hexCode[5..]) && c.a == 0xff) &&
      (n == 7 || n == 8 ==>
        c.r as int == HexValue(hexCode[1..3]) && c.g as int == HexValue(hexCode[3..5]) &&
        c.b as int == HexValue(hexCode[5..7]) && c.a as int == HexValue(hexCode[7..])) &&
      (!(5 <= n <= 8) ==> c == Color(0, 0, 0, 0))
  {
    var digits := hexCode[1..];
    assert 5 <= |digits| ==> digits[0..2] == hexCode[1..3] && digits[2..4] == hexCode[3..5] && digits[4..] == hexCode[5..];
    assert 7 <= |digits| ==> digits[4..6] == hexCode[5..7] && digits[6..] == hexCode[7..];
    if |digits| == 5 || |digits| == 6 then
      Color(HexToChar(digits[0..2]), HexToChar(digits[2..4]), HexToChar(digits[4..]), 0xff)
    else if |digits| == 7 || |digits| == 8 then
      Color(HexToChar(digits[0..2]), HexToChar(digits[2..4]), HexToChar(digits[4..6]), HexToChar(digits[6..]))
    else
      Color(0, 0, 0, 0)
  }

  /** Cut in pairs, 5 or 6 characters give three pieces and 7 or 8 give four,
      and no other length does. */
  lemma SplitInPairs(digits: string)
    ensures |Split(digits, 2)| == 3 <==> |digits| == 5 || |digits| == 6
    ensures |Split(digits, 2)| == 4 <==> |digits| == 7 || |digits| == 8
    ensures |Split(digits, 2)| == 3 ==>
      Split(digits, 2) == [digits[0..2], digits[2..4], digits[4..]]
    ensures |Split(digits, 2)| == 4 ==>
      Split(digits, 2) == [digits[0..2], digits[2..4], digits[4..6], digits[6..]]
  {
    var r := Split(digits, 2);
    SplitCount(digits, 2);
    SplitPieces(digits, 2);
    if |r| == 3 {
      assert r[0] == digits[0..2] && r[1] == digits[2..4];
      assert r[2] == Chunk(digits, 2, 2) == digits[4..];
      assert r == [r[0], r[1], r[2]];
    } else if |r| == 4 {
      assert r[0] == digits[0..2] && r[1] == digits[2..4] && r[2] == digits[4..6];
      assert r[3] == Chunk(digits, 2, 3) == digits[6..];
      assert r == [r[0], r[1], r[2], r[3]];
    }
  }

  /** `HexCode(hexCode)`: erase the first character of the copy, split the
      rest into 2-character pieces and branch on the number of pieces. */
  method HexCode(hexCode: string) returns (c: Color)
    requires HexCodeReady(hexCode)
    ensures c == HexColor(hexCode)
  {
    var code := hexCode;
    code := code[1..];
    var splitString := SplitString(code, 2);
    SplitInPairs(code);
    if |splitString| == 3 {
      assert |code| == 5 || |code| == 6;
      c := Color(HexToChar(splitString[0]), HexToChar(splitString[1]), HexToChar(splitString[2]), 0xff);
    } else if |splitString| == 4 {
      assert |code| == 7 || |code| == 8;
      c := Color(HexToChar(splitString[0]), HexToChar(splitString[1]), HexToChar(splitString[2]), HexToChar(splitString[3]));
    } else {
      c := Color(0x00, 0x00, 0x00, 0x00);
    }
  }

  /** "#" followed by four printed bytes parses back to those four bytes. */
  lemma HexColorRoundTrip(c: Color)
    ensures HexCodeReady("#" + ToHex(c.r) + ToHex(c.g) + ToHex(c.b) + ToHex(c.a))
    ensures HexColor("#" + ToHex(c.r) + ToHex(c.g) + ToHex(c.b) + ToHex(c.a)) == c
  {
    var s := "#" + ToHex(c.r) + ToHex(c.g) + ToHex(c.b) + ToHex(c.a);
    var digits := s[1..];
    assert digits == ToHex(c.r) + ToHex(c.g) + ToHex(c.b) + ToHex(c.a);
    assert digits[0..2] == ToHex(c.r);
    assert digits[2..4] == ToHex(c.g);
    assert digits[4..6] == ToHex(c.b);
    assert digits[6..] == ToHex(c.a);
    HexToCharRoundTrip(c.r);
    HexToCharRoundTrip(c.g);
    HexToCharRoundTrip(c.b);
    HexToCharRoundTrip(c.a);
  }

  /** "#" followed by three printed bytes parses to those bytes, fully opaque. */
  lemma HexColorOpaqueRoundTrip(r: byte, g: byte, b: byte)
    ensures HexCodeReady("#" + ToHex(r) + ToHex(g) + ToHex(b))
    ensures HexColor("#" + ToHex(r) + ToHex(g) + ToHex(b)) == Color(r, g, b, 0xff)
  {
    var s := "#" + ToHex(r) + ToHex(g) + ToHex(b);
    var digits := s[1..];
    assert digits == ToHex(r) + ToHex(g) + ToHex(b);
    assert digits[0..2] == ToHex(r);
    assert digits[2..4] == ToHex(g);
    assert digits[4..] == ToHex(b);
    HexToCharRoundTrip(r);
    HexToCharRoundTrip(g);
    HexToCharRoundTrip(b);
  }

  /** Strings whose remainder has a length other than 5 to 8 give all zeros. */
  lemma HexColorOtherLengths(hexCode: string)
    requires |hexCode| > 0 && !(5 <= |hexCode| - 1 <= 8)
    ensures HexCodeReady(hexCode) && HexColor(hexCode) == Color(0, 0, 0, 0)
  {
  }

  /** `BIRD_COLOR`. */
  lemma BirdColor()
    ensures HexCodeReady("#f5c542") && HexColor("#f5c542") == Color(0xf5, 0xc5, 0x42, 0xff)
  {
    assert ToHex(0xf5) == "f5" && ToHex(0xc5) == "c5" && ToHex(0x42) == "42";
    assert "#f5c542" == "#" + ToHex(0xf5) + ToHex(0xc5) + ToHex(0x42);
    HexColorOpaqueRoundTrip(0xf5, 0xc5, 0x42);
  }

  /** `PIPE_COLOR`. */
  lemma PipeColor()
    ensures HexCodeReady("#2fc258") && HexColor("#2fc258") == Color(0x2f, 0xc2, 0x58, 0xff)
  {
    assert ToHex(0x2f) == "2f" && ToHex(0xc2) == "c2" && ToHex(0x58) == "58";
    assert "#2fc258" == "#" + ToHex(0x2f) + ToHex(0xc2) + ToHex(0x58);
    HexColorOpaqueRoundTrip(0x2f, 0xc2, 0x58);
  }

  /** `GAME_OVER_TEXT_COLOR`. */
  lemma GameOverTextColor()
    ensures HexCodeReady("#000000") && HexColor("#000000") == Color(0x00, 0x00, 0x00, 0xff)
  {
    assert ToHex(0x00) == "00";
    assert "#000000" == "#" + ToHex(0x00) + ToHex(0x00) + ToHex(0x00);
    HexColorOpaqueRoundTrip(0x00, 0x00, 0x00);
  }
}
