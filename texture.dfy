/**
 * The integer helpers of js/texture-manager.js: `shiftColor` (parse a "#rrggbb" colour,
 * shift and clamp each channel, print it again), `applyGaussianBlur` (a 3 x 3 blur of the
 * first two channels of an RGBA byte array, in place, from a snapshot) and
 * `drawFractalLines` (a recursive subdivision emitting one cross per call).
 */
module TextureManager {
  import opened Common

  // ---------------------------------------------------------------- shiftColor

  /** The characters `parseInt` skips before a number (ASCII white space, NBSP, BOM, LS, PS). */
  predicate IsJsSpace(c: char) {
    c == ' ' || c == '\t' || c == '\n' || c == '\r' || c == '\U{B}' || c == '\U{C}'
    || c == '\U{A0}' || c == '\U{FEFF}' || c == '\U{2028}' || c == '\U{2029}'
  }

  predicate IsHexDigit(c: char) {
    ('0' <= c <= '9') || ('a' <= c <= 'f') || ('A' <= c <= 'F')
  }

  function HexValue(c: char): (v: nat)
    requires IsHexDigit(c)
    ensures v < 16
  {
    if '0' <= c <= '9' then c as int - '0' as int
    else if 'a' <= c <= 'f' then c as int - 'a' as int + 10
    else c as int - 'A' as int + 10
  }

  /** `s` without its leading `parseInt` white space. */
  function TrimStart(s: string): (t: string)
    ensures |t| <= |s| && t == s[|s| - |t|..]
    ensures t == [] || !IsJsSpace(t[0])
  {
    if s != [] && IsJsSpace(s[0]) then TrimStart(s[1..]) else s
  }

  /** The longest prefix of `s` made of hex digits. */
  function HexPrefix(s: string): (p: string)
    ensures |p| <= |s| && p == s[..|p|]
    ensures forall i :: 0 <= i < |p| ==> IsHexDigit(p[i])
    ensures |p| < |s| ==> !IsHexDigit(s[|p|])
  {
    if s != [] && IsHexDigit(s[0]) then [s[0]] + HexPrefix(s[1..]) else []
  }

  /** The number the hex digits `s` spell, most significant first. */
  function HexNumber(s: string): nat
    requires forall i :: 0 <= i < |s| ==> IsHexDigit(s[i])
  {
    if s == [] then 0 else 16 * HexNumber(s[..|s| - 1]) + HexValue(s[|s| - 1])
  }

  /**
   * `parseInt(s, 16)`: skip leading white space, take an optional sign and an optional
   * "0x"/"0X" prefix, then read the longest run of hex digits; with no digit the result is
   * NaN (`None`). A negative zero is returned as 0.
   */
  function ParseInt16(s: string): Option<int> {
    var t := TrimStart(s);
    var negative := t != [] && t[0] == '-';
    var u := if t != [] && (t[0] == '-' || t[0] == '+') then t[1..] else t;
    var w := if |u| >= 2 && u[0] == '0' && (u[1] == 'x' || u[1] == 'X') then u[2..] else u;
    var digits := HexPrefix(w);
    if digits == [] then None
    else if negative then Some(0 - HexNumber(digits) as int)
    else Some(HexNumber(digits))
  }

  /** `s.slice(start, end)` for non-negative bounds: both are clamped to the length. */
  function Slice(s: string, start: nat, end: nat): string {
    var a := if start < |s| then start else |s|;
    var b := if end < |s| then end else |s|;
    if b <= a then [] else s[a..b]
  }

  /** `Math.min(255, Math.max(0, v))`. */
  function Clamp255(v: int): (c: int)
    ensures 0 <= c <= 255
  {
    if v < 0 then 0 else if v > 255 then 255 else v
  }

  /** The lower-case digit `toString(16)` prints for `d`. */
  function LowerHexDigit(d: nat): char
    requires d < 16
  {
    if d < 10 then ('0' as int + d) as char else ('a' as int + d - 10) as char
  }

  /** `n.toString(16)` for a non-negative integer: lower-case digits, no leading zero. */
  function ToString16(n: nat): string
    decreases n
  {
    if n < 16 then [LowerHexDigit(n)] else ToString16(n / 16) + [LowerHexDigit(n % 16)]
  }

  /** `s.padStart(2, '0')`. */
  function PadStart2(s: string): string {
    if |s| >= 2 then s else seq(2 - |s|, _ => '0') + s
  }

  /** One shifted channel as the template literal prints it; NaN prints as "NaN". */
  function Channel(parsed: Option<int>, amount: int): string {
    match parsed
    case None => "NaN"
    case Some(v) => PadStart2(ToString16(Clamp255(v + amount)))
  }

  /** `shiftColor(hex, amount)`. */
  function ShiftColor(hex: string, amount: int): string {
    var r := ParseInt16(Slice(hex, 1, 3));
    var g := ParseInt16(Slice(hex, 3, 5));
    var b := ParseInt16(Slice(hex, 5, 7));
    "#" + Channel(r, amount) + Channel(g, amount) + Channel(b, amount)
  }

  // ---------------------------------------------------------------- applyGaussianBlur

  /** One entry of a `Uint8ClampedArray`. */
  newtype byte = x: int | 0 <= x < 256

  /** The 3 x 3 kernel in sixteenths (0.0625 = 1/16, 0.125 = 2/16, 0.25 = 4/16), row by row. */
  const Kernel: seq<nat> := [1, 2, 1, 2, 4, 2, 1, 2, 1]

  /** The index of channel `c` of pixel (x, y) in an RGBA array `w` pixels wide. */
  function Index(w: int, x: int, y: int, c: int): int {
    (y * w + x) * 4 + c
  }

  /** Entry `j` of `p`, or 0 outside it (never read by the blur: see `WindowInside`). */
  function Get(p: seq<byte>, j: int): int {
    if 0 <= j < |p| then p[j] as int else 0
  }

  /** The offset, from a centre index, of the k-th kernel tap: row k / 3 - 1, column k % 3 - 1. */
  function TapOffset(w: int, k: nat): int {
    ((k / 3 - 1) * w + (k % 3 - 1)) * 4
  }

  /** The weighted sum of the first k taps around `center`, in sixteenths. */
  function KernelSum(p: seq<byte>, w: int, center: int, k: nat): int
    requires k <= 9
  {
    if k == 0 then 0 else KernelSum(p, w, center, k - 1) + Get(p, center + TapOffset(w, k - 1)) * Kernel[k - 1]
  }

  /** s / 16 rounded to the nearest integer, ties to even. */
  function RoundSixteenths(s: int): int {
    var q := s / 16;
    var r := s % 16;
    if r < 8 then q else if r > 8 then q + 1 else if q % 2 == 0 then q else q + 1
  }

  /** Storing s / 16 into a `Uint8ClampedArray`: clamp to 0..255 and round, ties to even. */
  function StoreSixteenths(s: int): byte {
    var v := RoundSixteenths(s);
    if v < 0 then 0 else if v > 255 then 255 else v as byte
  }

  /** Whether entry i of a w x h RGBA array is one the blur rewrites: channel 0 or 1 of an interior pixel. */
  predicate Blurs(w: nat, h: nat, i: int) {
    w > 0 && 0 <= i && var px := i / 4; i % 4 < 2 && 1 <= px % w < w - 1 && 1 <= px / w < h - 1
  }

  /** The value the blur stores at an entry it rewrites, computed from the snapshot `p`. */
  function Smoothed(p: seq<byte>, w: nat, i: int): byte {
    StoreSixteenths(KernelSum(p, w, i, 9))
  }

  /** The image after `applyGaussianBlur`: rewritten entries smoothed from the original, the rest kept. */
  function Blurred(p: seq<byte>, w: nat, h: nat): (q: seq<byte>)
    ensures |q| == |p|
  {
    seq(|p|, i requires 0 <= i < |p| => if Blurs(w, h, i) then Smoothed(p, w, i) else p[i])
  }

  /** Division by a positive constant undoes `q * d + r`. */
  lemma DivMod(q: int, d: int, r: int)
    requires 0 <= r < d
    ensures (q * d + r) / d == q && (q * d + r) % d == r
  {
    var n := q * d + r;
    var qq, rr := n / d, n % d;
    assert (q - qq) * d == rr - r;
    if q - qq >= 1 {
      MulMonotone(1, q - qq, d);
      assert false;
    } else if q - qq <= -1 {
      MulMonotone(q - qq, -1, d);
      assert false;
    }
  }

  /** An index decodes back to its pixel and channel. */
  lemma IndexDecodes(w: int, x: int, y: int, c: int)
    requires 0 <= x < w && 0 <= c < 4
    ensures Index(w, x, y, c) / 4 == y * w + x && Index(w, x, y, c) % 4 == c
    ensures (y * w + x) / w == y && (y * w + x) % w == x
  {
    DivMod(y * w + x, 4, c);
    DivMod(y, w, x);
  }

  /** A pixel inside the image has its four entries inside the array. */
  lemma IndexInRange(w: int, h: int, x: int, y: int, c: int)
    requires 0 <= x < w && 0 <= y < h && 0 <= c < 4
    ensures 0 <= Index(w, x, y, c) < 4 * w * h
  {
    assert y * w <= (h - 1) * w by {
      MulMonotone(y, h - 1, w);
    }
    assert (h - 1) * w == h * w - w;
    assert 4 * w * h == 4 * (h * w);
  }

  lemma MulMonotone(a: int, b: int, c: int)
    requires a <= b && 0 <= c
    ensures a * c <= b * c
  {
    assert b * c - a * c == (b - a) * c;
  }

  /** The tap read at (x + kx, y + ky) is the centre index plus the tap offset. */
  lemma TapIndex(w: int, x: int, y: int, c: int, ky: int, kx: int)
    requires -1 <= ky <= 1 && -1 <= kx <= 1
    ensures Index(w, x + kx, y + ky, c) == Index(w, x, y, c) + TapOffset(w, (ky + 1) * 3 + (kx + 1))
  {
    var k := (ky + 1) * 3 + (kx + 1);
    DivMod(ky + 1, 3, kx + 1);
    assert k / 3 - 1 == ky && k % 3 - 1 == kx;
    assert ((y + ky) * w + (x + kx)) * 4 + c == (y * w + x) * 4 + c + (ky * w + kx) * 4;
  }

  /** Whether the loops, standing at (x, y) of channel c, have already passed entry i. */
  predicate Visited(w: nat, i: int, x: int, y: int, c: int) {
    w > 0 && var px := i / 4;
    i % 4 < c || (i % 4 == c && (px / w < y || (px / w == y && px % w < x)))
  }

  /** The array while the loops stand at (x, y) of channel c: passed entries rewritten, the rest original. */
  function Partial(p: seq<byte>, w: nat, h: nat, x: int, y: int, c: int): (q: seq<byte>)
    ensures |q| == |p|
  {
    seq(|p|, i requires 0 <= i < |p| => if Blurs(w, h, i) && Visited(w, i, x, y, c) then Smoothed(p, w, i) else p[i])
  }

  /** Every entry is channel `i % 4` of pixel (i / 4 % w, i / 4 / w). */
  lemma IndexOfEntry(w: nat, i: int)
    requires w > 0 && 0 <= i
    ensures i == Index(w, (i / 4) % w, (i / 4) / w, i % 4)
  {
    var px := i / 4;
    assert px == (px / w) * w + px % w;
  }

  /** One step of the x loop rewrites exactly the entry at (x, y, c). */
  lemma PartialStep(p: seq<byte>, w: nat, h: nat, x: int, y: int, c: int)
    requires |p| == 4 * w * h && 1 <= x < w - 1 && 1 <= y < h - 1 && 0 <= c < 2
    ensures 0 <= Index(w, x, y, c) < |p|
    ensures Partial(p, w, h, x + 1, y, c)
      == Partial(p, w, h, x, y, c)[Index(w, x, y, c) := Smoothed(p, w, Index(w, x, y, c))]
  {
    var center := Index(w, x, y, c);
    IndexInRange(w, h, x, y, c);
    IndexDecodes(w, x, y, c);
    assert Blurs(w, h, center);
    var after := Partial(p, w, h, x + 1, y, c);
    var before := Partial(p, w, h, x, y, c);
    forall i | 0 <= i < |p| && i != center
      ensures after[i] == before[i]
    {
      if i % 4 == c && (i / 4) / w == y && (i / 4) % w == x {
        IndexOfEntry(w, i);
        assert false;
      }
    }
  }

  /** Once the x loop has passed the last interior column, row y is done. */
  lemma RowDone(p: seq<byte>, w: nat, h: nat, x: int, y: int, c: int)
    requires x >= w - 1
    ensures Partial(p, w, h, x, y, c) == Partial(p, w, h, 0, y + 1, c)
  {
  }

  /** Once the y loop has passed the last interior row, channel c is done. */
  lemma ChannelDone(p: seq<byte>, w: nat, h: nat, y: int, c: int)
    requires y >= h - 1
    ensures Partial(p, w, h, 0, y, c) == Partial(p, w, h, 0, 0, c + 1)
  {
  }

  /** The weighted sum of the nine taps around (x, y) in channel c, read from `temp` the way the source's kernel loops do. */
  method SumKernel(temp: seq<byte>, w: int, h: int, x: int, y: int, c: int) returns (sum: int)
    requires |temp| == 4 * w * h
    requires 1 <= x < w - 1 && 1 <= y < h - 1 && 0 <= c < 4
    ensures sum == KernelSum(temp, w, Index(w, x, y, c), 9)
  {
    var center := Index(w, x, y, c);
    sum := 0;
    var k := 0;
    var ky := -1;
    while ky <= 1
      invariant -1 <= ky <= 2 && k == (ky + 1) * 3
      invariant sum == KernelSum(temp, w, center, k)
    {
      var kx := -1;
      while kx <= 1
        invariant -1 <= kx <= 2 && k == (ky + 1) * 3 + (kx + 1)
        invariant sum == KernelSum(temp, w, center, k)
      {
        var pixelPos := ((y + ky) * w + (x + kx)) * 4 + c;
        TapIndex(w, x, y, c, ky, kx);
        IndexInRange(w, h, x + kx, y + ky, c);
        sum := sum + temp[pixelPos] as int * Kernel[k];
        k := k + 1;
        kx := kx + 1;
      }
      ky := ky + 1;
    }
  }

  /**
   * `applyGaussianBlur(imageData, width, height)`: channels 0 and 1 of every interior pixel
   * become the kernel-weighted sum of the 3 x 3 neighbourhood, read from a snapshot taken
   * before any write; every other entry is left as it was.
   */
  method ApplyGaussianBlur(pixels: array<byte>, width: nat, height: nat)
    requires pixels.Length == 4 * width * height
    modifies pixels
    ensures pixels[..] == Blurred(old(pixels[..]), width, height)
  {
    var temp := pixels[..];
    var channel := 0;
    while channel < 2
      invariant 0 <= channel <= 2
      invariant pixels[..] == Partial(temp, width, height, 0, 0, channel)
    {
      var y := 1;
      while y < height - 1
        invariant 1 <= y && (y <= height - 1 || height < 2)
        invariant pixels[..] == Partial(temp, width, height, 0, y, channel)
      {
        var x := 1;
        while x < width - 1
          invariant 1 <= x && (x <= width - 1 || width < 2)
          invariant pixels[..] == Partial(temp, width, height, x, y, channel)
        {
          var center := (y * width + x) * 4 + channel;
          PartialStep(temp, width, height, x, y, channel);
          var sum := SumKernel(temp, width, height, x, y, channel);
          pixels[center] := StoreSixteenths(sum);
          x := x + 1;
        }
        RowDone(temp, width, height, x, y, channel);
        y := y + 1;
      }
      ChannelDone(temp, width, height, y, channel);
      channel := channel + 1;
    }
    assert Partial(temp, width, height, 0, 0, 2) == Blurred(temp, width, height);
  }

  // ---------------------------------------------------------------- drawFractalLines

  /** A point of the canvas. */
  datatype Point = Point(x: real, y: real)

  /** The two strokes one call draws: a horizontal line from `hFrom` to `hTo`, a vertical one from `vFrom` to `vTo`. */
  datatype Cross = Cross(hFrom: Point, hTo: Point, vFrom: Point, vTo: Point)

  /**
   * `drawFractalLines(ctx, x, y, width, height, depth)`: the crosses stroked, in drawing order.
   * Nothing for depth <= 0; otherwise the middle cross of the rectangle, then the four
   * quadrants at depth - 1: top left, top right, bottom left, bottom right.
   */
  function FractalLines(x: real, y: real, width: real, height: real, depth: int): seq<Cross>
    decreases depth
  {
    if depth <= 0 then []
    else
      var newWidth := width / 2.0;
      var newHeight := height / 2.0;
      [Cross(Point(x, y + height / 2.0), Point(x + width, y + height / 2.0),
             Point(x + width / 2.0, y), Point(x + width / 2.0, y + height))]
      + FractalLines(x, y, newWidth, newHeight, depth - 1)
      + FractalLines(x + newWidth, y, newWidth, newHeight, depth - 1)
      + FractalLines(x, y + newHeight, newWidth, newHeight, depth - 1)
      + FractalLines(x + newWidth, y + newHeight, newWidth, newHeight, depth - 1)
  }

  /** The depth the wire-frame texture passes. */
  const FractalDepth: int := 4
}

/** What the texture helpers promise. */
module TextureManagerLemmas {
  import opened Common
  import opened TextureManager

  // ---------------------------------------------------------------- shiftColor

  /** The value of two hex digits, the first most significant. */
  function TwoDigitValue(a: char, b: char): nat
    requires IsHexDigit(a) && IsHexDigit(b)
  {
    16 * HexValue(a) + HexValue(b)
  }

  /** A byte as two lower-case hex digits. */
  function Byte2(n: nat): string
    requires n < 256
  {
    [LowerHexDigit(n / 16), LowerHexDigit(n % 16)]
  }

  predicate IsLowerHex(c: char) {
    ('0' <= c <= '9') || ('a' <= c <= 'f')
  }

  /** The lower-case form of a hex digit. */
  function LowerDigit(c: char): char
    requires IsHexDigit(c)
  {
    if 'A' <= c <= 'F' then (c as int - 'A' as int + 'a' as int) as char else c
  }

  /** A colour `shiftColor` reads as three channels: hex digits at positions 1 to 6. */
  predicate ReadableColor(hex: string) {
    |hex| >= 7 && forall i :: 1 <= i < 7 ==> IsHexDigit(hex[i])
  }

  /** `toString(16)` then `padStart(2, '0')` prints a byte as exactly two lower-case digits. */
  lemma PrintByte(n: nat)
    requires n < 256
    ensures PadStart2(ToString16(n)) == Byte2(n)
  {
    if n >= 16 {
      assert ToString16(n / 16) == [LowerHexDigit(n / 16)];
    }
  }

  /** A string of hex digits is its own longest hex prefix. */
  lemma {:induction false} AllHexPrefix(s: string)
    requires forall i :: 0 <= i < |s| ==> IsHexDigit(s[i])
    ensures HexPrefix(s) == s
  {
    if s != [] {
      AllHexPrefix(s[1..]);
    }
  }

  /** `parseInt` reads two hex digits as their value. */
  lemma ParseTwoDigits(a: char, b: char)
    requires IsHexDigit(a) && IsHexDigit(b)
    ensures ParseInt16([a, b]) == Some(TwoDigitValue(a, b))
  {
    var s := [a, b];
    assert TrimStart(s) == s by {
      assert !IsJsSpace(a);
    }
    assert !(s[0] == '-' || s[0] == '+');
    assert s[1] != 'x' && s[1] != 'X';
    AllHexPrefix(s);
    assert HexNumber(s) == 16 * HexNumber([a]) + HexValue(b) by {
      assert s[..1] == [a];
    }
    assert HexNumber([a]) == HexValue(a) by {
      assert [a][..0] == [];
    }
  }

  /** A printed digit reads back as itself. */
  lemma DigitRoundTrip(d: nat)
    requires d < 16
    ensures IsHexDigit(LowerHexDigit(d)) && HexValue(LowerHexDigit(d)) == d
  {
  }

  /** Printing a byte and parsing it back gives the byte. */
  lemma ByteRoundTrip(n: nat)
    requires n < 256
    ensures ParseInt16(PadStart2(ToString16(n))) == Some(n)
  {
    PrintByte(n);
    var hi, lo := LowerHexDigit(n / 16), LowerHexDigit(n % 16);
    DigitRoundTrip(n / 16);
    DigitRoundTrip(n % 16);
    ParseTwoDigits(hi, lo);
    assert TwoDigitValue(hi, lo) == n;
  }

  /** The channel starting at `i` of a readable colour prints as its shifted, clamped value. */
  lemma ChannelOfReadable(hex: string, i: nat, amount: int)
    requires ReadableColor(hex) && i in {1, 3, 5}
    ensures Channel(ParseInt16(Slice(hex, i, i + 2)), amount)
      == Byte2(Clamp255(TwoDigitValue(hex[i], hex[i + 1]) + amount))
  {
    assert Slice(hex, i, i + 2) == [hex[i], hex[i + 1]];
    ParseTwoDigits(hex[i], hex[i + 1]);
    PrintByte(Clamp255(TwoDigitValue(hex[i], hex[i + 1]) + amount));
  }

  /** A colour "#rrggbb" printed from three bytes. */
  function Rgb(r: int, g: int, b: int): string
    requires 0 <= r < 256 && 0 <= g < 256 && 0 <= b < 256
  {
    "#" + Byte2(r) + Byte2(g) + Byte2(b)
  }

  /** The three channels of a readable colour. */
  function Red(hex: string): nat requires ReadableColor(hex) { TwoDigitValue(hex[1], hex[2]) }
  function Green(hex: string): nat requires ReadableColor(hex) { TwoDigitValue(hex[3], hex[4]) }
  function Blue(hex: string): nat requires ReadableColor(hex) { TwoDigitValue(hex[5], hex[6]) }

  /**
   * On a readable colour, each channel becomes clamp(channel + amount, 0, 255), printed as
   * two lower-case hex digits after a "#".
   */
  lemma ShiftReadable(hex: string, amount: int)
    requires ReadableColor(hex)
    ensures ShiftColor(hex, amount) ==
      Rgb(Clamp255(Red(hex) + amount), Clamp255(Green(hex) + amount), Clamp255(Blue(hex) + amount))
  {
    ChannelOfReadable(hex, 1, amount);
    ChannelOfReadable(hex, 3, amount);
    ChannelOfReadable(hex, 5, amount);
  }

  /** A printed byte is two lower-case hex digits. */
  lemma Byte2IsLowerHex(n: nat)
    requires n < 256
    ensures |Byte2(n)| == 2 && IsLowerHex(Byte2(n)[0]) && IsLowerHex(Byte2(n)[1])
  {
  }

  /** A printed colour is "#" and six lower-case hex digits. */
  lemma RgbShape(r: int, g: int, b: int)
    requires 0 <= r < 256 && 0 <= g < 256 && 0 <= b < 256
    ensures var res := Rgb(r, g, b);
      |res| == 7 && res[0] == '#' && forall i :: 1 <= i < 7 ==> IsLowerHex(res[i])
  {
    Byte2IsLowerHex(r);
    Byte2IsLowerHex(g);
    Byte2IsLowerHex(b);
    var res := Rgb(r, g, b);
    assert res[1..3] == Byte2(r) && res[3..5] == Byte2(g) && res[5..7] == Byte2(b);
  }

  /** A parsed channel prints as its shifted, clamped value. */
  lemma ChannelOfParsed(v: int, amount: int)
    ensures Channel(Some(v), amount) == Byte2(Clamp255(v + amount))
  {
    PrintByte(Clamp255(v + amount));
  }

  /** Whenever all three channels parse, the result is "#" and six lower-case hex digits. */
  lemma ShiftShape(hex: string, amount: int)
    requires ParseInt16(Slice(hex, 1, 3)).Some?
    requires ParseInt16(Slice(hex, 3, 5)).Some?
    requires ParseInt16(Slice(hex, 5, 7)).Some?
    ensures var res := ShiftColor(hex, amount);
      |res| == 7 && res[0] == '#' && forall i :: 1 <= i < 7 ==> IsLowerHex(res[i])
  {
    var r := Clamp255(ParseInt16(Slice(hex, 1, 3)).value + amount);
    var g := Clamp255(ParseInt16(Slice(hex, 3, 5)).value + amount);
    var b := Clamp255(ParseInt16(Slice(hex, 5, 7)).value + amount);
    ChannelOfParsed(ParseInt16(Slice(hex, 1, 3)).value, amount);
    ChannelOfParsed(ParseInt16(Slice(hex, 3, 5)).value, amount);
    ChannelOfParsed(ParseInt16(Slice(hex, 5, 7)).value, amount);
    assert ShiftColor(hex, amount) == Rgb(r, g, b);
    RgbShape(r, g, b);
  }

  /** Two digits printed back from their value are the same digits in lower case. */
  lemma ReprintDigits(a: char, b: char)
    requires IsHexDigit(a) && IsHexDigit(b)
    ensures Byte2(TwoDigitValue(a, b)) == [LowerDigit(a), LowerDigit(b)]
  {
    var v := TwoDigitValue(a, b);
    assert v / 16 == HexValue(a) && v % 16 == HexValue(b);
  }

  /** Reprinting a readable colour's channels lower-cases its six digits. */
  lemma ReprintColor(hex: string)
    requires ReadableColor(hex)
    ensures Rgb(Red(hex), Green(hex), Blue(hex)) == ['#'] + seq(6, i requires 0 <= i < 6 => LowerDigit(hex[i + 1]))
  {
    ReprintDigits(hex[1], hex[2]);
    ReprintDigits(hex[3], hex[4]);
    ReprintDigits(hex[5], hex[6]);
  }

  /** Shifting a "#rrggbb" colour by 0 gives it back in lower case. */
  lemma ShiftByZero(hex: string)
    requires ReadableColor(hex) && hex[0] == '#'
    ensures ShiftColor(hex, 0) == [hex[0]] + seq(6, i requires 0 <= i < 6 => LowerDigit(hex[i + 1]))
  {
    ShiftReadable(hex, 0);
    ReprintColor(hex);
  }

  /** White and black. */
  lemma ExtremeColors()
    ensures Rgb(255, 255, 255) == "#ffffff" && Rgb(0, 0, 0) == "#000000"
  {
    assert LowerHexDigit(15) == 'f';
  }

  /** A shift of at least 255 gives white and one of at most -255 black. */
  lemma ShiftSaturates(hex: string, amount: int)
    requires ReadableColor(hex)
    ensures amount >= 255 ==> ShiftColor(hex, amount) == "#ffffff"
    ensures amount <= -255 ==> ShiftColor(hex, amount) == "#000000"
  {
    ShiftReadable(hex, amount);
    ExtremeColors();
    var r, g, b := Clamp255(Red(hex) + amount), Clamp255(Green(hex) + amount), Clamp255(Blue(hex) + amount);
    if amount >= 255 {
      assert r == 255 && g == 255 && b == 255;
    } else if amount <= -255 {
      assert Red(hex) < 256 && Green(hex) < 256 && Blue(hex) < 256;
      assert r == 0 && g == 0 && b == 0;
    }
  }

  // ---------------------------------------------------------------- applyGaussianBlur

  /** The j-th kernel tap around `center`. */
  function Tap(p: seq<byte>, w: int, center: int, j: nat): int {
    Get(p, center + TapOffset(w, j))
  }

  /** The sum of the first k kernel weights, in sixteenths. */
  function KernelWeight(k: nat): int
    requires k <= 9
  {
    if k == 0 then 0 else KernelWeight(k - 1) + Kernel[k - 1]
  }

  /** The weights add up to one: sixteen sixteenths. */
  lemma KernelWeighsOne()
    ensures KernelWeight(9) == 16
  {
    assert KernelWeight(3) == 4;
    assert KernelWeight(6) == 12;
  }

  /** The taps around an interior pixel are its 3 x 3 neighbours: inside the array, in the same channel. */
  lemma TapInside(w: int, h: int, x: int, y: int, c: int, j: nat)
    requires 1 <= x < w - 1 && 1 <= y < h - 1 && 0 <= c < 4 && j < 9
    ensures Index(w, x, y, c) + TapOffset(w, j) == Index(w, x + (j % 3 - 1), y + (j / 3 - 1), c)
    ensures 0 <= Index(w, x, y, c) + TapOffset(w, j) < 4 * w * h
    ensures (Index(w, x, y, c) + TapOffset(w, j)) % 4 == c
  {
    var kx, ky := j % 3 - 1, j / 3 - 1;
    assert ((y + ky) * w + (x + kx)) * 4 + c == (y * w + x) * 4 + c + (ky * w + kx) * 4;
    IndexInRange(w, h, x + kx, y + ky, c);
    IndexDecodes(w, x + kx, y + ky, c);
  }

  /** If every tap lies in [lo, hi], the weighted sum lies between lo and hi times the weights. */
  lemma {:induction false} KernelSumBetween(p: seq<byte>, w: int, center: int, k: nat, lo: int, hi: int)
    requires k <= 9
    requires forall j :: 0 <= j < k ==> lo <= Tap(p, w, center, j) <= hi
    ensures lo * KernelWeight(k) <= KernelSum(p, w, center, k) <= hi * KernelWeight(k)
  {
    if k > 0 {
      KernelSumBetween(p, w, center, k - 1, lo, hi);
      WeightedStep(lo, hi, Tap(p, w, center, k - 1), Kernel[k - 1], KernelWeight(k - 1), KernelSum(p, w, center, k - 1));
    }
  }

  /** Adding one tap t in [lo, hi] with weight `weight` keeps the sum between lo and hi times the weights. */
  lemma WeightedStep(lo: int, hi: int, t: int, weight: nat, total: int, sum: int)
    requires lo * total <= sum <= hi * total && lo <= t <= hi
    ensures lo * (total + weight) <= sum + t * weight <= hi * (total + weight)
  {
    MulMonotone(lo, t, weight);
    MulMonotone(t, hi, weight);
  }

  /** Rounding a number of sixteenths stays within [lo, hi] when the number does. */
  lemma RoundBetween(s: int, lo: int, hi: int)
    requires 16 * lo <= s <= 16 * hi
    ensures lo <= RoundSixteenths(s) <= hi
  {
  }

  /** Rounding is off by at most half: |16 * RoundSixteenths(s) - s| <= 8. */
  lemma RoundNearest(s: int)
    ensures -8 <= 16 * RoundSixteenths(s) - s <= 8
  {
  }

  /**
   * A smoothed entry lies between the smallest and the largest of its nine taps, so the
   * array's clamp never applies, and it is the weighted average rounded to the nearest value.
   */
  lemma SmoothedBetween(p: seq<byte>, w: nat, center: int, lo: int, hi: int)
    requires forall j :: 0 <= j < 9 ==> lo <= Tap(p, w, center, j) <= hi
    ensures lo <= Smoothed(p, w, center) as int <= hi
    ensures Smoothed(p, w, center) as int == RoundSixteenths(KernelSum(p, w, center, 9))
    ensures -8 <= 16 * (Smoothed(p, w, center) as int) - KernelSum(p, w, center, 9) <= 8
  {
    KernelWeighsOne();
    KernelSumBetween(p, w, center, 9, lo, hi);
    KernelSumBetween(p, w, center, 9, 0, 255);
    RoundBetween(KernelSum(p, w, center, 9), lo, hi);
    RoundBetween(KernelSum(p, w, center, 9), 0, 255);
    RoundNearest(KernelSum(p, w, center, 9));
  }

  /**
   * After the blur, channels 2 and 3 and the pixels of the outer rows and columns keep their
   * values; channels 0 and 1 of every interior pixel hold the smoothed value.
   */
  lemma BlurredAt(p: seq<byte>, w: nat, h: nat, x: int, y: int, c: int)
    requires |p| == 4 * w * h && 0 <= x < w && 0 <= y < h && 0 <= c < 4
    ensures 0 <= Index(w, x, y, c) < |p|
    ensures Blurred(p, w, h)[Index(w, x, y, c)]
      == if c < 2 && 1 <= x < w - 1 && 1 <= y < h - 1 then Smoothed(p, w, Index(w, x, y, c)) else p[Index(w, x, y, c)]
  {
    IndexInRange(w, h, x, y, c);
    IndexDecodes(w, x, y, c);
  }

  /** An image whose every channel is constant is left as it is. */
  lemma UniformImageUnchanged(p: seq<byte>, w: nat, h: nat)
    requires |p| == 4 * w * h
    requires forall i :: 0 <= i < |p| ==> p[i] == p[i % 4]
    ensures Blurred(p, w, h) == p
  {
    forall i | 0 <= i < |p| && Blurs(w, h, i)
      ensures Smoothed(p, w, i) == p[i]
    {
      var x, y, c := (i / 4) % w, (i / 4) / w, i % 4;
      IndexOfEntry(w, i);
      forall j | 0 <= j < 9
        ensures Tap(p, w, i, j) == p[i] as int
      {
        TapInside(w, h, x, y, c, j);
        var t := i + TapOffset(w, j);
        assert p[t] == p[t % 4];
      }
      SmoothedBetween(p, w, i, p[i] as int, p[i] as int);
    }
  }

  // ---------------------------------------------------------------- drawFractalLines

  function Pow4(n: nat): nat {
    if n == 0 then 1 else 4 * Pow4(n - 1)
  }

  /** A call at depth d >= 0 strokes (4^d - 1) / 3 crosses; at depth <= 0 none. */
  lemma {:induction false} FractalCount(x: real, y: real, width: real, height: real, depth: int)
    ensures depth <= 0 ==> FractalLines(x, y, width, height, depth) == []
    ensures depth >= 0 ==> 3 * |FractalLines(x, y, width, height, depth)| + 1 == Pow4(depth)
    decreases depth
  {
    if depth > 0 {
      var w, h := width / 2.0, height / 2.0;
      FractalCount(x, y, w, h, depth - 1);
      FractalCount(x + w, y, w, h, depth - 1);
      FractalCount(x, y + h, w, h, depth - 1);
      FractalCount(x + w, y + h, w, h, depth - 1);
    }
  }

  /** The wire-frame texture, at depth 4, strokes 85 crosses. */
  lemma TextureCrossCount(width: real, height: real)
    ensures |FractalLines(0.0, 0.0, width, height, FractalDepth)| == 85
  {
    FractalCount(0.0, 0.0, width, height, FractalDepth);
    PowerOfDepth();
  }

  lemma PowerOfDepth()
    ensures Pow4(FractalDepth) == 256
  {
  }

  /** Whether `pt` lies in the rectangle at (x, y) of the given size. */
  predicate InRect(pt: Point, x: real, y: real, width: real, height: real) {
    x <= pt.x <= x + width && y <= pt.y <= y + height
  }

  /** A cross both of whose strokes are axis-parallel with their ends in the rectangle. */
  predicate CrossIn(c: Cross, x: real, y: real, width: real, height: real) {
    c.hFrom.y == c.hTo.y && c.vFrom.x == c.vTo.x
    && InRect(c.hFrom, x, y, width, height) && InRect(c.hTo, x, y, width, height)
    && InRect(c.vFrom, x, y, width, height) && InRect(c.vTo, x, y, width, height)
  }

  /** A cross inside a quadrant is inside the whole rectangle. */
  lemma QuadrantIn(c: Cross, x: real, y: real, width: real, height: real, qx: real, qy: real)
    requires 0.0 <= width && 0.0 <= height
    requires (qx == x || qx == x + width / 2.0) && (qy == y || qy == y + height / 2.0)
    requires CrossIn(c, qx, qy, width / 2.0, height / 2.0)
    ensures CrossIn(c, x, y, width, height)
  {
  }

  /** For a rectangle of non-negative size, every stroke is axis-parallel and both its ends lie in the rectangle. */
  lemma {:induction false} FractalInside(x: real, y: real, width: real, height: real, depth: int)
    requires 0.0 <= width && 0.0 <= height
    ensures forall c :: c in FractalLines(x, y, width, height, depth) ==> CrossIn(c, x, y, width, height)
    decreases depth
  {
    if depth > 0 {
      var w, h := width / 2.0, height / 2.0;
      var q0, q1 := FractalLines(x, y, w, h, depth - 1), FractalLines(x + w, y, w, h, depth - 1);
      var q2, q3 := FractalLines(x, y + h, w, h, depth - 1), FractalLines(x + w, y + h, w, h, depth - 1);
      var middle := Cross(Point(x, y + height / 2.0), Point(x + width, y + height / 2.0),
                          Point(x + width / 2.0, y), Point(x + width / 2.0, y + height));
      assert FractalLines(x, y, width, height, depth) == [middle] + q0 + q1 + q2 + q3;
      FractalInside(x, y, w, h, depth - 1);
      QuadrantsIn(q0, x, y, width, height, x, y);
      FractalInside(x + w, y, w, h, depth - 1);
      QuadrantsIn(q1, x, y, width, height, x + w, y);
      FractalInside(x, y + h, w, h, depth - 1);
      QuadrantsIn(q2, x, y, width, height, x, y + h);
      FractalInside(x + w, y + h, w, h, depth - 1);
      QuadrantsIn(q3, x, y, width, height, x + w, y + h);
      assert CrossIn(middle, x, y, width, height);
    }
  }

  /** The crosses of a quadrant lie in the whole rectangle. */
  lemma QuadrantsIn(qs: seq<Cross>, x: real, y: real, width: real, height: real, qx: real, qy: real)
    requires 0.0 <= width && 0.0 <= height
    requires (qx == x || qx == x + width / 2.0) && (qy == y || qy == y + height / 2.0)
    requires forall c :: c in qs ==> CrossIn(c, qx, qy, width / 2.0, height / 2.0)
    ensures forall c :: c in qs ==> CrossIn(c, x, y, width, height)
  {
    forall c | c in qs
      ensures CrossIn(c, x, y, width, height)
    {
      QuadrantIn(c, x, y, width, height, qx, qy);
    }
  }
}
