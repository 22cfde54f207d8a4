/**
 * The colour shifting of js/colorifier.js, which makes a player's copy of a
 * universal image: every pixel whose colour lies within a distance of the
 * source colour is moved by the difference between the target and the source
 * colour, channel by channel, clamped to the byte range, which keeps the
 * gradients of the repainted area. The alpha bytes are never touched.
 *
 * The canvas work of colorify (drawing the image, reading and writing back its
 * ImageData) is outside this model; the pixel buffer, an RGBA
 * Uint8ClampedArray, is the array given to ProcessData.
 */
module Colorifier {
  import opened Wrappers
  import opened JsText

  /** An element of a Uint8ClampedArray. */
  newtype Byte = x: int | 0 <= x < 256

  datatype Color = Color(r: int, g: int, b: int)

  predicate InByteRange(c: Color) {
    0 <= c.r < 256 && 0 <= c.g < 256 && 0 <= c.b < 256
  }

  // ---------------------------------------------------------------- decodeColor

  /** The value of a hexadecimal digit, in either case. */
  function HexValue(c: CodeUnit): (v: Option<int>)
    ensures v.Some? ==> 0 <= v.value < 16
  {
    if 48 <= c <= 57 then Some(c - 48)          // '0'..'9'
    else if 97 <= c <= 102 then Some(c - 87)    // 'a'..'f'
    else if 65 <= c <= 70 then Some(c - 55)     // 'A'..'F'
    else None
  }

  /** The length of the run of hexadecimal digits that starts the string. */
  function HexPrefix(s: JsString): (k: nat)
    ensures k <= |s|
    ensures forall i :: 0 <= i < k ==> HexValue(s[i]).Some?
    ensures k < |s| ==> HexValue(s[k]).None?
  {
    if s == [] || HexValue(s[0]).None? then 0 else 1 + HexPrefix(s[1..])
  }

  /** The value of a run of hexadecimal digits, the most significant first. */
  function HexDigits(s: JsString): (v: nat)
    requires forall i :: 0 <= i < |s| ==> HexValue(s[i]).Some?
  {
    if s == [] then 0 else HexDigits(s[..|s| - 1]) * 16 + HexValue(s[|s| - 1]).value
  }

  /**
   * parseInt(s, 16): the value of the leading hexadecimal digits, or NaN
   * (None) when there are none.
   */
  function ParseHex(s: JsString): (r: Option<int>)
    ensures r.None? <==> HexPrefix(s) == 0
  {
    var k := HexPrefix(s);
    if k == 0 then None else Some(HexDigits(s[..k]))
  }

  /** String.prototype.substring with ascending bounds, both clamped to the length. */
  function Substring(s: JsString, start: nat, end: nat): (r: JsString)
    requires start <= end
    ensures |r| <= end - start
  {
    var a := if start < |s| then start else |s|;
    var b := if end < |s| then end else |s|;
    s[a..b]
  }

  /**
   * decodeColor: a seven-character colour loses its first character (the
   * '#'), and each channel is two hexadecimal digits. A channel that does not
   * parse is NaN in the source; here the whole colour is then None.
   */
  function DecodeColor(color: JsString): (r: Option<Color>)
    ensures r.Some? ==> InByteRange(r.value)
  {
    var c := if |color| == 7 then color[1..] else color;
    var r, g, b := ParseHex(Substring(c, 0, 2)), ParseHex(Substring(c, 2, 4)), ParseHex(Substring(c, 4, 6));
    if r.Some? && g.Some? && b.Some? then
      assert r.value < 256 && g.value < 256 && b.value < 256 by {
        TwoDigits(Substring(c, 0, 2));
        TwoDigits(Substring(c, 2, 4));
        TwoDigits(Substring(c, 4, 6));
      }
      Some(Color(r.value, g.value, b.value))
    else None
  }

  lemma TwoDigits(s: JsString)
    requires |s| <= 2
    ensures ParseHex(s).Some? ==> ParseHex(s).value < 256
  {
    var k := HexPrefix(s);
    if k == 2 {
      assert s[..k][..1] == s[..1];
      assert HexDigits(s[..1]) == HexValue(s[0]).value by {
        assert s[..1][..0] == [];
      }
    } else if k == 1 {
      assert HexDigits(s[..1]) == HexValue(s[0]).value by {
        assert s[..1][..0] == [];
      }
    }
  }

  // ---------------------------------------------------------------- the CSS form

  /** The lower-case hexadecimal digit of a value 0..15. */
  function HexDigit(v: int): (c: CodeUnit)
    requires 0 <= v < 16
    ensures HexValue(c) == Some(v)
  {
    if v < 10 then 48 + v else 87 + v
  }

  /** A channel as two hexadecimal digits. */
  function HexByte(v: int): (s: JsString)
    requires 0 <= v < 256
    ensures |s| == 2
  {
    [HexDigit(v / 16), HexDigit(v % 16)]
  }

  /** The "#rrggbb" form of a colour, as the player colours are written. */
  function EncodeColor(c: Color): (s: JsString)
    requires InByteRange(c)
    ensures |s| == 7 && s[0] == 35
  {
    [35] + HexByte(c.r) + HexByte(c.g) + HexByte(c.b)
  }

  lemma ParseHexByte(v: int)
    requires 0 <= v < 256
    ensures ParseHex(HexByte(v)) == Some(v)
  {
    var s := HexByte(v);
    assert s[1..][1..] == [];
    assert HexPrefix(s) == 2;
    assert s[..2] == s && s[..1] == [s[0]] && [s[0]][..0] == [];
    assert HexDigits([s[0]]) == v / 16;
    assert HexDigits(s) == (v / 16) * 16 + v % 16;
  }

  /** decodeColor reads back every "#rrggbb" colour, and every "rrggbb" one. */
  lemma {:induction false} DecodeEncode(c: Color)
    requires InByteRange(c)
    ensures DecodeColor(EncodeColor(c)) == Some(c)
    ensures DecodeColor(EncodeColor(c)[1..]) == Some(c)
  {
    var s := EncodeColor(c)[1..];
    assert Substring(s, 0, 2) == HexByte(c.r);
    assert Substring(s, 2, 4) == HexByte(c.g);
    assert Substring(s, 4, 6) == HexByte(c.b);
    ParseHexByte(c.r);
    ParseHexByte(c.g);
    ParseHexByte(c.b);
  }

  /** Whatever the first of seven characters is, decodeColor drops it. */
  lemma FirstIgnored(x: CodeUnit, y: CodeUnit, s: JsString)
    requires |s| == 6
    ensures DecodeColor([x] + s) == DecodeColor([y] + s) == DecodeColor(s)
  {
    assert ([x] + s)[1..] == s && ([y] + s)[1..] == s;
  }

  // ---------------------------------------------------------------- getTargetColor

  /** Math.max(0, Math.min(255, v)). */
  function Clamp(v: int): (r: int)
    ensures 0 <= r < 256
    ensures 0 <= v < 256 ==> r == v
    ensures v < 0 ==> r == 0
    ensures v >= 256 ==> r == 255
  {
    if v < 0 then 0 else if v > 255 then 255 else v
  }

  /** getTargetColor: the pixel moved by the difference between the target and the source, clamped per channel. */
  function TargetColor(source: Color, pixel: Color, target: Color): (r: Color)
    ensures InByteRange(r)
    ensures r.r == Clamp(pixel.r + (target.r - source.r))
    ensures r.g == Clamp(pixel.g + (target.g - source.g))
    ensures r.b == Clamp(pixel.b + (target.b - source.b))
  {
    Color(Clamp(pixel.r + target.r - source.r), Clamp(pixel.g + target.g - source.g), Clamp(pixel.b + target.b - source.b))
  }

  /** The source colour itself becomes exactly the target colour. */
  lemma SourceBecomesTarget(source: Color, target: Color)
    requires InByteRange(target)
    ensures TargetColor(source, source, target) == target
  {
  }

  /** Where no channel is clamped, the differences between two pixels, their gradient, survive the shift. */
  lemma GradientKept(source: Color, p: Color, q: Color, target: Color)
    requires InByteRange(Color(p.r + target.r - source.r, p.g + target.g - source.g, p.b + target.b - source.b))
    requires InByteRange(Color(q.r + target.r - source.r, q.g + target.g - source.g, q.b + target.b - source.b))
    ensures var a, b := TargetColor(source, p, target), TargetColor(source, q, target);
            a.r - b.r == p.r - q.r && a.g - b.g == p.g - q.g && a.b - b.b == p.b - q.b
  {
  }

  // ---------------------------------------------------------------- processData

  /** getDistance(...) <= maxDistance: the Euclidean distance, compared through its square. */
  predicate Within(pixel: Color, source: Color, maxDistance: real) {
    var dr, dg, db := pixel.r - source.r, pixel.g - source.g, pixel.b - source.b;
    maxDistance >= 0.0 && (dr * dr + dg * dg + db * db) as real <= maxDistance * maxDistance
  }

  /** The colour of the pixel that the byte at k belongs to, when all three of its colour bytes exist. */
  function PixelOf(s: seq<Byte>, k: nat): Color
    requires k - k % 4 + 2 < |s|
  {
    var i := k - k % 4;
    Color(s[i] as int, s[i + 1] as int, s[i + 2] as int)
  }

  /** Channel c (0, 1, 2) of a colour. */
  function Channel(c: Color, k: nat): int
    requires k < 3
  {
    if k == 0 then c.r else if k == 1 then c.g else c.b
  }

  /** The byte at k after processData: one of a pixel near the source colour, other than its alpha, is shifted. */
  function Recolored(s: seq<Byte>, k: nat, source: Color, target: Color, maxDistance: real): (r: Byte)
    requires k < |s|
    ensures k % 4 == 3 ==> r == s[k]
    ensures k % 4 < 3 && k - k % 4 + 2 < |s| && Within(PixelOf(s, k), source, maxDistance) ==>
              r as int == Channel(TargetColor(source, PixelOf(s, k), target), k % 4)
    ensures !(k - k % 4 + 2 < |s| && Within(PixelOf(s, k), source, maxDistance)) ==> r == s[k]
  {
    if k % 4 < 3 && k - k % 4 + 2 < |s| && Within(PixelOf(s, k), source, maxDistance) then
      Channel(TargetColor(source, PixelOf(s, k), target), k % 4) as Byte
    else s[k]
  }

  /**
   * processData in place: each four-byte pixel whose colour bytes are all
   * present and lie near the source colour gets the target colour's shift;
   * every other byte, the alpha bytes among them, keeps its value.
   */
  method ProcessData(data: array<Byte>, source: Color, target: Color, maxDistance: real)
    modifies data
    ensures forall k :: 0 <= k < data.Length ==> data[k] == Recolored(old(data[..]), k, source, target, maxDistance)
  {
    ghost var s := data[..];
    var length := data.Length;
    var i := 0;
    ghost var n := 0;
    while i < length
      invariant i == 4 * n && 0 <= i
      invariant i >= length ==> i < length + 4
      invariant forall k :: 0 <= k < length && k < i ==> data[k] == Recolored(s, k, source, target, maxDistance)
      invariant forall k :: i <= k < length ==> data[k] == s[k]
    {
      RecoloredPixel(s, i, n, source, target, maxDistance);
      RecolorPixel(data, i, s, source, target, maxDistance);
      forall k | i <= k < i + 4 && k < length
        ensures data[k] == Recolored(s, k, source, target, maxDistance)
      {
        assert k == i || k == i + 1 || k == i + 2 || k == i + 3;
      }
      i, n := i + 4, n + 1;
    }
  }

  /** One turn of the processData loop: the pixel at i gets its shift when it is near the source colour. */
  method RecolorPixel(data: array<Byte>, i: nat, ghost s: seq<Byte>, source: Color, target: Color, maxDistance: real)
    requires i < data.Length == |s|
    requires forall k :: i <= k < data.Length ==> data[k] == s[k]
    modifies data
    ensures forall k :: 0 <= k < data.Length && !(i <= k < i + 4) ==> data[k] == old(data[k])
    ensures data[i] == Shifted(s, i, 0, source, target, maxDistance)
    ensures i + 1 < data.Length ==> data[i + 1] == Shifted(s, i, 1, source, target, maxDistance)
    ensures i + 2 < data.Length ==> data[i + 2] == Shifted(s, i, 2, source, target, maxDistance)
    ensures i + 3 < data.Length ==> data[i + 3] == Shifted(s, i, 3, source, target, maxDistance)
  {
    var length := data.Length;
    if i + 2 < length {
      var pixel := Color(data[i] as int, data[i + 1] as int, data[i + 2] as int);
      assert pixel == PixelAt(s, i);
      if Within(pixel, source, maxDistance) {
        var newColor := TargetColor(source, pixel, target);
        data[i], data[i + 1], data[i + 2] := newColor.r as Byte, newColor.g as Byte, newColor.b as Byte;
      }
    }
  }

  /** The colour of the pixel whose bytes start at i. */
  function PixelAt(s: seq<Byte>, i: nat): Color
    requires i + 2 < |s|
  {
    Color(s[i] as int, s[i + 1] as int, s[i + 2] as int)
  }

  /** Byte j of the pixel that starts at i after processData. */
  function Shifted(s: seq<Byte>, i: nat, j: nat, source: Color, target: Color, maxDistance: real): Byte
    requires j < 4 && i + j < |s|
  {
    if j < 3 && i + 2 < |s| && Within(PixelAt(s, i), source, maxDistance) then
      Channel(TargetColor(source, PixelAt(s, i), target), j) as Byte
    else s[i + j]
  }

  /** The bytes of a pixel after processData, the n-th pixel starting at byte i. */
  lemma RecoloredPixel(s: seq<Byte>, i: nat, n: nat, source: Color, target: Color, maxDistance: real)
    requires i == 4 * n && i < |s|
    ensures Recolored(s, i, source, target, maxDistance) == Shifted(s, i, 0, source, target, maxDistance)
    ensures i + 1 < |s| ==> Recolored(s, i + 1, source, target, maxDistance) == Shifted(s, i, 1, source, target, maxDistance)
    ensures i + 2 < |s| ==> Recolored(s, i + 2, source, target, maxDistance) == Shifted(s, i, 2, source, target, maxDistance)
    ensures i + 3 < |s| ==> Recolored(s, i + 3, source, target, maxDistance) == Shifted(s, i, 3, source, target, maxDistance)
  {
    Block(i, 0);
    Block(i, 1);
    Block(i, 2);
    Block(i, 3);
    if i + 2 < |s| {
      assert PixelAt(s, i) == PixelOf(s, i) == PixelOf(s, i + 1) == PixelOf(s, i + 2);
    }
  }

  /** The bytes of the pixel that starts at i. */
  lemma Block(i: int, j: int)
    requires i >= 0 && i % 4 == 0 && 0 <= j < 4
    ensures (i + j) % 4 == j && (i + j) - (i + j) % 4 == i
  {
  }
}
