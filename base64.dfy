/**
 * The Base64 codec of engine/util/base64.js, on the string after `escape` and
 * before `unescape` (both are JavaScript built-ins outside this model; `escape`
 * only ever yields ASCII, so the encoder's input is a string of byte values).
 *
 * Each do-while iteration of the encoder reads three code units and writes four
 * symbols of the 65-character key 'A'-'Z', 'a'-'z', '0'-'9', '+', '/', '='; a
 * missing unit reads as NaN, which the shifts and masks treat as 0, and pads
 * with '=' (index 64). The decoder reads four symbols and writes one to three
 * code units. Because both loops are do-while loops, the empty string encodes
 * to "AA==", which decodes to a single NUL: the round trip holds for every
 * non-empty escaped string (RoundTrip), and the corrected pair EncodeIntended /
 * DecodeIntended, which map the empty string to itself, round-trips everywhere.
 */
module Base64 {
  import opened JsText

  /** The k-th character of the key string. */
  function Symbol(k: nat): (c: CodeUnit)
    requires k < 65
  {
    if k < 26 then 65 + k            // 'A'..'Z'
    else if k < 52 then 97 + (k - 26) // 'a'..'z'
    else if k < 62 then 48 + (k - 52) // '0'..'9'
    else if k == 62 then 43           // '+'
    else if k == 63 then 47           // '/'
    else 61                           // '='
  }

  /** keyString */
  function KeyString(): (r: JsString)
    ensures |r| == 65
  {
    seq(65, k requires 0 <= k < 65 => Symbol(k))
  }

  const Pad := 64

  /** keyString.indexOf(c): the position of `c` in the key string, or -1. */
  function KeyIndex(c: CodeUnit): (k: int)
    ensures -1 <= k < 65
    ensures k >= 0 ==> Symbol(k) == c
  {
    if 65 <= c <= 90 then c - 65
    else if 97 <= c <= 122 then c - 71
    else if 48 <= c <= 57 then c + 4
    else if c == 43 then 62
    else if c == 47 then 63
    else if c == 61 then 64
    else -1
  }

  /** KeyIndex agrees with searching the key string from the front. */
  lemma KeyIndexIsIndexOf(c: CodeUnit)
    ensures KeyIndex(c) >= 0 <==> c in KeyString()
    ensures KeyIndex(c) >= 0 ==> KeyIndex(c) == IndexOf(KeyString(), c)
  {
    var key := KeyString();
    if KeyIndex(c) >= 0 {
      assert key[KeyIndex(c)] == c;
    }
    if c in key {
      var j := IndexOf(key, c);
      assert key[j] == Symbol(j);
      KeyIndexOfSymbol(j);
    }
  }

  /** Looking a symbol up in the key string gives back its index. */
  lemma KeyIndexOfSymbol(k: nat)
    requires k < 65
    ensures KeyIndex(Symbol(k)) == k
  {
  }

  // ---------------------------------------------------------------- bit operations

  /** The `|` operator on non-negative operands. */
  function Or(a: nat, b: nat): nat
    decreases a + b
  {
    if a == 0 then b
    else if b == 0 then a
    else 2 * Or(a / 2, b / 2) + (if a % 2 == 1 || b % 2 == 1 then 1 else 0)
  }

  function Pow2(k: nat): (p: nat)
    ensures p >= 1
  {
    if k == 0 then 1 else 2 * Pow2(k - 1)
  }

  /** `(a << k) | b` is a plain sum when `b` fits in the low k bits. */
  lemma {:induction false} OrDisjoint(a: nat, b: nat, k: nat)
    requires b < Pow2(k)
    ensures Or(a * Pow2(k), b) == a * Pow2(k) + b
  {
    if k == 0 {
      assert b == 0;
    } else if a != 0 && b != 0 {
      var m := Pow2(k - 1);
      assert a * Pow2(k) == 2 * (a * m);
      assert (a * Pow2(k)) / 2 == a * m;
      assert (a * Pow2(k)) % 2 == 0;
      OrDisjoint(a, b / 2, k - 1);
    }
  }

  lemma Or4(a: nat, b: nat)
    requires b < 4
    ensures Or(a * 4, b) == a * 4 + b
  {
    assert Pow2(2) == 4;
    OrDisjoint(a, b, 2);
  }

  lemma Or16(a: nat, b: nat)
    requires b < 16
    ensures Or(a * 16, b) == a * 16 + b
  {
    assert Pow2(4) == 16;
    OrDisjoint(a, b, 4);
  }

  lemma Or64(a: nat, b: nat)
    requires b < 64
    ensures Or(a * 64, b) == a * 64 + b
  {
    assert Pow2(6) == 64;
    OrDisjoint(a, b, 6);
  }

  // ---------------------------------------------------------------- one group

  /** The four key indexes of one encoder pass (lines 33-36), before padding. */
  datatype Quad = Quad(e1: nat, e2: nat, e3: nat, e4: nat)

  function EncodeQuad(chr1: nat, chr2: nat, chr3: nat): Quad {
    Quad(chr1 / 4,                      // chr1 >> 2
         Or((chr1 % 4) * 16, chr2 / 16), // ((chr1 & 3) << 4) | (chr2 >> 4)
         Or((chr2 % 16) * 4, chr3 / 64), // ((chr2 & 15) << 2) | (chr3 >> 6)
         chr3 % 64)                      // chr3 & 63
  }

  /** The three code units one decoder pass computes (lines 63-65). */
  datatype Triple = Triple(c1: nat, c2: nat, c3: nat)

  function DecodeQuad(q: Quad): Triple {
    Triple(Or(q.e1 * 4, q.e2 / 16),        // (enc1 << 2) | (enc2 >> 4)
           Or((q.e2 % 16) * 16, q.e3 / 4), // ((enc2 & 15) << 4) | (enc3 >> 2)
           Or((q.e3 % 4) * 64, q.e4))      // ((enc3 & 3) << 6) | enc4
  }

  /** Three bytes become four indexes of the key string below the pad, and back. */
  lemma QuadRoundTrip(chr1: nat, chr2: nat, chr3: nat)
    requires chr1 < 256 && chr2 < 256 && chr3 < 256
    ensures var q := EncodeQuad(chr1, chr2, chr3);
      q.e1 < 64 && q.e2 < 64 && q.e3 < 64 && q.e4 < 64
    ensures DecodeQuad(EncodeQuad(chr1, chr2, chr3)) == Triple(chr1, chr2, chr3)
  {
    Or16(chr1 % 4, chr2 / 16);
    Or4(chr2 % 16, chr3 / 64);
    var q := EncodeQuad(chr1, chr2, chr3);
    assert q.e2 / 16 == chr1 % 4 && q.e2 % 16 == chr2 / 16;
    assert q.e3 / 4 == chr2 % 16 && q.e3 % 4 == chr3 / 64;
    Or4(q.e1, q.e2 / 16);
    Or16(q.e2 % 16, q.e3 / 4);
    Or64(q.e3 % 4, q.e4);
  }

  /** The first decoded unit depends on the first two indexes only, so padding leaves it alone. */
  lemma PaddedQuad(q: Quad, e3: nat, e4: nat)
    ensures DecodeQuad(Quad(q.e1, q.e2, e3, e4)).c1 == DecodeQuad(q).c1
    ensures DecodeQuad(Quad(q.e1, q.e2, q.e3, e4)).c2 == DecodeQuad(q).c2
  {
  }

  // ---------------------------------------------------------------- do-while over blocks

  /**
   * A do-while loop that appends g of what is left and advances `w` units until
   * the input is used up: it runs at least once, also on the empty input.
   */
  function Blocks(s: JsString, w: nat, g: JsString -> JsString): JsString
    requires w > 0
    decreases |s|
  {
    g(s) + (if |s| > w then Blocks(s[w..], w, g) else [])
  }

  /** `i` is one of w, 2w, 3w, ... */
  predicate Multiple(i: nat, w: nat)
    requires w > 0
    decreases i
  {
    i == w || (i > w && Multiple(i - w, w))
  }

  /** What the loop has appended once its index has reached `i`. */
  function BlocksPrefix(s: JsString, w: nat, g: JsString -> JsString, i: nat): JsString
    requires w > 0 && Multiple(i, w) && (i == w || i - w < |s|)
    decreases i
  {
    if i == w then g(s) else BlocksPrefix(s, w, g, i - w) + g(s[i - w..])
  }

  lemma BlocksAt(s: JsString, w: nat, g: JsString -> JsString, i: nat)
    requires w > 0 && i < |s|
    ensures Blocks(s[i..], w, g) == g(s[i..]) + (if i + w < |s| then Blocks(s[i + w..], w, g) else [])
  {
    if i + w < |s| {
      assert s[i..][w..] == s[i + w..];
    }
  }

  /** The appended prefix followed by the rest of the loop is the whole loop. */
  lemma {:induction false} BlocksPrefixRest(s: JsString, w: nat, g: JsString -> JsString, i: nat)
    requires w > 0 && Multiple(i, w) && (i == w || i - w < |s|)
    ensures BlocksPrefix(s, w, g, i) + (if i < |s| then Blocks(s[i..], w, g) else []) == Blocks(s, w, g)
    decreases i
  {
    if i > w {
      BlocksPrefixRest(s, w, g, i - w);
      BlocksAt(s, w, g, i - w);
    } else if i < |s| {
      BlocksAt(s, w, g, 0);
      assert s[0..] == s;
    }
  }

  // ---------------------------------------------------------------- encoder

  /** Every unit is a byte value, as every unit of `escape`'s output is. */
  predicate Bytes(s: JsString) {
    forall k :: 0 <= k < |s| ==> s[k] < 256
  }

  /** `s.charCodeAt(k)` as an operand of `>>` and `&`: NaN past the end behaves as 0. */
  function CodeOrZero(s: JsString, k: nat): nat {
    if k < |s| then s[k] else 0
  }

  /** `keyString.charAt(k)`: the k-th symbol, or the empty string past the end. */
  function CharAt(k: nat): (r: JsString)
    ensures |r| <= 1
    ensures k < |KeyString()| ==> r == [KeyString()[k]]
    ensures k >= |KeyString()| ==> r == []
  {
    if k < 65 then [Symbol(k)] else []
  }

  /** One pass of encode's loop on the front of `s`: a missing second unit pads twice, a missing third once. */
  function EncodeGroup(s: JsString): JsString {
    var q := EncodeQuad(CodeOrZero(s, 0), CodeOrZero(s, 1), CodeOrZero(s, 2));
    CharAt(q.e1) + CharAt(q.e2)
      + CharAt(if |s| < 2 then Pad else q.e3)
      + CharAt(if |s| < 3 then Pad else q.e4)
  }

  /** encode after `escape`. */
  function Encode(s: JsString): JsString {
    Blocks(s, 3, EncodeGroup)
  }

  // ---------------------------------------------------------------- decoder

  /** Every unit is a character of the key string, as decode demands of its input. */
  predicate Symbols(t: JsString) {
    forall k :: 0 <= k < |t| ==> KeyIndex(t[k]) >= 0
  }

  /**
   * `keyString.indexOf(t.charAt(k))`: past the end, charAt gives '' and
   * indexOf('') is 0. A unit outside the key string (indexOf -1) is excluded
   * by Decode's precondition; it reads as 0 here only so that one pass is total.
   */
  function IndexAt(t: JsString, k: nat): (r: nat)
    ensures r < 65
    ensures k < |t| && KeyIndex(t[k]) >= 0 ==> Symbol(r) == t[k]
    ensures k >= |t| ==> r == 0
  {
    if k < |t| && KeyIndex(t[k]) >= 0 then KeyIndex(t[k]) else 0
  }

  /** One pass of decode's loop on the front of `t`: a pad in the third or fourth place drops a unit. */
  function DecodeGroup(t: JsString): (r: JsString)
    ensures 1 <= |r| <= 3
    ensures |r| == 1 + (if IndexAt(t, 2) != Pad then 1 else 0) + (if IndexAt(t, 3) != Pad then 1 else 0)
  {
    var q := Quad(IndexAt(t, 0), IndexAt(t, 1), IndexAt(t, 2), IndexAt(t, 3));
    var c := DecodeQuad(q);
    [FromCharCode(c.c1)]
      + (if q.e3 != Pad then [FromCharCode(c.c2)] else [])
      + (if q.e4 != Pad then [FromCharCode(c.c3)] else [])
  }

  /** decode before `unescape`. */
  function Decode(t: JsString): JsString
    requires Symbols(t)
  {
    Blocks(t, 4, DecodeGroup)
  }

  // ---------------------------------------------------------------- methods

  /** encode after `escape` (engine/util/base64.js lines 27-42); the first pass of the do-while precedes the loop. */
  method EncodeString(input: JsString) returns (output: JsString)
    ensures output == Encode(input)
  {
    output := EncodeGroup(input);
    var i := 3;
    while i < |input|
      invariant Multiple(i, 3) && (i == 3 || i - 3 < |input|)
      invariant output == BlocksPrefix(input, 3, EncodeGroup, i)
      decreases |input| - i
    {
      output := output + EncodeGroup(input[i..]);
      i := i + 3;
    }
    BlocksPrefixRest(input, 3, EncodeGroup, i);
  }

  /** decode before `unescape` (engine/util/base64.js lines 56-69); the first pass of the do-while precedes the loop. */
  method DecodeString(input: JsString) returns (output: JsString)
    requires Symbols(input)
    ensures output == Decode(input)
  {
    output := DecodeGroup(input);
    var i := 4;
    while i < |input|
      invariant Multiple(i, 4) && (i == 4 || i - 4 < |input|)
      invariant output == BlocksPrefix(input, 4, DecodeGroup, i)
      decreases |input| - i
    {
      output := output + DecodeGroup(input[i..]);
      i := i + 4;
    }
    BlocksPrefixRest(input, 4, DecodeGroup, i);
  }

  // ---------------------------------------------------------------- properties

  /** The symbols one pass writes on bytes: two indexes below the pad, then indexes or pads. */
  lemma EncodeGroupSymbols(s: JsString)
    requires Bytes(s)
    ensures var q := EncodeQuad(CodeOrZero(s, 0), CodeOrZero(s, 1), CodeOrZero(s, 2));
      q.e1 < 64 && q.e2 < 64 && q.e3 < 64 && q.e4 < 64
      && EncodeGroup(s) == [Symbol(q.e1), Symbol(q.e2),
                            Symbol(if |s| < 2 then Pad else q.e3), Symbol(if |s| < 3 then Pad else q.e4)]
  {
    QuadRoundTrip(CodeOrZero(s, 0), CodeOrZero(s, 1), CodeOrZero(s, 2));
  }

  /** Every encoded character is drawn from the key string. */
  lemma {:induction false} EncodedSymbols(s: JsString)
    requires Bytes(s)
    ensures Symbols(Encode(s))
    decreases |s|
  {
    EncodeGroupSymbols(s);
    var q := EncodeQuad(CodeOrZero(s, 0), CodeOrZero(s, 1), CodeOrZero(s, 2));
    KeyIndexOfSymbol(q.e1);
    KeyIndexOfSymbol(q.e2);
    KeyIndexOfSymbol(if |s| < 2 then Pad else q.e3);
    KeyIndexOfSymbol(if |s| < 3 then Pad else q.e4);
    var g := EncodeGroup(s);
    assert Symbols(g);
    if |s| > 3 {
      BytesSuffix(s, 3);
      EncodedSymbols(s[3..]);
      var rest := Encode(s[3..]);
      assert Encode(s) == g + rest;
      forall k | 0 <= k < |g + rest|
        ensures KeyIndex((g + rest)[k]) >= 0
      {
        if k >= 4 {
          assert (g + rest)[k] == rest[k - 4];
        }
      }
    } else {
      assert Encode(s) == g + [];
    }
  }

  lemma BytesSuffix(s: JsString, i: nat)
    requires Bytes(s) && i <= |s|
    ensures Bytes(s[i..])
  {
    forall k | 0 <= k < |s| - i
      ensures s[i..][k] < 256
    {
      assert s[i..][k] == s[i + k];
    }
  }

  /** The encoding of a non-empty string has 4*ceil(n/3) characters; the empty one has 4. */
  lemma {:induction false} EncodedLength(s: JsString)
    requires Bytes(s)
    ensures |s| >= 1 ==> |Encode(s)| == 4 * ((|s| + 2) / 3)
    ensures |s| == 0 ==> |Encode(s)| == 4
    decreases |s|
  {
    EncodeGroupSymbols(s);
    if |s| > 3 {
      BytesSuffix(s, 3);
      EncodedLength(s[3..]);
    }
  }

  /** One pass of decode undoes one pass of encode on bytes, whatever follows. */
  lemma GroupRoundTrip(s: JsString, rest: JsString)
    requires Bytes(s) && |s| >= 1
    ensures DecodeGroup(EncodeGroup(s) + rest) == s[..if |s| < 3 then |s| else 3]
  {
    var chr1, chr2, chr3 := CodeOrZero(s, 0), CodeOrZero(s, 1), CodeOrZero(s, 2);
    var q := EncodeQuad(chr1, chr2, chr3);
    QuadRoundTrip(chr1, chr2, chr3);
    EncodeGroupSymbols(s);
    var e3 := if |s| < 2 then Pad else q.e3;
    var e4 := if |s| < 3 then Pad else q.e4;
    var t := EncodeGroup(s) + rest;
    assert t[0] == Symbol(q.e1) && t[1] == Symbol(q.e2) && t[2] == Symbol(e3) && t[3] == Symbol(e4);
    KeyIndexOfSymbol(q.e1);
    KeyIndexOfSymbol(q.e2);
    KeyIndexOfSymbol(e3);
    KeyIndexOfSymbol(e4);
    var p := Quad(IndexAt(t, 0), IndexAt(t, 1), IndexAt(t, 2), IndexAt(t, 3));
    assert p == Quad(q.e1, q.e2, e3, e4);
    PaddedQuad(q, e3, e4);
  }

  /** A loop over a first block of exactly `w` units and a rest. */
  lemma BlocksFront(a: JsString, rest: JsString, w: nat, g: JsString -> JsString)
    requires w > 0 && |a| == w
    ensures Blocks(a + rest, w, g) == g(a + rest) + (if rest != [] then Blocks(rest, w, g) else [])
  {
    if rest != [] {
      assert (a + rest)[w..] == rest;
    }
  }

  lemma EncodeGroupLength(s: JsString)
    requires Bytes(s)
    ensures |EncodeGroup(s)| == 4
  {
    EncodeGroupSymbols(s);
  }

  /** The decoder's loop undoes the encoder's loop, stated without decode's precondition. */
  lemma {:induction false} BlocksRoundTrip(s: JsString)
    requires Bytes(s) && |s| >= 1
    ensures Blocks(Encode(s), 4, DecodeGroup) == s
    decreases |s|
  {
    var g := EncodeGroup(s);
    EncodeGroupLength(s);
    if |s| > 3 {
      BytesSuffix(s, 3);
      var rest := Encode(s[3..]);
      EncodeGroupLength(s[3..]);
      BlocksRoundTrip(s[3..]);
      BlocksFront(g, rest, 4, DecodeGroup);
      GroupRoundTrip(s, rest);
      assert s == s[..3] + s[3..];
    } else {
      BlocksFront(g, [], 4, DecodeGroup);
      assert g + [] == g;
      GroupRoundTrip(s, []);
      assert s[..|s|] == s;
    }
  }

  /** decode inverts encode on every non-empty escaped string. */
  lemma RoundTrip(s: JsString)
    requires Bytes(s) && |s| >= 1
    ensures Symbols(Encode(s))
    ensures Decode(Encode(s)) == s
  {
    EncodedSymbols(s);
    BlocksRoundTrip(s);
  }

  /** Counterexample: the empty escaped string encodes to "AA==", which decodes to "\0". */
  lemma EmptyRoundTripFails()
    ensures Encode([]) == [Symbol(0), Symbol(0), Symbol(Pad), Symbol(Pad)]
    ensures Symbols(Encode([])) && Decode(Encode([])) == [0]
  {
    EncodedSymbols([]);
    EncodeGroupSymbols([]);
    var t := Encode([]);
    KeyIndexOfSymbol(0);
    KeyIndexOfSymbol(Pad);
    assert IndexAt(t, 0) == 0 && IndexAt(t, 1) == 0 && IndexAt(t, 2) == Pad && IndexAt(t, 3) == Pad;
    assert Decode(t) == DecodeGroup(t);
  }

  /** The codec with the empty string mapped to itself in both directions. */
  function EncodeIntended(s: JsString): JsString {
    if s == [] then [] else Encode(s)
  }

  function DecodeIntended(t: JsString): JsString
    requires Symbols(t)
  {
    if t == [] then [] else Decode(t)
  }

  lemma RoundTripIntended(s: JsString)
    requires Bytes(s)
    ensures Symbols(EncodeIntended(s))
    ensures DecodeIntended(EncodeIntended(s)) == s
  {
    if s != [] {
      RoundTrip(s);
    }
  }
}
