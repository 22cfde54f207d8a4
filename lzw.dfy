/**
 * The LZW string codec of js/lzw.js. Both directions walk the input one code
 * unit at a time; the encoder grows a dictionary from phrases to codes starting
 * at 256, the decoder rebuilds the inverse dictionary one entry behind.
 *
 * The encoder's final conversion loop runs over the INPUT length rather than the
 * list of emitted codes, so whenever a phrase of two or more units was emitted
 * the encoding is padded with NUL code units (see EncodeAsWritten). The corrected
 * encoder (EncodeIntended) converts exactly the emitted codes, and RoundTrip is
 * proved for it.
 */
module Lzw {
  import opened JsText
  import Seqs

  /** Longest input for which every dictionary code stays below 0x10000. */
  const MaxInput := 0x1_0000 - 256

  // ---------------------------------------------------------------- encoder

  /**
   * The encoder's state. Its dictionary holds only the phrases the encoder
   * added; the names a plain JavaScript object inherits from Object.prototype
   * are not in it.
   */
  datatype Encoder = Encoder(dictionary: map<JsString, int>, phrase: JsString, code: int, output: seq<int>)

  /**
   * The value pushed for a finished phrase: its dictionary code when it is
   * longer than one unit, otherwise its only code unit. The cases where the
   * source would push `undefined` or NaN become 0, the unit
   * String.fromCharCode later makes of them.
   */
  function Emitted(dictionary: map<JsString, int>, phrase: JsString): int
  {
    if |phrase| > 1 then (if phrase in dictionary then dictionary[phrase] else 0)
    else if |phrase| == 1 then phrase[0]
    else 0
  }

  /** One iteration of the encoder's main loop, reading `character`. */
  function EncodeStep(e: Encoder, character: CodeUnit): Encoder
  {
    if e.phrase + [character] in e.dictionary then
      e.(phrase := e.phrase + [character])
    else
      Encoder(e.dictionary[e.phrase + [character] := e.code], [character], e.code + 1,
              e.output + [Emitted(e.dictionary, e.phrase)])
  }

  /** The encoder's main loop from index `i` on. */
  function EncodeFrom(data: JsString, i: nat, e: Encoder): Encoder
    requires i <= |data|
    decreases |data| - i
  {
    if i == |data| then e else EncodeFrom(data, i + 1, EncodeStep(e, data[i]))
  }

  function EncodeStart(s: JsString): Encoder
    requires |s| > 0
  {
    Encoder(map[], [s[0]], 256, [])
  }

  /** The codes the encoder pushes, before they are turned into characters. */
  function Codes(s: JsString): seq<int>
    requires |s| > 0
  {
    var e := EncodeFrom(s, 1, EncodeStart(s));
    e.output + [Emitted(e.dictionary, e.phrase)]
  }

  /** String.fromCharCode applied to every code. */
  function ToUnits(codes: seq<int>): (r: JsString)
    ensures |r| == |codes|
  {
    seq(|codes|, k requires 0 <= k < |codes| => FromCharCode(codes[k]))
  }

  /**
   * The conversion loop as written: it visits the indexes below the input
   * length, and every index past the emitted codes holds `undefined`, which
   * String.fromCharCode turns into a NUL unit.
   */
  function Padded(codes: seq<int>, length: nat): (r: JsString)
    ensures |r| == length
  {
    seq(length, k requires 0 <= k < length => if k < |codes| then FromCharCode(codes[k]) else 0)
  }

  function EncodeAsWritten(s: JsString): JsString
    requires |s| > 0
  {
    Padded(Codes(s), |s|)
  }

  function EncodeIntended(s: JsString): JsString
    requires |s| > 0
  {
    ToUnits(Codes(s))
  }

  // ---------------------------------------------------------------- decoder

  datatype Decoder = Decoder(dictionary: map<int, JsString>, character: JsString, oldPhrase: JsString,
                             output: JsString, code: int)

  /** The phrase a code stands for: a literal below 256, else a dictionary entry, else the KwKwK guess. */
  function DecodedPhrase(d: Decoder, c: CodeUnit): JsString
  {
    if c < 256 then [c]
    else if c in d.dictionary && d.dictionary[c] != [] then d.dictionary[c]
    else d.oldPhrase + d.character
  }

  /** One iteration of the decoder's loop. `charAt(0)` of an empty phrase is the empty string. */
  function DecodeStep(d: Decoder, c: CodeUnit): Decoder
  {
    var phrase := DecodedPhrase(d, c);
    var character := if phrase == [] then [] else [phrase[0]];
    Decoder(d.dictionary[d.code := d.oldPhrase + character], character, phrase, d.output + phrase, d.code + 1)
  }

  /** The decoder before its loop: the first unit is taken literally, whatever its value. */
  function DecodeStart(c: CodeUnit): Decoder
  {
    Decoder(map[], [c], [c], [c], 256)
  }

  function DecodeFrom(data: JsString, i: nat, d: Decoder): Decoder
    requires i <= |data|
    decreases |data| - i
  {
    if i == |data| then d else DecodeFrom(data, i + 1, DecodeStep(d, data[i]))
  }

  /** decode: the empty string decodes to the empty string (joining `[undefined]`). */
  function Decode(s: JsString): JsString
  {
    if s == [] then [] else DecodeFrom(s, 1, DecodeStart(s[0])).output
  }

  // ---------------------------------------------------------------- methods

  /** The main loop of encode (js/lzw.js lines 17-35). */
  method EncodeCodes(s: JsString) returns (codes: seq<int>)
    requires |s| > 0
    ensures codes == Codes(s)
  {
    var dictionary: map<JsString, int> := map[];
    var phrase: JsString := [s[0]];
    var code := 256;
    var output: seq<int> := [];
    var i := 1;
    while i < |s|
      invariant 1 <= i <= |s|
      invariant EncodeFrom(s, i, Encoder(dictionary, phrase, code, output)) == EncodeFrom(s, 1, EncodeStart(s))
    {
      var character := s[i];
      if phrase + [character] in dictionary {
        phrase := phrase + [character];
      } else {
        output := output + [Emitted(dictionary, phrase)];
        dictionary := dictionary[phrase + [character] := code];
        code := code + 1;
        phrase := [character];
      }
      i := i + 1;
    }
    codes := output + [Emitted(dictionary, phrase)];
  }

  /** encode as written, with the conversion loop bounded by the input length. */
  method Encode(s: JsString) returns (r: JsString)
    requires |s| > 0
    ensures r == EncodeAsWritten(s)
    ensures |r| == |s|
  {
    var codes := EncodeCodes(s);
    var i := |s|;
    r := [];
    while i > 0
      invariant 0 <= i <= |s|
      invariant r == Padded(codes, |s|)[i..]
    {
      i := i - 1;
      var unit: CodeUnit := if i < |codes| then FromCharCode(codes[i]) else 0;
      r := [unit] + r;
    }
  }

  /** encode with the conversion loop bounded by the number of emitted codes. */
  method EncodeCorrected(s: JsString) returns (r: JsString)
    requires |s| > 0
    ensures r == EncodeIntended(s)
    ensures |r| <= |s|
  {
    CodesShorter(s);
    var codes := EncodeCodes(s);
    var i := |codes|;
    r := [];
    while i > 0
      invariant 0 <= i <= |codes|
      invariant r == ToUnits(codes)[i..]
    {
      i := i - 1;
      r := [FromCharCode(codes[i])] + r;
    }
  }

  /** decode (js/lzw.js lines 52-71). */
  method DecodeString(s: JsString) returns (r: JsString)
    ensures r == Decode(s)
  {
    if s == [] {
      return [];
    }
    var dictionary: map<int, JsString> := map[];
    var character: JsString := [s[0]];
    var oldPhrase: JsString := [s[0]];
    var output: JsString := [s[0]];
    var code := 256;
    var i := 1;
    while i < |s|
      invariant 1 <= i <= |s|
      invariant DecodeFrom(s, i, Decoder(dictionary, character, oldPhrase, output, code))
             == DecodeFrom(s, 1, DecodeStart(s[0]))
    {
      var charCode := s[i];
      var phrase: JsString;
      if charCode < 256 {
        phrase := [charCode];
      } else if charCode in dictionary && dictionary[charCode] != [] {
        phrase := dictionary[charCode];
      } else {
        phrase := oldPhrase + character;
      }
      output := output + phrase;
      character := if phrase == [] then [] else [phrase[0]];
      dictionary := dictionary[code := oldPhrase + character];
      code := code + 1;
      oldPhrase := phrase;
      i := i + 1;
    }
    r := output;
  }

  // ---------------------------------------------------------------- properties

  lemma {:induction false} EncodeFromOutput(data: JsString, i: nat, e: Encoder)
    requires i <= |data|
    ensures |EncodeFrom(data, i, e).output| <= |e.output| + (|data| - i)
    decreases |data| - i
  {
    if i < |data| {
      EncodeFromOutput(data, i + 1, EncodeStep(e, data[i]));
    }
  }

  /** The encoder never pushes more codes than the input has units. */
  lemma CodesShorter(s: JsString)
    requires |s| > 0
    ensures |Codes(s)| <= |s|
  {
    EncodeFromOutput(s, 1, EncodeStart(s));
  }

  /** As written, the encoding is always exactly as long as the input. */
  lemma AsWrittenLength(s: JsString)
    requires |s| > 0
    ensures |EncodeAsWritten(s)| == |s|
    ensures |EncodeIntended(s)| <= |s|
  {
    CodesShorter(s);
  }

  /** Counterexample: "aaa" encodes as written to "aĀ\0", which decodes to "aaa\0". */
  lemma AsWrittenPadsWithNul()
    ensures EncodeAsWritten([97, 97, 97]) == [97, 256, 0]
    ensures Decode(EncodeAsWritten([97, 97, 97])) == [97, 97, 97, 0]
  {
    var s: JsString := [97, 97, 97];
    assert EncodeStart(s) == Encoder(map[], [97], 256, []);
    assert Emitted(map[], [97]) == 97;
    var e1 := EncodeStep(EncodeStart(s), 97);
    var aa: JsString := [97, 97];
    assert [97] + [97] == aa;
    assert map[][aa := 256] == map[aa := 256];
    assert e1 == Encoder(map[aa := 256], [97], 257, [97]);
    var e2 := EncodeStep(e1, 97);
    assert e2 == Encoder(map[aa := 256], aa, 257, [97]);
    assert EncodeFrom(s, 1, EncodeStart(s)) == e2;
    assert Codes(s) == [97, 256];
    var t: JsString := [97, 256, 0];
    assert EncodeAsWritten(s) == t;
    var d1 := DecodeStep(DecodeStart(97), 256);
    assert d1.output == [97, 97, 97];
    var d2 := DecodeStep(d1, 0);
    assert d2.output == [97, 97, 97, 0];
    assert DecodeFrom(t, 1, DecodeStart(97)) == d2;
  }

  /** All-literal input (every unit below 256) decodes to itself. */
  lemma {:induction false} DecodeLiteralsFrom(data: JsString, i: nat, d: Decoder)
    requires 1 <= i <= |data|
    requires forall k :: 0 <= k < |data| ==> data[k] < 256
    requires d.output == data[..i]
    ensures DecodeFrom(data, i, d).output == data
    decreases |data| - i
  {
    if i == |data| {
      assert data[..i] == data;
    } else {
      assert data[..i + 1] == data[..i] + [data[i]];
      DecodeLiteralsFrom(data, i + 1, DecodeStep(d, data[i]));
    }
  }

  lemma DecodeLiterals(s: JsString)
    requires forall k :: 0 <= k < |s| ==> s[k] < 256
    ensures Decode(s) == s
  {
    if s != [] {
      assert s[..1] == [s[0]];
      DecodeLiteralsFrom(s, 1, DecodeStart(s[0]));
    }
  }

  // ---- round trip of the corrected encoder

  /** The decoder as a left fold, convenient for following the encoder. */
  function DecodeAll(codes: JsString): Decoder
    requires |codes| >= 1
  {
    if |codes| == 1 then DecodeStart(codes[0])
    else DecodeStep(DecodeAll(codes[..|codes| - 1]), codes[|codes| - 1])
  }

  lemma DecodeAllExtend(data: JsString, i: nat)
    requires 1 <= i < |data|
    ensures DecodeAll(data[..i + 1]) == DecodeStep(DecodeAll(data[..i]), data[i])
  {
    var p := data[..i + 1];
    assert p[..|p| - 1] == data[..i];
    assert p[|p| - 1] == data[i];
  }

  lemma {:induction false} DecodeFromAll(data: JsString, i: nat)
    requires 1 <= i <= |data|
    ensures DecodeFrom(data, i, DecodeAll(data[..i])) == DecodeAll(data)
    decreases |data| - i
  {
    if i == |data| {
      assert data[..i] == data;
    } else {
      DecodeAllExtend(data, i);
      DecodeFromAll(data, i + 1);
    }
  }

  lemma DecodeIsFold(s: JsString)
    requires |s| >= 1
    ensures Decode(s) == DecodeAll(s).output
  {
    assert s[..1] == [s[0]];
    DecodeFromAll(s, 1);
  }

  lemma DecodeAllSnoc(out: seq<int>, c: int)
    requires |out| >= 1
    ensures DecodeAll(ToUnits(out + [c])) == DecodeStep(DecodeAll(ToUnits(out)), FromCharCode(c))
  {
    var x := ToUnits(out + [c]);
    assert x[..|x| - 1] == ToUnits(out);
  }

  /** Codes handed out so far are at least 256 and below the next code, for phrases of two or more units. */
  ghost predicate DictionaryValid(e: Encoder)
  {
    forall w :: w in e.dictionary ==> |w| >= 2 && 256 <= e.dictionary[w] < e.code
  }

  /** The decoder knows the encoder's entry `w`, unless it is the newest one, the last phrase extended by one unit. */
  ghost predicate Known(e: Encoder, d: Decoder, w: JsString)
    requires w in e.dictionary && e.phrase != []
  {
    if e.dictionary[w] < d.code then e.dictionary[w] in d.dictionary && d.dictionary[e.dictionary[w]] == w
    else w == d.oldPhrase + [e.phrase[0]]
  }

  /**
   * The decoder that has read the codes emitted so far lags the encoder by one
   * dictionary entry: it has produced the input up to the current phrase, holds
   * the inverse of every encoder entry but the newest, and the newest entry is
   * its last phrase followed by the first unit of the current phrase. This also
   * makes the encoder's codes distinct.
   */
  ghost predicate Lags(data: JsString, i: nat, e: Encoder, d: Decoder)
    requires 1 <= |e.phrase| <= i <= |data|
  {
    d.output == data[..i - |e.phrase|] &&
    d.oldPhrase != [] && d.character == [d.oldPhrase[0]] &&
    d.code == e.code - 1 &&
    (forall c :: c in d.dictionary ==> c < d.code) &&
    (forall w :: w in e.dictionary ==> Known(e, d, w)) &&
    d.oldPhrase + [e.phrase[0]] in e.dictionary && e.dictionary[d.oldPhrase + [e.phrase[0]]] == e.code - 1
  }

  /** The encoder's own bookkeeping: the current phrase is the input read since the last emission. */
  ghost predicate Shaped(data: JsString, i: nat, e: Encoder)
  {
    1 <= i <= |data| <= MaxInput &&
    (forall k :: 0 <= k < |data| ==> data[k] < 256) &&
    1 <= |e.phrase| <= i && e.phrase == data[i - |e.phrase|..i] &&
    (|e.phrase| == 1 || e.phrase in e.dictionary) &&
    |e.output| < i && e.code == 256 + |e.output|
  }

  /**
   * The encoder state `e` after reading `data[..i]`, paired with the decoder
   * state `d` reached on the codes emitted so far.
   */
  ghost predicate Simulates(data: JsString, i: nat, e: Encoder, d: Decoder)
  {
    Shaped(data, i, e) && DictionaryValid(e) &&
    (if e.output == [] then e.dictionary == map[] && |e.phrase| == i
     else Lags(data, i, e, d))
  }

  /** `d` is what the decoder makes of the codes emitted so far. */
  ghost predicate Tracks(e: Encoder, d: Decoder)
  {
    e.output != [] ==> d == DecodeAll(ToUnits(e.output))
  }

  /** The decoder state after the code, if any, that reading `character` makes the encoder emit. */
  function NextDecoder(e: Encoder, d: Decoder, character: CodeUnit): Decoder
  {
    if e.phrase + [character] in e.dictionary then d
    else if e.output == [] then DecodeStart(FromCharCode(Emitted(e.dictionary, e.phrase)))
    else DecodeStep(d, FromCharCode(Emitted(e.dictionary, e.phrase)))
  }

  lemma TracksStep(e: Encoder, d: Decoder, ch: CodeUnit)
    requires Tracks(e, d)
    ensures Tracks(EncodeStep(e, ch), NextDecoder(e, d, ch))
  {
    if e.phrase + [ch] !in e.dictionary {
      var c := Emitted(e.dictionary, e.phrase);
      if e.output == [] {
        assert ToUnits([c]) == [FromCharCode(c)];
      } else {
        DecodeAllSnoc(e.output, c);
      }
    }
  }

  lemma SimulatesStart(s: JsString, d: Decoder)
    requires 1 <= |s| <= MaxInput
    requires forall k :: 0 <= k < |s| ==> s[k] < 256
    ensures Simulates(s, 1, EncodeStart(s), d)
  {
    assert s[0..1] == [s[0]];
  }

  /** Once the decoder lags the encoder, it reads the code of the current phrase back as that phrase. */
  lemma DecoderReadsPhrase(data: JsString, i: nat, e: Encoder, d: Decoder)
    requires Shaped(data, i, e) && DictionaryValid(e) && Lags(data, i, e, d)
    ensures 0 <= Emitted(e.dictionary, e.phrase) < 0x1_0000
    ensures DecodedPhrase(d, FromCharCode(Emitted(e.dictionary, e.phrase))) == e.phrase
  {
    var c := Emitted(e.dictionary, e.phrase);
    if |e.phrase| == 1 {
      assert e.phrase[0] == data[i - 1];
    } else {
      assert Known(e, d, e.phrase);
      if c == d.code {
        assert e.phrase[0] == d.oldPhrase[0];
      }
    }
  }

  lemma StepHit(data: JsString, i: nat, e: Encoder, d: Decoder)
    requires Simulates(data, i, e, d) && i < |data|
    requires e.phrase + [data[i]] in e.dictionary
    ensures Simulates(data, i + 1, EncodeStep(e, data[i]), d)
  {
    var e' := EncodeStep(e, data[i]);
    assert data[i + 1 - |e'.phrase|..i + 1] == e.phrase + [data[i]];
    assert Shaped(data, i + 1, e');
    if e.output != [] {
      assert e'.phrase[0] == e.phrase[0];
      forall w | w in e'.dictionary
        ensures Known(e', d, w)
      {
        assert Known(e, d, w);
      }
      assert Lags(data, i + 1, e', d);
    }
  }

  lemma MissShaped(data: JsString, i: nat, e: Encoder)
    requires Shaped(data, i, e) && DictionaryValid(e) && i < |data|
    requires e.phrase + [data[i]] !in e.dictionary
    ensures Shaped(data, i + 1, EncodeStep(e, data[i]))
    ensures DictionaryValid(EncodeStep(e, data[i]))
  {
    assert data[i..i + 1] == [data[i]];
  }

  lemma MissFirst(data: JsString, e: Encoder, d: Decoder)
    requires Simulates(data, 1, e, d) && 1 < |data| && e.output == []
    ensures Simulates(data, 2, EncodeStep(e, data[1]), NextDecoder(e, d, data[1]))
  {
    var e' := EncodeStep(e, data[1]);
    MissShaped(data, 1, e);
    assert e.phrase == [data[0]];
    var d' := NextDecoder(e, d, data[1]);
    assert d' == DecodeStart(data[0]);
    assert data[..1] == [data[0]];
    assert Lags(data, 2, e', d');
  }

  lemma MissLags(data: JsString, i: nat, e: Encoder, d: Decoder)
    requires Shaped(data, i, e) && DictionaryValid(e) && Lags(data, i, e, d) && i < |data|
    requires e.phrase + [data[i]] !in e.dictionary
    ensures Shaped(data, i + 1, EncodeStep(e, data[i]))
    ensures Lags(data, i + 1, EncodeStep(e, data[i]), DecodeStep(d, FromCharCode(Emitted(e.dictionary, e.phrase))))
  {
    var ch := data[i];
    var e' := EncodeStep(e, ch);
    var key := e.phrase + [ch];
    MissShaped(data, i, e);
    DecoderReadsPhrase(data, i, e, d);
    var d' := DecodeStep(d, FromCharCode(Emitted(e.dictionary, e.phrase)));
    assert d'.oldPhrase == e.phrase;
    assert d'.output == data[..i - |e.phrase|] + data[i - |e.phrase|..i];
    Seqs.SliceAppend(data, i - |e.phrase|, i);
    var w := d.oldPhrase + [e.phrase[0]];
    assert d'.dictionary == d.dictionary[d.code := w];
    assert e'.dictionary == e.dictionary[key := e.code];
    assert d'.oldPhrase + [e'.phrase[0]] == key;
    MissKnown(e, d, e', d', key);
  }

  /** A new encoder entry keeps every entry known to the decoder that has taken the matching step. */
  lemma MissKnown(e: Encoder, d: Decoder, e': Encoder, d': Decoder, key: JsString)
    requires e.phrase != [] && e'.phrase != [] && DictionaryValid(e) && d.code == e.code - 1
    requires forall w :: w in e.dictionary ==> Known(e, d, w)
    requires key !in e.dictionary && e'.dictionary == e.dictionary[key := e.code]
    requires d'.dictionary == d.dictionary[d.code := d.oldPhrase + [e.phrase[0]]] && d'.code == d.code + 1
    requires d'.oldPhrase + [e'.phrase[0]] == key
    ensures forall w :: w in e'.dictionary ==> Known(e', d', w)
  {
    forall w | w in e'.dictionary
      ensures Known(e', d', w)
    {
      if w != key {
        assert Known(e, d, w);
      }
    }
  }

  lemma SimulatesStep(data: JsString, i: nat, e: Encoder, d: Decoder)
    requires Simulates(data, i, e, d) && i < |data|
    ensures Simulates(data, i + 1, EncodeStep(e, data[i]), NextDecoder(e, d, data[i]))
  {
    if e.phrase + [data[i]] in e.dictionary {
      StepHit(data, i, e, d);
    } else if e.output == [] {
      assert i == 1;
      MissFirst(data, e, d);
    } else {
      MissShaped(data, i, e);
      MissLags(data, i, e, d);
    }
  }

  /** The encoder after its main loop has read `data[..j]`, as a left fold. */
  function EncoderAt(data: JsString, j: nat): Encoder
    requires 1 <= j <= |data|
  {
    if j == 1 then EncodeStart(data) else EncodeStep(EncoderAt(data, j - 1), data[j - 1])
  }

  /** The lockstep decoder at the same point. */
  function DecoderAt(data: JsString, j: nat): Decoder
    requires 1 <= j <= |data|
  {
    if j == 1 then DecodeStart(0) else NextDecoder(EncoderAt(data, j - 1), DecoderAt(data, j - 1), data[j - 1])
  }

  lemma {:induction false} FoldsAgree(data: JsString, j: nat)
    requires 1 <= j <= |data|
    ensures EncodeFrom(data, j, EncoderAt(data, j)) == EncodeFrom(data, 1, EncodeStart(data))
  {
    if j > 1 {
      FoldsAgree(data, j - 1);
    }
  }

  lemma StepAt(data: JsString, j: nat)
    requires 1 < j <= |data|
    requires Simulates(data, j - 1, EncoderAt(data, j - 1), DecoderAt(data, j - 1))
    ensures Simulates(data, j, EncoderAt(data, j), DecoderAt(data, j))
  {
    SimulatesStep(data, j - 1, EncoderAt(data, j - 1), DecoderAt(data, j - 1));
  }

  lemma {:induction false} SimulatesAt(data: JsString, j: nat)
    requires 1 <= j <= |data| <= MaxInput
    requires forall k :: 0 <= k < |data| ==> data[k] < 256
    ensures Simulates(data, j, EncoderAt(data, j), DecoderAt(data, j))
  {
    if j == 1 {
      SimulatesStart(data, DecodeStart(0));
    } else {
      SimulatesAt(data, j - 1);
      StepAt(data, j);
    }
  }

  lemma {:induction false} TracksAt(data: JsString, j: nat)
    requires 1 <= j <= |data|
    ensures Tracks(EncoderAt(data, j), DecoderAt(data, j))
  {
    if j > 1 {
      TracksAt(data, j - 1);
      TracksStep(EncoderAt(data, j - 1), DecoderAt(data, j - 1), data[j - 1]);
    }
  }

  /** At the end of the input, the final emission completes the decoder's output. */
  lemma Finish(s: JsString, e: Encoder, d: Decoder)
    requires Simulates(s, |s|, e, d) && Tracks(e, d)
    ensures Decode(ToUnits(e.output + [Emitted(e.dictionary, e.phrase)])) == s
  {
    DecodeIsFold(ToUnits(e.output + [Emitted(e.dictionary, e.phrase)]));
    if e.output == [] {
      FinishFirst(s, e, d);
    } else {
      DecoderReadsPhrase(s, |s|, e, d);
      assert s[|s| - |e.phrase|..|s|] == s[|s| - |e.phrase|..];
      FinishLater(s, e, d);
    }
  }

  /** The input was a single unit: its one code reads back. */
  lemma FinishFirst(s: JsString, e: Encoder, d: Decoder)
    requires Simulates(s, |s|, e, d) && Tracks(e, d) && e.output == []
    ensures DecodeAll(ToUnits(e.output + [Emitted(e.dictionary, e.phrase)])).output == s
  {
    var codes := e.output + [Emitted(e.dictionary, e.phrase)];
    assert e.phrase == s[|s| - |e.phrase|..|s|];
    assert |s| == 1;
    assert ToUnits(codes) == [s[0]];
    assert s == [s[0]];
  }

  /** After earlier codes, the last code appends the pending phrase. */
  lemma FinishLater(s: JsString, e: Encoder, d: Decoder)
    requires e.output != [] && d == DecodeAll(ToUnits(e.output))
    requires 1 <= |e.phrase| <= |s| && e.phrase == s[|s| - |e.phrase|..] && d.output == s[..|s| - |e.phrase|]
    requires 0 <= Emitted(e.dictionary, e.phrase) < 0x1_0000
    requires DecodedPhrase(d, FromCharCode(Emitted(e.dictionary, e.phrase))) == e.phrase
    ensures DecodeAll(ToUnits(e.output + [Emitted(e.dictionary, e.phrase)])).output == s
  {
    DecodeAllSnoc(e.output, Emitted(e.dictionary, e.phrase));
    var m := |s| - |e.phrase|;
    assert s[..m] + s[m..] == s;
  }

  /**
   * decode inverts the corrected encode on every non-empty string of units
   * below 256 that is short enough for its codes to fit a UTF-16 unit.
   */
  lemma RoundTrip(s: JsString)
    requires 1 <= |s| <= MaxInput
    requires forall k :: 0 <= k < |s| ==> s[k] < 256
    ensures Decode(EncodeIntended(s)) == s
  {
    SimulatesAt(s, |s|);
    TracksAt(s, |s|);
    FoldsAgree(s, |s|);
    Finish(s, EncoderAt(s, |s|), DecoderAt(s, |s|));
  }



}
