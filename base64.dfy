/**
 * The base64 encoding of section 4 of RFC 4648 over bytes, and the host functions `btoa` and `atob`
 * that apply it to "binary strings" (strings whose every character code is a byte).
 */
module Base64 {

  import opened Wrappers
  import opened TypedArrays

  type sextet = x: int | 0 <= x < 64

  /** The pad character, `=`. */
  const Pad: char := '='

  /** The character that encodes a 6-bit value (Table 1 of RFC 4648: `A`-`Z`, `a`-`z`, `0`-`9`, `+`, `/`). */
  function EncodeSextet(v: sextet): (c: char)
    ensures c != Pad
  {
    if v < 26 then ('A' as int + v) as char
    else if v < 52 then ('a' as int + (v - 26)) as char
    else if v < 62 then ('0' as int + (v - 52)) as char
    else if v == 62 then '+'
    else '/'
  }

  /** The value of an alphabet character; `None` for every other character, the pad included. */
  function DecodeChar(c: char): (r: Option<sextet>)
    ensures r.Some? ==> EncodeSextet(r.value) == c
    ensures c == Pad ==> r.None?
  {
    if 'A' <= c <= 'Z' then Some(c as int - 'A' as int)
    else if 'a' <= c <= 'z' then Some(c as int - 'a' as int + 26)
    else if '0' <= c <= '9' then Some(c as int - '0' as int + 52)
    else if c == '+' then Some(62)
    else if c == '/' then Some(63)
    else None
  }

  /** Decoding the character of a value gives the value back. */
  lemma DecodeEncodeSextet(v: sextet)
    ensures DecodeChar(EncodeSextet(v)) == Some(v)
  {
  }

  /** The number of pad characters that close `s`: none, one (`x=`) or two (`==`). */
  function Padding(s: string): (n: nat)
    ensures n <= 2 && n <= |s|
    ensures n > 0 <==> |s| > 0 && s[|s| - 1] == Pad
  {
    if |s| > 0 && s[|s| - 1] == Pad then (if |s| > 1 && s[|s| - 2] == Pad then 2 else 1) else 0
  }

  /** Four characters for three bytes: 24 bits split into four 6-bit groups, most significant first. */
  function EncodeQuantum(b0: byte, b1: byte, b2: byte): (r: string)
    ensures |r| == 4 && Pad !in r
  {
    [EncodeSextet(b0 / 4), EncodeSextet((b0 % 4) * 16 + b1 / 16), EncodeSextet((b1 % 16) * 4 + b2 / 64), EncodeSextet(b2 % 64)]
  }

  /**
   * The base64 text of `b`: full quanta of three bytes, then a final quantum of one byte
   * (two characters and `==`) or of two bytes (three characters and `=`).
   */
  function Encode(b: seq<byte>): (r: string)
    ensures |r| == 4 * ((|b| + 2) / 3)
    decreases |b|
  {
    if |b| == 0 then []
    else if |b| == 1 then [EncodeSextet(b[0] / 4), EncodeSextet((b[0] % 4) * 16), Pad, Pad]
    else if |b| == 2 then [EncodeSextet(b[0] / 4), EncodeSextet((b[0] % 4) * 16 + b[1] / 16), EncodeSextet((b[1] % 16) * 4), Pad]
    else EncodeQuantum(b[0], b[1], b[2]) + Encode(b[3..])
  }

  /**
   * The bytes of one four-character quantum. Padding is accepted only when `final` holds and only
   * as `xx==` or `xxx=`; bits below the last whole byte are discarded.
   */
  function DecodeQuantum(q: string, final: bool): (r: Option<seq<byte>>)
    requires |q| == 4
    ensures r.Some? ==> 1 <= |r.value| <= 3
    ensures r.Some? && |r.value| < 3 ==> final
    ensures r.Some? ==> AllBase64(q) && q[0] != Pad && q[1] != Pad && (q[2] == Pad ==> q[3] == Pad)
    ensures r.Some? ==> |r.value| == 3 - Padding(q)
  {
    var c0, c1, c2, c3 := DecodeChar(q[0]), DecodeChar(q[1]), DecodeChar(q[2]), DecodeChar(q[3]);
    if c0.None? || c1.None? then None
    else
      var b0 := c0.value * 4 + c1.value / 16;
      if q[2] == Pad && q[3] == Pad then (if final then Some([b0]) else None)
      else if c2.None? then None
      else
        var b1 := (c1.value % 16) * 16 + c2.value / 4;
        if q[3] == Pad then (if final then Some([b0, b1]) else None)
        else if c3.None? then None
        else Some([b0, b1, (c2.value % 4) * 64 + c3.value])
  }

  /**
   * The bytes of a base64 text; `None` when its length is not a multiple of four, when it holds a
   * character outside the alphabet, or when padding appears anywhere but at the end of the last quantum.
   */
  function Decode(s: string): (r: Option<seq<byte>>)
    ensures r.Some? ==> |s| % 4 == 0
    ensures r.Some? ==> AllBase64(s)
    ensures r.Some? ==> forall i :: 0 <= i < |s| && s[i] == Pad ==> |s| - 2 <= i
    ensures r.Some? ==> |r.value| == 3 * (|s| / 4) - Padding(s)
    decreases |s|
  {
    if |s| == 0 then Some([])
    else if |s| < 4 then None
    else if |s| == 4 then DecodeQuantum(s, true)
    else
      match DecodeQuantum(s[..4], false)
      case None => None
      case Some(head) =>
        match Decode(s[4..])
        case None => None
        case Some(tail) => Some(head + tail)
  }

  lemma QuantumRoundTrip(b0: byte, b1: byte, b2: byte)
    ensures DecodeQuantum(EncodeQuantum(b0, b1, b2), false) == Some([b0, b1, b2])
    ensures DecodeQuantum(EncodeQuantum(b0, b1, b2), true) == Some([b0, b1, b2])
  {
    var q := EncodeQuantum(b0, b1, b2);
    DecodeEncodeSextet(b0 / 4);
    DecodeEncodeSextet((b0 % 4) * 16 + b1 / 16);
    DecodeEncodeSextet((b1 % 16) * 4 + b2 / 64);
    DecodeEncodeSextet(b2 % 64);
    assert (b0 / 4) * 4 + ((b0 % 4) * 16 + b1 / 16) / 16 == b0;
    assert (((b0 % 4) * 16 + b1 / 16) % 16) * 16 + ((b1 % 16) * 4 + b2 / 64) / 4 == b1;
    assert (((b1 % 16) * 4 + b2 / 64) % 4) * 64 + b2 % 64 == b2;
  }

  lemma FinalOneRoundTrip(b0: byte)
    ensures DecodeQuantum([EncodeSextet(b0 / 4), EncodeSextet((b0 % 4) * 16), Pad, Pad], true) == Some([b0])
  {
    DecodeEncodeSextet(b0 / 4);
    DecodeEncodeSextet((b0 % 4) * 16);
    assert (b0 / 4) * 4 + ((b0 % 4) * 16) / 16 == b0;
  }

  lemma FinalTwoRoundTrip(b0: byte, b1: byte)
    ensures DecodeQuantum([EncodeSextet(b0 / 4), EncodeSextet((b0 % 4) * 16 + b1 / 16), EncodeSextet((b1 % 16) * 4), Pad], true)
         == Some([b0, b1])
  {
    DecodeEncodeSextet(b0 / 4);
    DecodeEncodeSextet((b0 % 4) * 16 + b1 / 16);
    DecodeEncodeSextet((b1 % 16) * 4);
    assert (b0 / 4) * 4 + ((b0 % 4) * 16 + b1 / 16) / 16 == b0;
    assert (((b0 % 4) * 16 + b1 / 16) % 16) * 16 + ((b1 % 16) * 4) / 4 == b1;
  }

  lemma DecodeCons(q: string, rest: string)
    requires |q| == 4 && |rest| > 0
    ensures Decode(q + rest) ==
      match DecodeQuantum(q, false)
      case None => None
      case Some(head) => (match Decode(rest) case None => None case Some(tail) => Some(head + tail))
  {
    assert (q + rest)[..4] == q;
    assert (q + rest)[4..] == rest;
  }

  lemma DecodeEncodeShort(b: seq<byte>)
    requires |b| <= 3
    ensures Decode(Encode(b)) == Some(b)
  {
    if |b| == 1 {
      DecodeEncodeOne(b);
    } else if |b| == 2 {
      DecodeEncodeTwo(b);
    } else if |b| == 3 {
      DecodeEncodeThree(b);
    }
  }

  lemma DecodeEncodeOne(b: seq<byte>)
    requires |b| == 1
    ensures Decode(Encode(b)) == Some(b)
  {
    var e := [EncodeSextet(b[0] / 4), EncodeSextet((b[0] % 4) * 16), Pad, Pad];
    assert Encode(b) == e;
    FinalOneRoundTrip(b[0]);
    assert Decode(e) == DecodeQuantum(e, true);
    assert b == [b[0]];
  }

  lemma DecodeEncodeTwo(b: seq<byte>)
    requires |b| == 2
    ensures Decode(Encode(b)) == Some(b)
  {
    var e := [EncodeSextet(b[0] / 4), EncodeSextet((b[0] % 4) * 16 + b[1] / 16), EncodeSextet((b[1] % 16) * 4), Pad];
    assert Encode(b) == e;
    FinalTwoRoundTrip(b[0], b[1]);
    assert Decode(e) == DecodeQuantum(e, true);
    assert b == [b[0], b[1]];
  }

  lemma DecodeEncodeThree(b: seq<byte>)
    requires |b| == 3
    ensures Decode(Encode(b)) == Some(b)
  {
    var q := EncodeQuantum(b[0], b[1], b[2]);
    QuantumRoundTrip(b[0], b[1], b[2]);
    assert Encode(b[3..]) == [];
    assert Encode(b) == q + [];
    assert q + [] == q;
    assert Decode(q) == Some([b[0], b[1], b[2]]);
    assert [b[0], b[1], b[2]] == b;
  }

  lemma DecodeEncodeStep(b: seq<byte>)
    requires |b| > 3
    requires Decode(Encode(b[3..])) == Some(b[3..])
    ensures Decode(Encode(b)) == Some(b)
  {
    var q := EncodeQuantum(b[0], b[1], b[2]);
    var rest := Encode(b[3..]);
    var head := [b[0], b[1], b[2]];
    QuantumRoundTrip(b[0], b[1], b[2]);
    assert DecodeQuantum(q, false) == Some(head);
    assert Encode(b) == q + rest;
    DecodeCons(q, rest);
    assert Decode(q + rest) == Some(head + b[3..]);
    SplitThree(b);
  }

  lemma SplitThree<T>(b: seq<T>)
    requires |b| >= 3
    ensures [b[0], b[1], b[2]] + b[3..] == b
  {
  }

  /** Decoding the encoding of any byte sequence gives the sequence back. */
  lemma {:induction false} DecodeEncode(b: seq<byte>)
    ensures Decode(Encode(b)) == Some(b)
    decreases |b|
  {
    if |b| <= 3 {
      DecodeEncodeShort(b);
    } else {
      DecodeEncode(b[3..]);
      DecodeEncodeStep(b);
    }
  }

  /** A character base64 text may hold: an alphabet character or the pad. */
  predicate IsBase64Char(c: char) {
    c == Pad || DecodeChar(c).Some?
  }

  /** Every character of `s` is an alphabet character or the pad. */
  predicate AllBase64(s: string) {
    forall i :: 0 <= i < |s| ==> IsBase64Char(s[i])
  }

  lemma QuantumAlphabet(b0: byte, b1: byte, b2: byte)
    ensures AllBase64(EncodeQuantum(b0, b1, b2))
  {
    DecodeEncodeSextet(b0 / 4);
    DecodeEncodeSextet((b0 % 4) * 16 + b1 / 16);
    DecodeEncodeSextet((b1 % 16) * 4 + b2 / 64);
    DecodeEncodeSextet(b2 % 64);
  }

  lemma FinalAlphabet(b: seq<byte>)
    requires 1 <= |b| <= 2
    ensures AllBase64(Encode(b))
  {
    DecodeEncodeSextet(b[0] / 4);
    if |b| == 1 {
      DecodeEncodeSextet((b[0] % 4) * 16);
    } else {
      DecodeEncodeSextet((b[0] % 4) * 16 + b[1] / 16);
      DecodeEncodeSextet((b[1] % 16) * 4);
    }
  }

  /** Every encoding has a length that is a multiple of four. */
  lemma EncodeLength(b: seq<byte>)
    ensures |Encode(b)| % 4 == 0
  {
    var n := (|b| + 2) / 3;
    var m := |Encode(b)|;
    assert m == 4 * n;
    assert m % 4 == 0 by {
      assert m == n * 4 + 0;
    }
  }

  /** Every encoding uses only alphabet and pad characters. */
  lemma {:induction false} EncodeAlphabet(b: seq<byte>)
    ensures AllBase64(Encode(b))
    decreases |b|
  {
    if |b| >= 3 {
      EncodeAlphabet(b[3..]);
      QuantumAlphabet(b[0], b[1], b[2]);
      EncodeSplit(b);
      AlphabetAppend(EncodeQuantum(b[0], b[1], b[2]), Encode(b[3..]));
    } else if |b| > 0 {
      FinalAlphabet(b);
    }
  }

  lemma EncodeSplit(b: seq<byte>)
    requires |b| >= 3
    ensures Encode(b) == EncodeQuantum(b[0], b[1], b[2]) + Encode(b[3..])
  {
  }

  lemma AlphabetAppend(a: string, c: string)
    requires AllBase64(a) && AllBase64(c)
    ensures AllBase64(a + c)
  {
  }

  /** The characters of a binary string are its bytes, one char per byte. */
  function Latin1(b: seq<byte>): (s: string)
    ensures |s| == |b|
    ensures forall i :: 0 <= i < |b| ==> s[i] as int == b[i]
  {
    seq(|b|, i requires 0 <= i < |b| => b[i] as char)
  }

  /** The bytes of a string whose every character code is below 256. */
  function Codes(s: string): (b: seq<byte>)
    requires forall i :: 0 <= i < |s| ==> s[i] as int < 256
    ensures |b| == |s|
    ensures forall i :: 0 <= i < |s| ==> b[i] == s[i] as int
  {
    seq(|s|, i requires 0 <= i < |s| => s[i] as int)
  }

  lemma CodesLatin1(b: seq<byte>)
    ensures Codes(Latin1(b)) == b
  {
  }

  /** `btoa`: throws (here `None`) when a character code exceeds 255, otherwise base64-encodes the codes. */
  function Btoa(s: string): (r: Option<string>)
    ensures r.Some? <==> forall i :: 0 <= i < |s| ==> s[i] as int < 256
  {
    if forall i :: 0 <= i < |s| ==> s[i] as int < 256 then Some(Encode(Codes(s))) else None
  }

  /** `atob`: the binary string of the decoded bytes, or `None` (a thrown exception) for malformed input. */
  function Atob(s: string): (r: Option<string>)
    ensures r.Some? ==> forall i :: 0 <= i < |r.value| ==> r.value[i] as int < 256
    ensures r.Some? <==> Decode(s).Some?
  {
    match Decode(s)
    case None => None
    case Some(b) => Some(Latin1(b))
  }

  /** For every binary string, `atob(btoa(s)) == s`. */
  lemma AtobBtoa(b: seq<byte>)
    ensures Btoa(Latin1(b)) == Some(Encode(b))
    ensures Atob(Encode(b)) == Some(Latin1(b))
  {
    CodesLatin1(b);
    DecodeEncode(b);
  }
}
