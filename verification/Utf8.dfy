/**
  UTF-8 as laid down in section 3 of RFC 3629, and what cutting an encoded text at a byte limit and
  decoding it with errors ignored does to the text.
 */
module Utf8 {
  import opened Wrappers

  type Byte = b: int | 0 <= b < 256

  // A Unicode scalar value: surrogates are not encodable.
  type CodePoint = c: int | 0 <= c < 0xD800 || 0xE000 <= c < 0x11_0000 witness 0

  type Text = seq<CodePoint>

  function EncodeOne(c: CodePoint): (bytes: seq<Byte>)
    ensures 1 <= |bytes| <= 4
  {
    if c < 0x80 then [c]
    else if c < 0x800 then [0xC0 + c / 64, 0x80 + c % 64]
    else if c < 0x1_0000 then [0xE0 + c / 4096, 0x80 + c / 64 % 64, 0x80 + c % 64]
    else [0xF0 + c / 262144, 0x80 + c / 4096 % 64, 0x80 + c / 64 % 64, 0x80 + c % 64]
  }

  function Encode(t: Text): seq<Byte> {
    if t == [] then [] else EncodeOne(t[0]) + Encode(t[1..])
  }

  predicate Continuation(b: Byte) {
    0x80 <= b < 0xC0
  }

  // The scalar value at the head of the bytes and the number of bytes it takes, if there is a valid one.
  // Overlong forms, surrogates and values past 0x10FFFF are invalid.
  function DecodeOne(bytes: seq<Byte>): (r: Option<(CodePoint, nat)>)
    ensures r.Some? ==> 1 <= r.value.1 <= |bytes|
  {
    if bytes == [] then None
    else if bytes[0] < 0x80 then Some((bytes[0], 1))
    else if 0xC0 <= bytes[0] < 0xE0 && |bytes| >= 2 && Continuation(bytes[1]) then
      var c := (bytes[0] as int - 0xC0) * 64 + (bytes[1] as int - 0x80);
      if 0x80 <= c then Some((c, 2)) else None
    else if 0xE0 <= bytes[0] < 0xF0 && |bytes| >= 3 && Continuation(bytes[1]) && Continuation(bytes[2]) then
      var c := (bytes[0] as int - 0xE0) * 4096 + (bytes[1] as int - 0x80) * 64 + (bytes[2] as int - 0x80);
      if 0x800 <= c && !(0xD800 <= c < 0xE000) then Some((c, 3)) else None
    else if 0xF0 <= bytes[0] < 0xF8 && |bytes| >= 4
            && Continuation(bytes[1]) && Continuation(bytes[2]) && Continuation(bytes[3]) then
      var c := (bytes[0] as int - 0xF0) * 262144 + (bytes[1] as int - 0x80) * 4096 + (bytes[2] as int - 0x80) * 64 + (bytes[3] as int - 0x80);
      if 0x1_0000 <= c < 0x11_0000 then Some((c, 4)) else None
    else None
  }

  // Decoding with errors="ignore". A decoder may skip a whole ill-formed sequence at once; the bytes it skips
  // after the first are continuation bytes, which are errors by themselves, so skipping one byte at a time drops
  // the same bytes.
  function DecodeIgnore(bytes: seq<Byte>): Text {
    if bytes == [] then []
    else match DecodeOne(bytes)
      case Some((c, n)) => [c] + DecodeIgnore(bytes[n..])
      case None => DecodeIgnore(bytes[1..])
  }

  // How many leading code points of t encode to at most limit bytes.
  function Fit(t: Text, limit: nat): (k: nat)
    ensures k <= |t|
  {
    if t == [] || |EncodeOne(t[0])| > limit then 0
    else 1 + Fit(t[1..], limit - |EncodeOne(t[0])|)
  }

  lemma SixBitDigits(c: nat)
    ensures c == c / 64 * 64 + c % 64
    ensures c / 64 == c / 4096 * 64 + c / 64 % 64
    ensures c / 4096 == c / 262144 * 64 + c / 4096 % 64
  {
  }

  // The table of RFC 3629: how many bytes, which ones lead and which continue, and the number they spell.
  lemma AsInTheTable(c: CodePoint)
    ensures var e := EncodeOne(c);
      && |e| == (if c < 128 then 1 else if c < 2048 then 2 else if c < 65536 then 3 else 4)
      && (forall i :: 1 <= i < |e| ==> 128 <= e[i] < 192)
      && (|e| == 1 ==> e[0] == c)
      && (|e| == 2 ==> 192 <= e[0] < 224 && c == (e[0] as int - 192) * 64 + (e[1] as int - 128))
      && (|e| == 3 ==>
            224 <= e[0] < 240 && c == (e[0] as int - 224) * 4096 + (e[1] as int - 128) * 64 + (e[2] as int - 128))
      && (|e| == 4 ==>
            240 <= e[0] < 248
            && c == (e[0] as int - 240) * 262144 + (e[1] as int - 128) * 4096 + (e[2] as int - 128) * 64 + (e[3] as int - 128))
  {
    SixBitDigits(c);
  }

  lemma DecodeOneEncodeOne(c: CodePoint, rest: seq<Byte>)
    ensures DecodeOne(EncodeOne(c) + rest) == Some((c, |EncodeOne(c)|))
  {
    var e := EncodeOne(c);
    var bytes := e + rest;
    assert forall i :: 0 <= i < |e| ==> bytes[i] == e[i];
    SixBitDigits(c);
  }

  lemma {:induction false} ContinuationsDecodeToNothing(bytes: seq<Byte>)
    requires forall i :: 0 <= i < |bytes| ==> Continuation(bytes[i])
    ensures DecodeIgnore(bytes) == []
  {
    if bytes != [] {
      assert DecodeOne(bytes).None?;
      ContinuationsDecodeToNothing(bytes[1..]);
    }
  }

  // The first bytes of a character that was cut in two decode to nothing.
  lemma FragmentDecodesToNothing(c: CodePoint, n: nat)
    requires n < |EncodeOne(c)|
    ensures DecodeIgnore(EncodeOne(c)[..n]) == []
  {
    var fragment := EncodeOne(c)[..n];
    if n > 0 {
      assert DecodeOne(fragment).None?;
      assert forall i :: 1 <= i < |EncodeOne(c)| ==> Continuation(EncodeOne(c)[i]);
      ContinuationsDecodeToNothing(fragment[1..]);
    }
  }

  lemma {:induction false} RoundTrip(t: Text)
    ensures DecodeIgnore(Encode(t)) == t
  {
    if t != [] {
      DecodeOneEncodeOne(t[0], Encode(t[1..]));
      assert Encode(t)[|EncodeOne(t[0])|..] == Encode(t[1..]);
      RoundTrip(t[1..]);
    }
  }

  // Cutting the bytes never corrupts or drops an earlier character: what decodes is exactly the code points that fit.
  lemma {:induction false} CutDecodesToPrefix(t: Text, limit: nat)
    requires limit <= |Encode(t)|
    ensures DecodeIgnore(Encode(t)[..limit]) == t[..Fit(t, limit)]
  {
    if t != [] {
      var e := EncodeOne(t[0]);
      var cut := Encode(t)[..limit];
      if |e| > limit {
        assert cut == e[..limit];
        FragmentDecodesToNothing(t[0], limit);
      } else {
        var tail := Encode(t[1..])[..limit - |e|];
        assert cut == e + tail;
        DecodeOneEncodeOne(t[0], tail);
        assert cut[|e|..] == tail;
        CutDecodesToPrefix(t[1..], limit - |e|);
        assert t[..Fit(t, limit)] == [t[0]] + t[1..][..Fit(t[1..], limit - |e|)];
      }
    }
  }

  // The prefix that fits, and no longer one.
  lemma {:induction false} FitIsLongest(t: Text, limit: nat, k: nat)
    requires k <= |t|
    ensures |Encode(t[..k])| <= limit <==> k <= Fit(t, limit)
  {
    if k > 0 {
      assert t[..k][1..] == t[1..][..k - 1];
      if |EncodeOne(t[0])| <= limit {
        FitIsLongest(t[1..], limit - |EncodeOne(t[0])|, k - 1);
      }
    }
  }
}
