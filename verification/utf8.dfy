/** Text as bytes: UTF-8 with the strict decoder (RFC 3629). */
module Utf8 {
  import opened Text

  type Byte = n: nat | n < 256

  /** One character as one to four bytes. */
  function EncodeChar(c: char): (bs: seq<Byte>)
    ensures 1 <= |bs| <= 4
  {
    var n := c as int;
    if n < 0x80 then [n]
    else if n < 0x800 then [0xC0 + n / 64, 0x80 + n % 64]
    else if n < 0x10000 then [0xE0 + n / 4096, 0x80 + n / 64 % 64, 0x80 + n % 64]
    else [0xF0 + n / 262144, 0x80 + n / 4096 % 64, 0x80 + n / 64 % 64, 0x80 + n % 64]
  }

  function Encode(s: string): seq<Byte> {
    if s == "" then [] else EncodeChar(s[0]) + Encode(s[1..])
  }

  lemma OnlyEmptyEncodesEmpty(s: string)
    ensures Encode(s) == [] <==> s == ""
  {
    hide EncodeChar;
  }

  predicate Continues(b: Byte) {
    0x80 <= b < 0xC0
  }

  /** The number of bytes a leading byte announces; none for a byte that cannot lead. */
  function Announced(b: Byte): nat {
    if b < 0x80 then 1
    else if b < 0xC0 then 0
    else if b < 0xE0 then 2
    else if b < 0xF0 then 3
    else if b < 0xF8 then 4
    else 0
  }

  function CodePoint(bs: seq<Byte>): nat
    requires bs != [] && |bs| == Announced(bs[0]) && forall i :: 1 <= i < |bs| ==> Continues(bs[i])
  {
    var lead := bs[0] as int;
    if |bs| == 1 then bs[0]
    else if |bs| == 2 then (lead - 0xC0) * 64 + Low(bs[1])
    else if |bs| == 3 then (lead - 0xE0) * 4096 + Low(bs[1]) * 64 + Low(bs[2])
    else (lead - 0xF0) * 262144 + Low(bs[1]) * 4096 + Low(bs[2]) * 64 + Low(bs[3])
  }

  function Low(b: Byte): int
    requires Continues(b)
    ensures 0 <= Low(b) < 64
  {
    b as int - 0x80
  }

  /** The least code point that needs `k` bytes: shorter ones are not accepted. */
  function Least(k: nat): nat {
    if k == 1 then 0 else if k == 2 then 0x80 else if k == 3 then 0x800 else 0x10000
  }

  predicate IsScalar(n: nat) {
    n < 0xD800 || 0xE000 <= n < 0x110000
  }

  function DecodeFirst(bs: seq<Byte>): Option<(char, nat)>
    requires bs != []
  {
    var k := Announced(bs[0]);
    if k == 0 || k > |bs| || exists i :: 1 <= i < k && !Continues(bs[i]) then None
    else
      var n := CodePoint(bs[..k]);
      if n < Least(k) || !IsScalar(n) then None else Some((n as char, k))
  }

  function Decode(bs: seq<Byte>): Option<string>
    decreases |bs|
  {
    if bs == [] then Some("")
    else match DecodeFirst(bs)
      case None => None
      case Some(first) =>
        match Decode(bs[first.1..])
        case None => None
        case Some(rest) => Some([first.0] + rest)
  }

  lemma FirstIsRead(c: char, rest: seq<Byte>)
    ensures DecodeFirst(EncodeChar(c) + rest) == Some((c, |EncodeChar(c)|))
  {
    var n := c as int;
    var e := EncodeChar(c);
    var bs := e + rest;
    assert bs[0] == e[0] && bs[..|e|] == e;
    CodePointOfEncoded(c);
    assert forall i :: 1 <= i < |e| ==> bs[i] == e[i];
    hide EncodeChar, CodePoint;
  }

  lemma CodePointOfEncoded(c: char)
    ensures var e := EncodeChar(c);
            Announced(e[0]) == |e| && (forall i :: 1 <= i < |e| ==> Continues(e[i]))
            && CodePoint(e) == c as int && c as int >= Least(|e|)
  {
    var n := c as int;
    assert n == n / 64 * 64 + n % 64;
    assert n / 64 == n / 4096 * 64 + n / 64 % 64;
    assert n / 4096 == n / 262144 * 64 + n / 4096 % 64;
  }

  /** Decoding inverts encoding on every text. */
  lemma {:induction false} DecodesEncoded(s: string)
    ensures Decode(Encode(s)) == Some(s)
    decreases |s|
  {
    if s != "" {
      FirstIsRead(s[0], Encode(s[1..]));
      DecodesEncoded(s[1..]);
      var e := EncodeChar(s[0]);
      assert (e + Encode(s[1..]))[|e|..] == Encode(s[1..]);
      hide EncodeChar, DecodeFirst;
      assert Encode(s) != [];
      assert s == [s[0]] + s[1..];
    }
  }

  predicate WellFormed(e: seq<Byte>) {
    && e != [] && |e| == Announced(e[0]) && (forall i :: 1 <= i < |e| ==> Continues(e[i]))
    && CodePoint(e) >= Least(|e|) && IsScalar(CodePoint(e))
  }

  lemma FourAreRead(e: seq<Byte>)
    requires WellFormed(e) && |e| == 4
    ensures EncodeChar(CodePoint(e) as char) == e
  {
    var a, b := e[0] - 0xF0, Low(e[1]);
    SixBits(a, b);
    SixBits(a * 64 + b, Low(e[2]));
    SixBits((a * 64 + b) * 64 + Low(e[2]), Low(e[3]));
  }

  lemma ThreeAreRead(e: seq<Byte>)
    requires WellFormed(e) && |e| == 3
    ensures EncodeChar(CodePoint(e) as char) == e
  {
    SixBits(e[0] - 0xE0, Low(e[1]));
    SixBits((e[0] - 0xE0) * 64 + Low(e[1]), Low(e[2]));
  }

  lemma FewAreRead(e: seq<Byte>)
    requires WellFormed(e) && |e| <= 2
    ensures EncodeChar(CodePoint(e) as char) == e
  {
    if |e| == 2 { SixBits(e[0] - 0xC0, Low(e[1])); }
  }

  /** What is read from the front is the encoding of the character read. */
  lemma FirstIsEncoded(bs: seq<Byte>)
    requires bs != [] && DecodeFirst(bs).Some?
    ensures var (c, k) := DecodeFirst(bs).value; 1 <= k <= |bs| && bs[..k] == EncodeChar(c)
  {
    var k := Announced(bs[0]);
    var e := bs[..k];
    assert forall i :: 1 <= i < k ==> e[i] == bs[i];
    assert WellFormed(e) && |e| <= 4;
    hide EncodeChar, CodePoint, WellFormed;
    if |e| == 4 { FourAreRead(e); } else if |e| == 3 { ThreeAreRead(e); } else { FewAreRead(e); }
  }

  lemma SixBits(high: nat, low: nat)
    requires low < 64
    ensures (high * 64 + low) / 64 == high && (high * 64 + low) % 64 == low
  {
  }

  /** The decoder is strict: it accepts the encodings and no other bytes. */
  lemma {:induction false} DecodesOnlyEncodings(bs: seq<Byte>, s: string)
    ensures Decode(bs) == Some(s) <==> bs == Encode(s)
    decreases |bs|
  {
    DecodesEncoded(s);
    if Decode(bs) == Some(s) && bs != [] {
      FirstIsEncoded(bs);
      var (c, k) := DecodeFirst(bs).value;
      DecodesOnlyEncodings(bs[k..], s[1..]);
      assert bs == bs[..k] + bs[k..];
      hide DecodeFirst, EncodeChar;
    }
  }

  /** One character of each length, as RFC 3629 encodes it. */
  lemma KnownCharacters()
    ensures EncodeChar('A') == [0x41] && EncodeChar('\U{E9}') == [0xC3, 0xA9]
    ensures EncodeChar('\U{20AC}') == [0xE2, 0x82, 0xAC] && EncodeChar('\U{1F600}') == [0xF0, 0x9F, 0x98, 0x80]
  {
  }
}
