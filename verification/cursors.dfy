/** Page cursors: text as UTF-8 bytes in the URL-safe base 64 of section 5 of RFC 4648, with
    the padding removed and put back. */
module Cursors {
  import opened Text
  import opened Utf8

  // ----- base 64 -----

  function Letter(n: nat): (c: char)
    requires n < 64
    ensures c != '='
  {
    if n < 26 then 'A' + n as char
    else if n < 52 then 'a' + (n - 26) as char
    else if n < 62 then '0' + (n - 52) as char
    else if n == 62 then '-' else '_'
  }

  /** The decoder also takes the two letters of the ordinary alphabet. */
  function Value(c: char): (v: Option<nat>)
    ensures v.Some? ==> v.value < 64
  {
    if 'A' <= c <= 'Z' then Some((c - 'A') as nat)
    else if 'a' <= c <= 'z' then Some((c - 'a') as nat + 26)
    else if '0' <= c <= '9' then Some((c - '0') as nat + 52)
    else if c == '-' || c == '+' then Some(62)
    else if c == '_' || c == '/' then Some(63)
    else None
  }

  lemma ValueOfLetter(n: nat)
    requires n < 64
    ensures Value(Letter(n)) == Some(n)
  {
  }

  /** Table 2 of RFC 4648: the ends of its three runs, which go up by one, and its last two. */
  lemma LettersAreTheAlphabet(n: nat)
    requires n < 63
    ensures Letter(0) == 'A' && Letter(25) == 'Z' && Letter(26) == 'a' && Letter(51) == 'z'
    ensures Letter(52) == '0' && Letter(61) == '9' && Letter(62) == '-' && Letter(63) == '_'
    ensures n !in {25, 51, 61, 62} ==> Letter(n + 1) as int == Letter(n) as int + 1
  {
  }

  function ThreeBytes(x: Byte, y: Byte, z: Byte): string {
    [Letter(x / 4), Letter(x % 4 * 16 + y / 16), Letter(y % 16 * 4 + z / 64), Letter(z % 64)]
  }

  function OneByte(x: Byte): string {
    [Letter(x / 4), Letter(x % 4 * 16)]
  }

  function TwoBytes(x: Byte, y: Byte): string {
    [Letter(x / 4), Letter(x % 4 * 16 + y / 16), Letter(y % 16 * 4)]
  }

  function Base64(bs: seq<Byte>): string {
    if |bs| == 0 then ""
    else if |bs| == 1 then OneByte(bs[0]) + "=="
    else if |bs| == 2 then TwoBytes(bs[0], bs[1]) + "="
    else ThreeBytes(bs[0], bs[1], bs[2]) + Base64(bs[3..])
  }

  /** The bytes that two, three or four values fill; bits that fill no byte are dropped. */
  function Bytes(a: nat, b: nat, c: nat, d: nat, count: nat): seq<Byte>
    requires a < 64 && b < 64 && c < 64 && d < 64 && count <= 3
  {
    [a * 4 + b / 16, b % 16 * 16 + c / 4, c % 4 * 64 + d][..count]
  }

  function Group(t: string): Option<seq<Byte>>
    requires |t| == 4
  {
    var a, b, c, d := Value(t[0]), Value(t[1]), Value(t[2]), Value(t[3]);
    if a.None? || b.None? || c.None? || d.None? then None else Some(Bytes(a.value, b.value, c.value, d.value, 3))
  }

  /** The last group may be padded. */
  function LastGroup(t: string): Option<seq<Byte>>
    requires |t| == 4
  {
    var a, b, c := Value(t[0]), Value(t[1]), Value(t[2]);
    if t[2] == '=' && t[3] == '=' then
      if a.None? || b.None? then None else Some(Bytes(a.value, b.value, 0, 0, 1))
    else if t[3] == '=' then
      if a.None? || b.None? || c.None? then None else Some(Bytes(a.value, b.value, c.value, 0, 2))
    else Group(t)
  }

  function FromBase64(t: string): Option<seq<Byte>>
    decreases |t|
  {
    if t == "" then Some([])
    else if |t| < 4 then None
    else if |t| == 4 then LastGroup(t)
    else
      var first, rest := Group(t[..4]), FromBase64(t[4..]);
      if first.None? || rest.None? then None else Some(first.value + rest.value)
  }

  // ----- padding -----

  predicate IsPad(c: char) {
    c == '='
  }

  function Pads(k: nat): string {
    if k == 0 then "" else Pads(k - 1) + "="
  }

  function Padded(v: string): string {
    v + Pads((4 - |v| % 4) % 4)
  }

  // ----- cursors -----

  datatype Decoded = Absent | Invalid | Cursor(text: string)

  function EncodeCursor(s: string): string {
    TrimEnd(Base64(Encode(s)), IsPad)
  }

  function DecodeCursor(v: Option<string>): Decoded {
    if v.None? || v.value == "" then Absent
    else
      match FromBase64(Padded(v.value)) {
        case None => Invalid
        case Some(bs) =>
          match Decode(bs)
          case None => Invalid
          case Some(s) => if s == "" then Invalid else Cursor(s)
      }
  }

  // ----- round trip -----

  /** Splitting bytes into six-bit values and joining these again. */
  lemma BytesOfValues(x: Byte, y: Byte, z: Byte)
    ensures Bytes(x / 4, x % 4 * 16 + y / 16, y % 16 * 4 + z / 64, z % 64, 3) == [x, y, z]
    ensures Bytes(x / 4, x % 4 * 16 + y / 16, y % 16 * 4, 0, 2) == [x, y]
    ensures Bytes(x / 4, x % 4 * 16, 0, 0, 1) == [x]
  {
  }

  lemma FullGroup(x: Byte, y: Byte, z: Byte)
    ensures Group(ThreeBytes(x, y, z)) == Some([x, y, z]) && '=' !in ThreeBytes(x, y, z)
  {
    ValueOfLetter(x / 4);
    ValueOfLetter(x % 4 * 16 + y / 16);
    ValueOfLetter(y % 16 * 4 + z / 64);
    ValueOfLetter(z % 64);
    BytesOfValues(x, y, z);
    hide Letter, Value, Bytes;
  }

  lemma OneByteGroup(x: Byte)
    ensures LastGroup(OneByte(x) + "==") == Some([x]) && '=' !in OneByte(x)
  {
    ValueOfLetter(x / 4);
    ValueOfLetter(x % 4 * 16);
    BytesOfValues(x, 0, 0);
    hide Letter, Value, Bytes, Group;
  }

  lemma TwoByteGroup(x: Byte, y: Byte)
    ensures LastGroup(TwoBytes(x, y) + "=") == Some([x, y]) && '=' !in TwoBytes(x, y)
  {
    ValueOfLetter(x / 4);
    ValueOfLetter(x % 4 * 16 + y / 16);
    ValueOfLetter(y % 16 * 4);
    BytesOfValues(x, y, 0);
    hide Letter, Value, Bytes, Group;
  }

  lemma UnpaddedGroup(t: string)
    requires |t| == 4 && '=' !in t
    ensures LastGroup(t) == Group(t)
  {
    assert t[3] in t;
  }

  lemma Base64Unfolds(bs: seq<Byte>)
    ensures |bs| == 0 ==> Base64(bs) == ""
    ensures |bs| == 1 ==> Base64(bs) == OneByte(bs[0]) + "==" && |OneByte(bs[0])| == 2
    ensures |bs| == 2 ==> Base64(bs) == TwoBytes(bs[0], bs[1]) + "=" && |TwoBytes(bs[0], bs[1])| == 3
    ensures |bs| >= 3 ==> Base64(bs) == ThreeBytes(bs[0], bs[1], bs[2]) + Base64(bs[3..])
                          && |ThreeBytes(bs[0], bs[1], bs[2])| == 4
  {
    hide Letter;
  }

  lemma OneGroup(t: string)
    requires |t| == 4
    ensures FromBase64(t) == LastGroup(t)
  {
  }

  lemma FewBytesRoundTrip(bs: seq<Byte>)
    requires |bs| < 3
    ensures FromBase64(Base64(bs)) == Some(bs) && (Base64(bs) == "" || |Base64(bs)| == 4)
  {
    Base64Unfolds(bs);
    if |bs| > 0 { OneGroup(Base64(bs)); }
    hide Base64, LastGroup, Group, OneByte, TwoBytes, ThreeBytes;
    if |bs| == 1 {
      OneByteGroup(bs[0]);
      assert bs == [bs[0]];
    } else if |bs| == 2 {
      TwoByteGroup(bs[0], bs[1]);
      assert bs == [bs[0], bs[1]];
    }
  }

  lemma {:induction false} Base64RoundTrip(bs: seq<Byte>)
    ensures FromBase64(Base64(bs)) == Some(bs) && |Base64(bs)| % 4 == 0
    decreases |bs|
  {
    hide Base64, FromBase64, LastGroup, Group, OneByte, TwoBytes, ThreeBytes;
    if |bs| < 3 {
      FewBytesRoundTrip(bs);
    } else {
      Base64Unfolds(bs);
      var rest := bs[3..];
      Base64RoundTrip(rest);
      FullGroup(bs[0], bs[1], bs[2]);
      GroupFirst(ThreeBytes(bs[0], bs[1], bs[2]), Base64(rest));
      assert [bs[0], bs[1], bs[2]] + rest == bs;
    }
  }

  /** A full group in front, whether or not anything follows. */
  lemma GroupFirst(first: string, t: string)
    requires |first| == 4 && '=' !in first && Group(first).Some? && FromBase64(t).Some?
    ensures FromBase64(first + t) == Some(Group(first).value + FromBase64(t).value)
  {
    hide LastGroup, Group;
    assert (first + t)[..4] == first && (first + t)[4..] == t;
    if t == "" {
      assert first + t == first;
      UnpaddedGroup(first);
      assert Group(first).value + [] == Group(first).value;
    }
  }

  lemma TwoPads()
    ensures Pads(0) == "" && Pads(1) == "=" && Pads(2) == "=="
  {
  }

  /** The letters before the padding, and the padding they need. */
  lemma {:induction false} PaddingIsRestored(bs: seq<Byte>)
    ensures var u := TrimEnd(Base64(bs), IsPad);
            Base64(bs) == u + Pads((4 - |u| % 4) % 4) && '=' !in u
    decreases |bs|
  {
    TwoPads();
    NoPadding();
    hide Base64, Pads, TrimEnd, OneByte, TwoBytes, ThreeBytes;
    Base64Unfolds(bs);
    if |bs| == 1 {
      OneByteGroup(bs[0]);
      LastTrimmed(OneByte(bs[0]), "==");
    } else if |bs| == 2 {
      TwoByteGroup(bs[0], bs[1]);
      LastTrimmed(TwoBytes(bs[0], bs[1]), "=");
    } else if |bs| >= 3 {
      PaddingIsRestored(bs[3..]);
      FullGroup(bs[0], bs[1], bs[2]);
      TrimEndAppend(ThreeBytes(bs[0], bs[1], bs[2]), Base64(bs[3..]));
    }
  }

  lemma LastTrimmed(letters: string, pads: string)
    requires letters != "" && '=' !in letters && (pads == "=" || pads == "==")
    ensures TrimEnd(letters + pads, IsPad) == letters
  {
    assert pads[..|pads| - 1] == if pads == "=" then "" else "=";
    assert "="[..0] == "";
    assert TrimEnd(pads, IsPad) == "";
    TrimEndAppend(letters, pads);
    assert letters + "" == letters;
  }

  lemma {:induction false} TrimEndAppend(head: string, tail: string)
    requires head != "" && '=' !in head
    ensures TrimEnd(head + tail, IsPad) == head + TrimEnd(tail, IsPad)
    decreases |tail|
  {
    if tail == "" {
      assert head + tail == head;
      assert head[|head| - 1] in head;
    } else if IsPad(tail[|tail| - 1]) {
      assert (head + tail)[..|head + tail| - 1] == head + tail[..|tail| - 1];
      TrimEndAppend(head, tail[..|tail| - 1]);
    }
  }

  lemma NoPadding()
    ensures TrimEnd("", IsPad) == "" && Padded("") == "" && Base64([]) == "" && FromBase64("") == Some([])
  {
  }

  /** A cursor decodes to the text it encodes, for every text but the empty one, whose cursor
      is no cursor. */
  lemma CursorRoundTrip(s: string)
    ensures DecodeCursor(Some(EncodeCursor(s))) == if s == "" then Absent else Cursor(s)
  {
    hide Base64, FromBase64, Encode, Decode, TrimEnd, Pads;
    var bs := Encode(s);
    PaddingIsRestored(bs);
    Base64RoundTrip(bs);
    OnlyEmptyEncodesEmpty(s);
    DecodesEncoded(s);
    NoPadding();
    assert Padded(EncodeCursor(s)) == Base64(bs);
  }

  /** No padding completes a cursor of length one modulo four. */
  lemma LengthOneIsRejected(v: string)
    requires |v| % 4 == 1
    ensures DecodeCursor(Some(v)) == Invalid
  {
    TwoPads();
    assert Pads(3) == "===";
    ThreePadsFail(v);
  }

  lemma {:induction false} ThreePadsFail(v: string)
    requires |v| % 4 == 1
    ensures FromBase64(v + "===").None?
    decreases |v|
  {
    if |v| > 4 {
      ThreePadsFail(v[4..]);
      assert (v + "===")[4..] == v[4..] + "===";
    } else {
      var t := v + "===";
      assert |v| == 1 && t[1] == t[2] == t[3] == '=';
    }
  }

  /** Test vectors of section 10 of RFC 4648. */
  lemma KnownVectors()
    ensures Base64([102]) == "Zg==" && Base64([102, 111]) == "Zm8="
    ensures Base64([102, 111, 111]) == "Zm9v" && Base64([102, 111, 111, 98]) == "Zm9vYg=="
  {
    assert [102, 111, 111, 98][3..] == [98] && [102, 111, 111][3..] == [];
  }

  // ----- the pair in an alarm cursor -----

  datatype Position = Malformed | Position(time: string, id: string)

  /** Everything before the first separator, and everything after it. */
  function SplitPair(s: string): Position {
    if s == "" then Malformed
    else if s[0] == '|' then Position("", s[1..])
    else
      match SplitPair(s[1..])
      case Malformed => Malformed
      case Position(t, id) => Position([s[0]] + t, id)
  }

  lemma {:induction false} SplitsAtFirst(time: string, id: string)
    requires '|' !in time
    ensures SplitPair(time + "|" + id) == Position(time, id)
    decreases |time|
  {
    var s := time + "|" + id;
    if time == "" {
      assert s[1..] == id;
    } else {
      assert time[0] in time;
      assert s[1..] == time[1..] + "|" + id;
      SplitsAtFirst(time[1..], id);
    }
  }

  /** The moment and the id come back, whatever the id contains. */
  lemma PairRoundTrip(time: string, id: string)
    requires '|' !in time
    ensures DecodeCursor(Some(EncodeCursor(time + "|" + id))).Cursor?
    ensures SplitPair(DecodeCursor(Some(EncodeCursor(time + "|" + id))).text) == Position(time, id)
  {
    CursorRoundTrip(time + "|" + id);
    SplitsAtFirst(time, id);
  }

  /** Two positions never share a cursor. */
  lemma CursorsAreDistinct(s: string, t: string)
    requires EncodeCursor(s) == EncodeCursor(t)
    ensures s == t
  {
    CursorRoundTrip(s);
    CursorRoundTrip(t);
  }
}
