// The URL-safe base64 of section 5 of RFC 4648, and the decoder Python runs on it: it
// skips characters outside the alphabet and stops at complete padding.
module Base64Url {
  import opened Basics
  import opened Utf8

  function Symbol(v: nat): (c: char)
    requires v < 64
  {
    if v < 26 then ('A' as int + v) as char
    else if v < 52 then ('a' as int + v - 26) as char
    else if v < 62 then ('0' as int + v - 52) as char
    else if v == 62 then '-' else '_'
  }

  /** '+' and '/' decode as well: the decoder first maps '-' and '_' to them. */
  function SymbolValue(c: char): (v: Option<nat>)
    ensures v.Some? ==> v.value < 64
  {
    if 'A' <= c <= 'Z' then Some(c as int - 'A' as int)
    else if 'a' <= c <= 'z' then Some(c as int - 'a' as int + 26)
    else if '0' <= c <= '9' then Some(c as int - '0' as int + 52)
    else if c == '-' || c == '+' then Some(62)
    else if c == '_' || c == '/' then Some(63)
    else None
  }

  lemma SymbolRoundTrip(v: nat)
    requires v < 64
    ensures SymbolValue(Symbol(v)) == Some(v) && Symbol(v) != '=' && (Symbol(v) as int) < 0x80
  {
  }

  function Encode64(bs: seq<Byte>): string {
    if bs == [] then ""
    else
      var b0: nat := bs[0];
      if |bs| == 1 then [Symbol(b0 / 4), Symbol(b0 % 4 * 16), '=', '=']
      else
        var b1: nat := bs[1];
        if |bs| == 2 then [Symbol(b0 / 4), Symbol(b0 % 4 * 16 + b1 / 16), Symbol(b1 % 16 * 4), '=']
        else
          Group(bs[0], bs[1], bs[2]) + Encode64(bs[3..])
  }

  /** The four symbols of three bytes. */
  function Group(b0: Byte, b1: Byte, b2: Byte): string {
    [Symbol(b0 / 4), Symbol(b0 % 4 * 16 + b1 / 16), Symbol(b1 % 16 * 4 + b2 / 64), Symbol(b2 % 64)]
  }

  /** What is left over of the last symbol, given its place in its group of four. */
  predicate Carry(place: nat, left: nat) {
    (place == 0 && left == 0) || (place == 1 && left < 64) || (place == 2 && left < 16) || (place == 3 && left < 4)
  }

  /** One symbol: the byte it completes, if any, and the new leftover bits. */
  function Push(place: nat, left: nat, v: nat): (r: (seq<Byte>, nat))
    requires Carry(place, left) && v < 64
    ensures Carry((place + 1) % 4, r.1)
  {
    if place == 0 then ([], v)
    else if place == 1 then ([left * 4 + v / 16], v % 16)
    else if place == 2 then ([left * 16 + v / 4], v % 4)
    else ([left * 64 + v], 0)
  }

  function Before(out: seq<Byte>, rest: Option<seq<Byte>>): Option<seq<Byte>> {
    match rest
    case None => None
    case Some(tail) => Some(out + tail)
  }

  /** `pads` counts the '=' signs since the last symbol. None: incorrect padding. */
  function Decode64(s: string, place: nat, left: nat, pads: nat): Option<seq<Byte>>
    requires Carry(place, left)
  {
    if s == "" then (if place == 0 then Some([]) else None)
    else if s[0] == '=' then
      if place >= 2 && place + pads + 1 >= 4 then Some([]) else Decode64(s[1..], place, left, if place >= 2 then pads + 1 else pads)
    else
      match SymbolValue(s[0])
      case None => Decode64(s[1..], place, left, pads)
      case Some(v) =>
        var (out, left') := Push(place, left, v);
        Before(out, Decode64(s[1..], (place + 1) % 4, left', 0))
  }

  lemma DecodeSymbol(v: nat, rest: string, place: nat, left: nat, pads: nat)
    requires Carry(place, left) && v < 64
    ensures Decode64([Symbol(v)] + rest, place, left, pads) ==
            Before(Push(place, left, v).0, Decode64(rest, (place + 1) % 4, Push(place, left, v).1, 0))
  {
    SymbolRoundTrip(v);
    var s := [Symbol(v)] + rest;
    assert s[0] == Symbol(v) && s[1..] == rest;
  }

  lemma DecodeTwoSymbols(v0: nat, v1: nat, rest: string)
    requires v0 < 64 && v1 < 64
    ensures Decode64([Symbol(v0), Symbol(v1)] + rest, 0, 0, 0) == Before([v0 * 4 + v1 / 16], Decode64(rest, 2, v1 % 16, 0))
  {
    DecodeSymbol(v1, rest, 1, v0, 0);
    DecodeSymbol(v0, [Symbol(v1)] + rest, 0, 0, 0);
    assert [Symbol(v0), Symbol(v1)] + rest == [Symbol(v0)] + ([Symbol(v1)] + rest);
    BeforeBefore([], [v0 * 4 + v1 / 16], [v0 * 4 + v1 / 16], Decode64(rest, 2, v1 % 16, 0));
  }

  lemma BeforeBefore(a: seq<Byte>, b: seq<Byte>, both: seq<Byte>, rest: Option<seq<Byte>>)
    requires a + b == both
    ensures Before(a, Before(b, rest)) == Before(both, rest)
  {
    if rest.Some? {
      assert a + (b + rest.value) == (a + b) + rest.value;
    }
  }

  lemma DecodeLastTwoSymbols(v2: nat, v3: nat, left: nat, rest: string)
    requires v2 < 64 && v3 < 64 && left < 16
    ensures Decode64([Symbol(v2), Symbol(v3)] + rest, 2, left, 0) ==
            Before([left * 16 + v2 / 4, v2 % 4 * 64 + v3], Decode64(rest, 0, 0, 0))
  {
    DecodeSymbol(v3, rest, 3, v2 % 4, 0);
    DecodeSymbol(v2, [Symbol(v3)] + rest, 2, left, 0);
    assert [Symbol(v2), Symbol(v3)] + rest == [Symbol(v2)] + ([Symbol(v3)] + rest);
    BeforeBefore([left * 16 + v2 / 4], [v2 % 4 * 64 + v3], [left * 16 + v2 / 4, v2 % 4 * 64 + v3], Decode64(rest, 0, 0, 0));
  }

  /** The bits of three bytes, cut into four symbols, are the three bytes again. */
  lemma GroupBits(b0: Byte, b1: Byte, b2: Byte)
    ensures var v1, v2 := b0 % 4 * 16 + b1 / 16, b1 % 16 * 4 + b2 / 64;
            && v1 < 64 && v2 < 64
            && b0 / 4 * 4 + v1 / 16 == b0 && v1 % 16 * 16 + v2 / 4 == b1 && v2 % 4 * 64 + b2 % 64 == b2
            && (b1 % 16 * 4) / 4 == b1 % 16 && (b0 % 4 * 16) / 16 == b0 % 4
  {
  }

  lemma DecodeFourSymbols(v0: nat, v1: nat, v2: nat, v3: nat, rest: string)
    requires v0 < 64 && v1 < 64 && v2 < 64 && v3 < 64
    ensures Decode64([Symbol(v0), Symbol(v1), Symbol(v2), Symbol(v3)] + rest, 0, 0, 0) ==
            Before([v0 * 4 + v1 / 16, v1 % 16 * 16 + v2 / 4, v2 % 4 * 64 + v3], Decode64(rest, 0, 0, 0))
  {
    var half := [Symbol(v2), Symbol(v3)] + rest;
    DecodeTwoSymbols(v0, v1, half);
    DecodeLastTwoSymbols(v2, v3, v1 % 16, rest);
    assert [Symbol(v0), Symbol(v1), Symbol(v2), Symbol(v3)] + rest == [Symbol(v0), Symbol(v1)] + half;
    var b0: Byte, b1: Byte, b2: Byte := v0 * 4 + v1 / 16, v1 % 16 * 16 + v2 / 4, v2 % 4 * 64 + v3;
    BeforeBefore([b0], [b1, b2], [b0, b1, b2], Decode64(rest, 0, 0, 0));
  }

  lemma DecodeGroup(b0: Byte, b1: Byte, b2: Byte, rest: string)
    ensures Decode64(Group(b0, b1, b2) + rest, 0, 0, 0) == Before([b0, b1, b2], Decode64(rest, 0, 0, 0))
  {
    GroupBits(b0, b1, b2);
    DecodeFourSymbols(b0 / 4, b0 % 4 * 16 + b1 / 16, b1 % 16 * 4 + b2 / 64, b2 % 64, rest);
  }

  lemma PaddingEnds(left: nat)
    ensures left < 16 ==> Decode64("==", 2, left, 0) == Some([])
    ensures left < 4 ==> Decode64("=", 3, left, 0) == Some([])
  {
    assert "=="[1..] == "=";
  }

  lemma DecodeOne(b0: Byte)
    ensures Decode64([Symbol(b0 / 4), Symbol(b0 % 4 * 16), '=', '='], 0, 0, 0) == Some([b0])
  {
    var v0, v1 := b0 / 4, b0 % 4 * 16;
    assert v0 * 4 + v1 / 16 == b0;
    PaddingEnds(v1 % 16);
    DecodeTwoSymbols(v0, v1, "==");
    assert [Symbol(v0), Symbol(v1), '=', '='] == [Symbol(v0), Symbol(v1)] + "==";
    assert [b0] + [] == [b0];
  }

  lemma DecodeTwo(b0: Byte, b1: Byte)
    ensures Decode64([Symbol(b0 / 4), Symbol(b0 % 4 * 16 + b1 / 16), Symbol(b1 % 16 * 4), '='], 0, 0, 0) == Some([b0, b1])
  {
    var v0, v1, v2 := b0 / 4, b0 % 4 * 16 + b1 / 16, b1 % 16 * 4;
    assert v0 * 4 + v1 / 16 == b0 && v1 % 16 * 16 + v2 / 4 == b1 && v2 % 4 == 0;
    var half := [Symbol(v2)] + "=";
    PaddingEnds(0);
    DecodeSymbol(v2, "=", 2, v1 % 16, 0);
    DecodeTwoSymbols(v0, v1, half);
    assert [Symbol(v0), Symbol(v1), Symbol(v2), '='] == [Symbol(v0), Symbol(v1)] + half;
    assert [b0] + ([b1] + []) == [b0, b1];
  }

  lemma OneByteRoundTrip(bs: seq<Byte>)
    requires |bs| == 1
    ensures Decode64(Encode64(bs), 0, 0, 0) == Some(bs)
  {
    DecodeOne(bs[0]);
    assert bs == [bs[0]];
  }

  lemma TwoByteRoundTrip(bs: seq<Byte>)
    requires |bs| == 2
    ensures Decode64(Encode64(bs), 0, 0, 0) == Some(bs)
  {
    DecodeTwo(bs[0], bs[1]);
    assert bs == [bs[0], bs[1]];
  }

  /** Decoding inverts encoding, for every byte string. */
  lemma {:induction false} Base64RoundTrip(bs: seq<Byte>)
    ensures Decode64(Encode64(bs), 0, 0, 0) == Some(bs)
  {
    if |bs| == 1 {
      OneByteRoundTrip(bs);
    } else if |bs| == 2 {
      TwoByteRoundTrip(bs);
    } else if |bs| > 2 {
      DecodeGroup(bs[0], bs[1], bs[2], Encode64(bs[3..]));
      Base64RoundTrip(bs[3..]);
      assert bs == [bs[0], bs[1], bs[2]] + bs[3..];
    }
  }

  /** The alphabet of table 2 of RFC 4648: capitals, small letters, digits, dash, underscore. */
  lemma SymbolTable(v: nat)
    ensures Symbol(0) == 'A' && Symbol(25) == 'Z' && Symbol(26) == 'a' && Symbol(51) == 'z'
    ensures Symbol(52) == '0' && Symbol(61) == '9' && Symbol(62) == '-' && Symbol(63) == '_'
    ensures v < 61 && v != 25 && v != 51 ==> Symbol(v + 1) as int == Symbol(v) as int + 1
  {
  }

  lemma Divided(n: nat, q: nat, r: nat)
    requires n == 64 * q + r && r < 64
    ensures n / 64 == q && n % 64 == r
  {
  }

  /** Three bytes are 24 bits, most significant first, cut into four values of six bits. */
  lemma GroupIsBigEndian(b0: nat, b1: nat, b2: nat)
    requires b0 < 256 && b1 < 256 && b2 < 256
    ensures var n := 65_536 * b0 + 256 * b1 + b2;
            Group(b0, b1, b2) == [Symbol(n / 64 / 64 / 64), Symbol(n / 64 / 64 % 64), Symbol(n / 64 % 64), Symbol(n % 64)]
  {
    var n := 65_536 * b0 + 256 * b1 + b2;
    Divided(n, 1_024 * b0 + 4 * b1 + b2 / 64, b2 % 64);
    Divided(n / 64, 16 * b0 + b1 / 16, b1 % 16 * 4 + b2 / 64);
    Divided(n / 64 / 64, b0 / 4, b0 % 4 * 16 + b1 / 16);
  }

  /** Test vectors of section 10 of RFC 4648: "f", "fo", "foo", "foob". */
  lemma StandardVectors()
    ensures Encode64([102]) == "Zg=="
    ensures Encode64([102, 111]) == "Zm8="
    ensures Encode64([102, 111, 111]) == "Zm9v"
    ensures Encode64([102, 111, 111, 98]) == "Zm9vYg=="
  {
    var foo: seq<Byte> := [102, 111, 111];
    assert foo[3..] == [] && Encode64([]) == "";
    var foob: seq<Byte> := [102, 111, 111, 98];
    assert foob[3..] == [98] && Encode64([98]) == "Yg==";
  }

  lemma {:induction false} EncodedIsAscii(bs: seq<Byte>)
    ensures Ascii(Encode64(bs))
  {
    if |bs| > 2 {
      EncodedIsAscii(bs[3..]);
    }
  }
}
