// UTF-8 as section 3 of RFC 3629 defines it. A Dafny `char` is a Unicode scalar
// value, so a `string` is exactly what Python can encode without an error.
module Utf8 {
  import opened Basics

  type Byte = b: int | 0 <= b < 256

  function EncodeChar(c: char): (bs: seq<Byte>)
    ensures 1 <= |bs| <= 4
  {
    var n := c as int;
    var n6 := n / 0x40;
    var n12 := n6 / 0x40;
    var n18 := n12 / 0x40;
    if n < 0x80 then [n]
    else if n < 0x800 then [0xC0 + n6, 0x80 + n % 0x40]
    else if n < 0x1_0000 then [0xE0 + n12, 0x80 + n6 % 0x40, 0x80 + n % 0x40]
    else [0xF0 + n18, 0x80 + n12 % 0x40, 0x80 + n6 % 0x40, 0x80 + n % 0x40]
  }

  function Encode(s: string): seq<Byte> {
    if s == "" then [] else EncodeChar(s[0]) + Encode(s[1..])
  }

  predicate Continuation(b: Byte) {
    0x80 <= b < 0xC0
  }

  predicate Scalar(n: int) {
    0 <= n < 0xD800 || 0xE000 <= n < 0x11_0000
  }

  /** How many bytes the lead byte announces; 0 for a byte that cannot lead. */
  function SequenceLength(lead: Byte): nat {
    if lead < 0x80 then 1
    else if 0xC0 <= lead < 0xE0 then 2
    else if 0xE0 <= lead < 0xF0 then 3
    else if 0xF0 <= lead < 0xF8 then 4
    else 0
  }

  /** The bits that a lead byte and its k - 1 continuation bytes carry. */
  function Assemble(bs: seq<Byte>, k: nat): (n: int)
    requires 1 <= k <= |bs|
  {
    var b0: int := bs[0];
    if k == 1 then b0
    else if k == 2 then (b0 - 0xC0) * 0x40 + (bs[1] as int - 0x80)
    else if k == 3 then ((b0 - 0xE0) * 0x40 + (bs[1] as int - 0x80)) * 0x40 + (bs[2] as int - 0x80)
    else if k == 4 then
      (((b0 - 0xF0) * 0x40 + (bs[1] as int - 0x80)) * 0x40 + (bs[2] as int - 0x80)) * 0x40 + (bs[3] as int - 0x80)
    else 0
  }

  /** The scalar value of the well-formed sequence at the front of `bs`: overlong
      forms, surrogates and values past U+10FFFF are malformed. */
  function DecodeFirst(bs: seq<Byte>): Option<char> {
    if bs == [] then None
    else
      var k := SequenceLength(bs[0]);
      if k == 0 || |bs| < k || !(forall i | 1 <= i < k :: Continuation(bs[i])) then None
      else
        var n := Assemble(bs, k);
        var least: int := if k == 1 then 0 else if k == 2 then 0x80 else if k == 3 then 0x800 else 0x1_0000;
        if least <= n && Scalar(n) then Some(n as char) else None
  }

  /** `bytes.decode("utf-8")`: None where Python raises. */
  function Decode(bs: seq<Byte>): Option<string> {
    if bs == [] then Some("")
    else
      match DecodeFirst(bs)
      case None => None
      case Some(c) =>
        match Decode(bs[SequenceLength(bs[0])..])
        case None => None
        case Some(rest) => Some([c] + rest)
  }

  /** `bytes.decode("utf-8", errors="ignore")`: malformed bytes are dropped. */
  function DecodeIgnore(bs: seq<Byte>): string {
    if bs == [] then ""
    else
      match DecodeFirst(bs)
      case None => DecodeIgnore(bs[1..])
      case Some(c) => [c] + DecodeIgnore(bs[SequenceLength(bs[0])..])
  }

  /** Decoding reads back the first encoded character, whatever follows it. */
  lemma DecodeFirstOfEncoded(c: char, rest: seq<Byte>)
    ensures DecodeFirst(EncodeChar(c) + rest) == Some(c)
    ensures SequenceLength(EncodeChar(c)[0]) == |EncodeChar(c)|
  {
    var bs, k := EncodeChar(c) + rest, |EncodeChar(c)|;
    assert forall i | 0 <= i < k :: bs[i] == EncodeChar(c)[i];
    EncodeThenAssemble(c);
    assert Assemble(bs, k) == Assemble(EncodeChar(c), k) == c as int;
  }

  lemma EncodeThenAssemble(c: char)
    ensures var bs := EncodeChar(c);
            && SequenceLength(bs[0]) == |bs|
            && Assemble(bs, |bs|) == c as int
            && forall i | 1 <= i < |bs| :: Continuation(bs[i])
  {
  }

  /** How many bytes a character takes, and what its first byte says of that. */
  lemma EncodedLength(c: char)
    ensures |EncodeChar(c)| == (if c as int < 0x80 then 1 else if c as int < 0x800 then 2 else if c as int < 0x1_0000 then 3 else 4)
    ensures var lead := EncodeChar(c)[0];
            match |EncodeChar(c)|
            case 1 => lead < 0x80
            case 2 => 0xC0 <= lead < 0xE0
            case 3 => 0xE0 <= lead < 0xF0
            case _ => 0xF0 <= lead < 0xF8
    ensures forall i | 1 <= i < |EncodeChar(c)| :: 0x80 <= EncodeChar(c)[i] < 0xC0
  {
  }

  /** Characters of section 7 of RFC 3629. */
  lemma StandardCharacters()
    ensures Encode("A") == [0x41]
    ensures EncodeChar(0x391 as char) == [0xCE, 0x91]
    ensures EncodeChar(0x2262 as char) == [0xE2, 0x89, 0xA2]
    ensures EncodeChar(0xD55C as char) == [0xED, 0x95, 0x9C]
    ensures EncodeChar(0x233B4 as char) == [0xF0, 0xA3, 0x8E, 0xB4]
  {
    assert Encode("") == [];
  }

  /** Decoding inverts encoding. */
  lemma {:induction false} DecodeEncode(s: string)
    ensures Decode(Encode(s)) == Some(s)
  {
    if s != "" {
      DecodeFirstOfEncoded(s[0], Encode(s[1..]));
      DecodeEncode(s[1..]);
      assert Encode(s)[|EncodeChar(s[0])|..] == Encode(s[1..]);
      assert s == [s[0]] + s[1..];
    }
  }

  lemma {:induction false} EncodeConcat(s: string, t: string)
    ensures Encode(s + t) == Encode(s) + Encode(t)
  {
    if s == "" {
      assert s + t == t;
    } else {
      assert (s + t)[0] == s[0] && (s + t)[1..] == s[1..] + t;
      EncodeConcat(s[1..], t);
    }
  }

  predicate Ascii(s: string) {
    forall i | 0 <= i < |s| :: s[i] as int < 0x80
  }

  /** ASCII text encodes to its own code points. */
  lemma {:induction false} EncodeAscii(s: string)
    requires Ascii(s)
    ensures |Encode(s)| == |s| && forall i | 0 <= i < |s| :: Encode(s)[i] == s[i] as int
  {
    if s != "" {
      EncodeAscii(s[1..]);
    }
  }

  /** A character cut short leaves nothing behind. */
  lemma CutCharVanishes(c: char, k: nat)
    requires k < |EncodeChar(c)|
    ensures DecodeIgnore(EncodeChar(c)[..k]) == ""
  {
    var bs := EncodeChar(c)[..k];
    assert forall i | 1 <= i < k :: Continuation(bs[i]);
    if k > 0 {
      assert SequenceLength(bs[0]) == |EncodeChar(c)|;
      ContinuationsVanish(bs[1..]);
    }
  }

  lemma {:induction false} ContinuationsVanish(bs: seq<Byte>)
    requires forall b | b in bs :: Continuation(b)
    ensures DecodeIgnore(bs) == ""
  {
    if bs != [] {
      assert bs[0] in bs;
      ContinuationsVanish(bs[1..]);
    }
  }
}
