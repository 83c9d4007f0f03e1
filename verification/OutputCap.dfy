// The byte cap on stored task output.
module OutputCap {
  import opened Utf8

  const TASK_OUTPUT_MAX_BYTES: nat := 64 * 1024
  const TASK_OUTPUT_TRUNCATED_MARKER: string := "\n[hmn: output truncated to 65536 bytes]"

  /** Text over the limit is cut to the bytes of the room, and the marker goes behind. */
  function Cut(value: string, limit: nat, room: nat, marker: string): string
    requires room <= limit
  {
    var encoded := Encode(value);
    if |encoded| <= limit then value else DecodeIgnore(encoded[..room]) + marker
  }

  /** The cut for any limit and any marker; a limit smaller than its marker leaves no room. */
  function Cap(value: string, limit: nat, marker: string): string {
    Cut(value, limit, Room(limit, marker), marker)
  }

  function Room(limit: nat, marker: string): (room: nat)
    ensures room <= limit
  {
    if |Encode(marker)| <= limit then limit - |Encode(marker)| else 0
  }

  // What the marker leaves of the limit, worked out once; `MarkerSize` shows it is right.
  const TASK_OUTPUT_ROOM: nat := 64 * 1024 - 39

  function CapTaskOutput(value: string): string {
    Cut(value, TASK_OUTPUT_MAX_BYTES, TASK_OUTPUT_ROOM, TASK_OUTPUT_TRUNCATED_MARKER)
  }

  /** Output the cap leaves alone, which is all the store ever holds. */
  predicate FitsCap(stored: string) {
    |Encode(stored)| <= 65536
  }

  /** The most characters of `s` whose encoding fits in `room` bytes. */
  function Fit(s: string, room: nat): (k: nat)
    ensures k <= |s|
  {
    if s == "" || room < |EncodeChar(s[0])| then 0 else 1 + Fit(s[1..], room - |EncodeChar(s[0])|)
  }

  /** `Fit` is the longest prefix that fits, and a prefix fits exactly up to it. */
  lemma {:induction false} FitIsLongest(s: string, room: nat, j: nat)
    requires j <= |s|
    ensures |Encode(s[..j])| <= room <==> j <= Fit(s, room)
  {
    if j > 0 {
      assert s[..j][0] == s[0] && s[..j][1..] == s[1..][..j - 1];
      if |EncodeChar(s[0])| <= room {
        FitIsLongest(s[1..], room - |EncodeChar(s[0])|, j - 1);
      }
    }
  }

  /** Cutting the bytes and ignoring what is malformed keeps the longest fitting prefix. */
  lemma {:induction false} CutDecodesToPrefix(s: string, room: nat)
    requires room <= |Encode(s)|
    ensures DecodeIgnore(Encode(s)[..room]) == s[..Fit(s, room)]
  {
    if s != "" {
      var first, rest := EncodeChar(s[0]), Encode(s[1..]);
      if room < |first| {
        assert Encode(s)[..room] == first[..room];
        CutCharVanishes(s[0], room);
      } else {
        var cut := rest[..room - |first|];
        assert Encode(s)[..room] == first + cut;
        DecodeFirstOfEncoded(s[0], cut);
        assert (first + cut)[|first|..] == cut;
        CutDecodesToPrefix(s[1..], room - |first|);
        assert s[..Fit(s, room)] == [s[0]] + s[1..][..Fit(s[1..], room - |first|)];
      }
    }
  }

  /** At most three bytes of the room stay unused. */
  lemma CutWastesLittle(s: string, room: nat)
    requires room <= |Encode(s)|
    ensures room - 3 <= |Encode(s[..Fit(s, room)])| <= room
  {
    var k := Fit(s, room);
    FitIsLongest(s, room, k);
    if k < |s| {
      FitIsLongest(s, room, k + 1);
      assert s[..k + 1] == s[..k] + [s[k]];
      EncodeConcat(s[..k], [s[k]]);
      assert Encode([s[k]]) == EncodeChar(s[k]);
    } else {
      assert s[..k] == s;
    }
  }

  /** What a cut stores: the output itself when it fits, else its longest fitting
      prefix of whole characters with the marker behind it. */
  ghost predicate BestCut(s: string, capped: string, limit: nat, marker: string) {
    if |Encode(s)| <= limit then capped == s
    else
      exists k :: CutAt(s, capped, limit, marker, k)
  }

  /** The first `k` characters and the marker: no longer prefix fits, and every shorter does. */
  ghost predicate CutAt(s: string, capped: string, limit: nat, marker: string, k: nat) {
    && k <= |s|
    && capped == s[..k] + marker
    && (forall j | 0 <= j <= |s| :: |Encode(s[..j])| + |Encode(marker)| <= limit <==> j <= k)
    && limit - 3 <= |Encode(capped)| <= limit
  }

  /** The long text, cut: `Fit` says how many characters stay. */
  lemma LongCut(s: string, limit: nat, marker: string, k: nat)
    requires |Encode(marker)| <= limit < |Encode(s)| && k == Fit(s, Room(limit, marker))
    ensures Cap(s, limit, marker) == s[..k] + marker
    ensures limit - 3 <= |Encode(s[..k] + marker)| <= limit
  {
    CutDecodesToPrefix(s, Room(limit, marker));
    CutWastesLittle(s, Room(limit, marker));
    EncodeConcat(s[..k], marker);
  }

  lemma FitsBeside(s: string, limit: nat, marker: string, j: nat)
    requires |Encode(marker)| <= limit && j <= |s|
    ensures |Encode(s[..j])| + |Encode(marker)| <= limit <==> j <= Fit(s, Room(limit, marker))
  {
    FitIsLongest(s, Room(limit, marker), j);
  }

  lemma CapIsBestCut(s: string, limit: nat, marker: string)
    requires |Encode(marker)| <= limit
    ensures BestCut(s, Cap(s, limit, marker), limit, marker)
  {
    if |Encode(s)| > limit {
      var k := Fit(s, Room(limit, marker));
      LongCut(s, limit, marker, k);
      forall j | 0 <= j <= |s| ensures |Encode(s[..j])| + |Encode(marker)| <= limit <==> j <= k {
        FitsBeside(s, limit, marker, j);
      }
      assert CutAt(s, Cap(s, limit, marker), limit, marker, k);
    }
  }

  lemma MarkerSize()
    ensures |Encode(TASK_OUTPUT_TRUNCATED_MARKER)| == |TASK_OUTPUT_TRUNCATED_MARKER| == 39
  {
    EncodeAscii(TASK_OUTPUT_TRUNCATED_MARKER);
  }

  lemma CutIsCap(value: string, limit: nat, room: nat, marker: string)
    requires |Encode(marker)| <= limit && room == limit - |Encode(marker)|
    ensures Cut(value, limit, room, marker) == Cap(value, limit, marker)
  {
  }

  /** The cap on task output is the cap for its limit and its marker. */
  lemma TaskOutputIsCapped(s: string)
    ensures CapTaskOutput(s) == Cap(s, TASK_OUTPUT_MAX_BYTES, TASK_OUTPUT_TRUNCATED_MARKER)
  {
    MarkerSize();
    CutIsCap(s, TASK_OUTPUT_MAX_BYTES, TASK_OUTPUT_ROOM, TASK_OUTPUT_TRUNCATED_MARKER);
  }

  /** `stored` is the best cut of `output` under the task table's limit and marker. */
  ghost predicate StoredAs(output: string, stored: string) {
    BestCut(output, stored, 65536, "\n[hmn: output truncated to 65536 bytes]")
  }

  /** The cap on task output is the best cut at 65536 bytes, and stays within them. */
  lemma TaskOutputIsBestCut(s: string)
    ensures StoredAs(s, CapTaskOutput(s))
    ensures FitsCap(CapTaskOutput(s)) && (FitsCap(s) <==> CapTaskOutput(s) == s)
  {
    MarkerSize();
    TaskOutputIsCapped(s);
    CapIsBestCut(s, TASK_OUTPUT_MAX_BYTES, TASK_OUTPUT_TRUNCATED_MARKER);
  }

  /** Capping stored output again changes nothing. */
  lemma CapIdempotent(s: string)
    ensures CapTaskOutput(CapTaskOutput(s)) == CapTaskOutput(s)
  {
    TaskOutputIsBestCut(s);
  }
}
