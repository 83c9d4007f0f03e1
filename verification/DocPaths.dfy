// File names for generated documents: the rewrite that turns a service or host name
// into one path segment, and the path it lands on.
module DocPaths {
  import opened Text

  predicate IsAlnum(c: char) {
    'a' <= c <= 'z' || 'A' <= c <= 'Z' || '0' <= c <= '9'
  }

  predicate IsEdge(c: char) {
    c == '-' || c == '.' || c == '_'
  }

  predicate IsSafe(c: char) {
    IsAlnum(c) || IsEdge(c)
  }

  // ----- The passes, as the code applies them -----

  /** value.replace("/", "-").replace("\\", "-") */
  function ReplaceSlashes(s: string): string {
    if s == "" then ""
    else [if s[0] == '/' || s[0] == '\\' then '-' else s[0]] + ReplaceSlashes(s[1..])
  }

  /** re.sub(r"[^a-zA-Z0-9._-]+", "-", s); `inRun`: the run before `s` is already a dash. */
  function ReplaceForeign(s: string, inRun: bool): string {
    if s == "" then ""
    else if IsSafe(s[0]) then [s[0]] + ReplaceForeign(s[1..], false)
    else (if inRun then "" else ['-']) + ReplaceForeign(s[1..], true)
  }

  /** s.replace("..", "-") */
  function ReplaceDotDot(s: string): string {
    if s == "" then ""
    else if |s| >= 2 && s[0] == '.' && s[1] == '.' then ['-'] + ReplaceDotDot(s[2..])
    else [s[0]] + ReplaceDotDot(s[1..])
  }

  /** re.sub(r"-+", "-", s) */
  function CollapseDashes(s: string): string {
    if s == "" then ""
    else if |s| >= 2 && s[0] == '-' && s[1] == '-' then CollapseDashes(s[1..])
    else [s[0]] + CollapseDashes(s[1..])
  }

  function Cleaned(value: string): string {
    StripRight(StripLeft(CollapseDashes(ReplaceDotDot(ReplaceForeign(ReplaceSlashes(value), false))), IsEdge), IsEdge)
  }

  function SafeSegment(value: string, default: string): string {
    if Cleaned(value) == "" then default else Cleaned(value)
  }

  function SafeServiceSlug(value: string): string {
    SafeSegment(value, "service")
  }

  function SafeHostSegment(value: string): string {
    SafeSegment(value, "host")
  }

  // ----- What a clean segment is -----

  predicate AllSafe(s: string) {
    s == "" || (IsSafe(s[0]) && AllSafe(s[1..]))
  }

  /** `c` never stands twice in a row. */
  predicate NoPair(s: string, c: char) {
    |s| < 2 || (!(s[0] == c && s[1] == c) && NoPair(s[1..], c))
  }

  predicate CleanText(s: string) {
    AllSafe(s) && NoPair(s, '.') && NoPair(s, '-')
  }

  predicate CleanSegment(s: string) {
    s != "" && CleanText(s) && !IsEdge(s[0]) && !IsEdge(s[|s| - 1])
  }

  /** The letters and digits of a name, in order. */
  function Letters(s: string): string {
    if s == "" then "" else (if IsAlnum(s[0]) then [s[0]] else "") + Letters(s[1..])
  }

  lemma {:induction false} LettersConcat(s: string, t: string)
    ensures Letters(s + t) == Letters(s) + Letters(t)
  {
    if s == "" {
      assert s + t == t;
    } else {
      LettersConcat(s[1..], t);
      var head := if IsAlnum(s[0]) then [s[0]] else "";
      assert (s + t)[0] == s[0] && (s + t)[1..] == s[1..] + t;
      assert Letters(s + t) == head + Letters(s[1..] + t);
      assert head + (Letters(s[1..]) + Letters(t)) == (head + Letters(s[1..])) + Letters(t);
    }
  }

  // ----- Pass by pass -----

  lemma Cons(c: char, t: string)
    ensures Letters([c] + t) == (if IsAlnum(c) then [c] else "") + Letters(t)
    ensures AllSafe([c] + t) <==> IsSafe(c) && AllSafe(t)
    ensures forall d :: NoPair([c] + t, d) <==> NoPair(t, d) && !(t != "" && c == d && t[0] == d)
  {
    assert ([c] + t)[1..] == t;
  }

  lemma {:induction false} Slashes(s: string)
    ensures Letters(ReplaceSlashes(s)) == Letters(s)
    ensures AllSafe(s) ==> ReplaceSlashes(s) == s
  {
    if s != "" {
      var c, rest := if s[0] == '/' || s[0] == '\\' then '-' else s[0], ReplaceSlashes(s[1..]);
      Slashes(s[1..]);
      Cons(c, rest);
      assert ReplaceSlashes(s) == [c] + rest && s == [s[0]] + s[1..];
    }
  }

  lemma {:induction false} Foreign(s: string, inRun: bool)
    ensures Letters(ReplaceForeign(s, inRun)) == Letters(s)
    ensures AllSafe(ReplaceForeign(s, inRun))
    ensures AllSafe(s) ==> ReplaceForeign(s, inRun) == s
  {
    if s != "" {
      var rest := ReplaceForeign(s[1..], !IsSafe(s[0]));
      Foreign(s[1..], !IsSafe(s[0]));
      Cons(s[0], rest);
      Cons('-', rest);
      assert s == [s[0]] + s[1..] && "" + rest == rest;
    }
  }

  lemma {:induction false} DotDotClean(s: string)
    requires AllSafe(s)
    ensures Letters(ReplaceDotDot(s)) == Letters(s)
    ensures AllSafe(ReplaceDotDot(s)) && NoPair(ReplaceDotDot(s), '.')
    ensures ReplaceDotDot(s) != "" && ReplaceDotDot(s)[0] == '.' ==> s[0] == '.' && (|s| == 1 || s[1] != '.')
  {
    if |s| >= 2 && s[0] == '.' && s[1] == '.' {
      assert s[1..][1..] == s[2..];
      DotDotClean(s[2..]);
      Cons('-', ReplaceDotDot(s[2..]));
    } else if s != "" {
      DotDotClean(s[1..]);
      Cons(s[0], ReplaceDotDot(s[1..]));
    }
  }

  lemma {:induction false} DotDotFixes(s: string)
    requires NoPair(s, '.')
    ensures ReplaceDotDot(s) == s
  {
    if s != "" {
      DotDotFixes(s[1..]);
      assert s == [s[0]] + s[1..];
    }
  }

  lemma {:induction false} Dashes(s: string)
    requires AllSafe(s)
    ensures Letters(CollapseDashes(s)) == Letters(s)
    ensures AllSafe(CollapseDashes(s)) && NoPair(CollapseDashes(s), '-')
    ensures s != "" ==> CollapseDashes(s) != "" && CollapseDashes(s)[0] == s[0]
    ensures NoPair(s, '.') ==> NoPair(CollapseDashes(s), '.')
  {
    if s != "" {
      Dashes(s[1..]);
      Cons(s[0], CollapseDashes(s[1..]));
    }
  }

  lemma {:induction false} DashesFix(s: string)
    requires NoPair(s, '-')
    ensures CollapseDashes(s) == s
  {
    if s != "" {
      DashesFix(s[1..]);
      assert s == [s[0]] + s[1..];
    }
  }

  lemma {:induction false} Left(s: string)
    requires CleanText(s)
    ensures CleanText(StripLeft(s, IsEdge)) && Letters(StripLeft(s, IsEdge)) == Letters(s)
    ensures StripLeft(s, IsEdge) != "" ==> !IsEdge(StripLeft(s, IsEdge)[0])
  {
    if s != "" && IsEdge(s[0]) {
      Left(s[1..]);
    }
  }

  lemma {:induction false} Prefix(s: string, k: nat)
    requires CleanText(s) && k <= |s|
    ensures CleanText(s[..k])
  {
    if k > 0 {
      Prefix(s[1..], k - 1);
      assert s[..k][1..] == s[1..][..k - 1];
    }
  }

  lemma {:induction false} Right(s: string)
    requires CleanText(s) && (s != "" ==> !IsEdge(s[0]))
    ensures Letters(StripRight(s, IsEdge)) == Letters(s)
    ensures StripRight(s, IsEdge) != "" ==> CleanSegment(StripRight(s, IsEdge))
  {
    if s != "" && IsEdge(s[|s| - 1]) {
      var last := |s| - 1;
      Prefix(s, last);
      Right(s[..last]);
      LettersConcat(s[..last], [s[last]]);
      assert s == s[..last] + [s[last]];
    }
  }

  // ----- The rewrite as a whole -----

  lemma CleanedIsClean(value: string)
    ensures Cleaned(value) != "" ==> CleanSegment(Cleaned(value))
    ensures Letters(Cleaned(value)) == Letters(value)
  {
    Slashes(value);
    var s1 := ReplaceSlashes(value);
    Foreign(s1, false);
    var s2 := ReplaceForeign(s1, false);
    DotDotClean(s2);
    var s3 := ReplaceDotDot(s2);
    Dashes(s3);
    var s4 := CollapseDashes(s3);
    Left(s4);
    Right(StripLeft(s4, IsEdge));
  }

  lemma CleanIsFixed(s: string)
    requires CleanSegment(s)
    ensures Cleaned(s) == s
  {
    Slashes(s);
    Foreign(s, false);
    DotDotFixes(s);
    DashesFix(s);
  }

  /** For every name the rewrite gives one ordinary segment: never empty, only letters,
      digits, `.`, `_` and `-`, without `..` or `--`, and with a letter or digit at both
      ends. */
  lemma SegmentIsClean(value: string, default: string)
    requires CleanSegment(default)
    ensures CleanSegment(SafeSegment(value, default))
  {
    CleanedIsClean(value);
  }

  /** The segments that the rewrite leaves alone are exactly the clean ones. */
  lemma FixedExactlyIfClean(value: string, default: string)
    requires CleanSegment(default)
    ensures SafeSegment(value, default) == value <==> CleanSegment(value)
  {
    SegmentIsClean(value, default);
    if CleanSegment(value) { CleanIsFixed(value); }
  }

  lemma SegmentIdempotent(value: string, default: string)
    requires CleanSegment(default)
    ensures SafeSegment(SafeSegment(value, default), default) == SafeSegment(value, default)
  {
    SegmentIsClean(value, default);
    FixedExactlyIfClean(SafeSegment(value, default), default);
  }

  /** No letter or digit is lost or moved, so only a name without any falls back. */
  lemma LettersKept(value: string, default: string)
    requires CleanSegment(default)
    ensures Letters(value) != "" ==> Letters(SafeSegment(value, default)) == Letters(value)
    ensures Letters(value) == "" ==> SafeSegment(value, default) == default
  {
    CleanedIsClean(value);
    if Cleaned(value) != "" {
      assert IsAlnum(Cleaned(value)[0]);
    }
  }

  // ----- Names made of pieces -----

  /** A character that parts the pieces of a name: anything that may not stay, or a dash. */
  predicate Parts(c: char) {
    c == '-' || !IsSafe(c)
  }

  predicate IsGap(s: string) {
    forall i | 0 <= i < |s| :: Parts(s[i])
  }

  predicate IsDashes(s: string) {
    forall i | 0 <= i < |s| :: s[i] == '-'
  }

  /** The end of the text, or a letter or digit. */
  predicate StartsPiece(s: string) {
    s == "" || IsAlnum(s[0])
  }

  /** What the passes leave before the ends are trimmed. */
  function Untrimmed(s: string): string {
    CollapseDashes(ReplaceDotDot(ReplaceForeign(ReplaceSlashes(s), false)))
  }

  lemma {:induction false} SlashedGap(s: string)
    requires IsGap(s)
    ensures IsGap(ReplaceSlashes(s)) && |ReplaceSlashes(s)| == |s|
  {
    if s != "" { SlashedGap(s[1..]); }
  }

  lemma SlashedStart(s: string)
    ensures StartsPiece(s) ==> StartsPiece(ReplaceSlashes(s))
  {
  }

  lemma {:induction false} ForeignAfterSafe(a: string, t: string)
    requires AllSafe(a)
    ensures ReplaceForeign(a + t, false) == a + ReplaceForeign(t, false)
  {
    if a == "" {
      assert a + t == t;
    } else {
      assert (a + t)[1..] == a[1..] + t;
      ForeignAfterSafe(a[1..], t);
      assert a == [a[0]] + a[1..];
    }
  }

  /** A gap becomes dashes, at least one. */
  lemma {:induction false} ForeignGap(gap: string, t: string, inRun: bool) returns (dashes: string)
    requires IsGap(gap) && StartsPiece(t)
    ensures IsDashes(dashes) && (gap != "" && !inRun ==> dashes != "")
    ensures ReplaceForeign(gap + t, inRun) == dashes + ReplaceForeign(t, false)
  {
    if gap == "" {
      dashes := "";
      assert gap + t == t;
    } else {
      var all := gap + t;
      assert all[0] == gap[0] && all[1..] == gap[1..] + t;
      var rest := ForeignGap(gap[1..], t, !IsSafe(gap[0]));
      var head := if IsSafe(gap[0]) || !inRun then "-" else "";
      dashes := head + rest;
      assert ReplaceForeign(all, inRun) == head + ReplaceForeign(all[1..], !IsSafe(gap[0]));
      assert head + (rest + ReplaceForeign(t, false)) == dashes + ReplaceForeign(t, false);
    }
  }

  lemma {:induction false} DotDotAfter(a: string, t: string)
    requires NoPair(a, '.') && (t == "" || t[0] != '.')
    ensures ReplaceDotDot(a + t) == a + ReplaceDotDot(t)
  {
    if a == "" {
      assert a + t == t;
    } else {
      assert (a + t)[1..] == a[1..] + t;
      DotDotAfter(a[1..], t);
      assert a == [a[0]] + a[1..];
    }
  }

  lemma {:induction false} DashesAfter(a: string, t: string)
    requires NoPair(a, '-') && (t == "" || a == "" || a[|a| - 1] != '-')
    ensures CollapseDashes(a + t) == a + CollapseDashes(t)
  {
    if a == "" {
      assert a + t == t;
    } else {
      assert (a + t)[1..] == a[1..] + t;
      DashesAfter(a[1..], t);
      assert a == [a[0]] + a[1..];
    }
  }

  lemma {:induction false} DashRun(dashes: string, t: string)
    requires IsDashes(dashes) && dashes != "" && (t == "" || t[0] != '-')
    ensures CollapseDashes(dashes + t) == "-" + CollapseDashes(t)
  {
    assert (dashes + t)[1..] == dashes[1..] + t;
    if |dashes| > 1 {
      DashRun(dashes[1..], t);
    } else {
      assert dashes[1..] + t == t;
    }
  }

  lemma {:induction false} DashesHaveNoDots(dashes: string)
    requires IsDashes(dashes)
    ensures NoPair(dashes, '.')
  {
    if dashes != "" { DashesHaveNoDots(dashes[1..]); }
  }

  lemma ForeignStart(t: string)
    requires StartsPiece(t)
    ensures StartsPiece(ReplaceForeign(t, false)) && StartsPiece(ReplaceDotDot(ReplaceForeign(t, false)))
  {
  }

  /** A gap in front of a piece leaves one dash. */
  lemma GapThen(gap: string, rest: string)
    requires IsGap(gap) && gap != "" && StartsPiece(rest)
    ensures Untrimmed(gap + rest) == "-" + Untrimmed(rest)
  {
    SlashesConcat(gap, rest);
    SlashedGap(gap);
    SlashedStart(rest);
    var t := ReplaceSlashes(rest);
    var dashes := ForeignGap(ReplaceSlashes(gap), t, false);
    var u := ReplaceForeign(t, false);
    ForeignStart(t);
    DashesHaveNoDots(dashes);
    DotDotAfter(dashes, u);
    DashRun(dashes, ReplaceDotDot(u));
  }

  /** A piece stays in front of whatever else follows it. */
  lemma PieceThen(piece: string, rest: string)
    requires CleanSegment(piece) && (rest == "" || Parts(rest[0]))
    ensures Untrimmed(piece + rest) == piece + Untrimmed(rest)
  {
    SlashesConcat(piece, rest);
    Slashes(piece);
    var t := ReplaceSlashes(rest);
    ForeignAfterSafe(piece, t);
    var u := ReplaceForeign(t, false);
    assert u == "" || u[0] == '-';
    DotDotAfter(piece, u);
    DashesAfter(piece, ReplaceDotDot(u));
  }

  /** `pieces` with a gap behind each: the i-th gap behind the i-th piece. */
  function Spread(pieces: seq<string>, gaps: seq<string>): string
    requires |gaps| == |pieces|
  {
    if pieces == [] then "" else pieces[0] + (gaps[0] + Spread(pieces[1..], gaps[1..]))
  }

  /** The pieces with one dash between them. */
  function Dashed(pieces: seq<string>): string {
    if pieces == [] then ""
    else if |pieces| == 1 then pieces[0]
    else pieces[0] + ("-" + Dashed(pieces[1..]))
  }

  predicate Pieces(pieces: seq<string>, gaps: seq<string>) {
    && |gaps| == |pieces|
    && (forall i | 0 <= i < |pieces| :: CleanSegment(pieces[i]) && IsGap(gaps[i]))
    && (forall i | 0 <= i < |pieces| - 1 :: gaps[i] != "")
  }

  lemma {:induction false} SpreadUntrimmed(pieces: seq<string>, gaps: seq<string>)
    requires Pieces(pieces, gaps) && pieces != []
    ensures StartsPiece(Spread(pieces, gaps))
    ensures Untrimmed(Spread(pieces, gaps)) == Dashed(pieces) + if gaps[|gaps| - 1] == "" then "" else "-"
  {
    var rest := Spread(pieces[1..], gaps[1..]);
    if |pieces| == 1 {
      OnePiece(pieces[0], gaps[0]);
      assert gaps[0] + rest == gaps[0];
    } else {
      var tail := if gaps[|gaps| - 1] == "" then "" else "-";
      SpreadUntrimmed(pieces[1..], gaps[1..]);
      PieceAndGap(pieces[0], gaps[0], rest, Dashed(pieces[1..]), tail);
    }
  }

  lemma OnePiece(piece: string, gap: string)
    requires CleanSegment(piece) && IsGap(gap)
    ensures StartsPiece(piece + gap) && Untrimmed(piece + gap) == piece + if gap == "" then "" else "-"
  {
    PieceThen(piece, gap);
    if gap != "" {
      GapThen(gap, "");
      assert gap + "" == gap;
    }
  }

  lemma PieceAndGap(piece: string, gap: string, rest: string, dashed: string, tail: string)
    requires CleanSegment(piece) && IsGap(gap) && gap != "" && StartsPiece(rest) && Untrimmed(rest) == dashed + tail
    ensures StartsPiece(piece + (gap + rest)) && Untrimmed(piece + (gap + rest)) == piece + ("-" + dashed) + tail
  {
    PieceThen(piece, gap + rest);
    GapThen(gap, rest);
    assert piece + ("-" + (dashed + tail)) == piece + ("-" + dashed) + tail;
  }

  lemma {:induction false} DashedEnds(pieces: seq<string>)
    requires pieces != [] && forall i | 0 <= i < |pieces| :: CleanSegment(pieces[i])
    ensures var s := Dashed(pieces); s != "" && !IsEdge(s[0]) && !IsEdge(s[|s| - 1])
  {
    if |pieces| > 1 { DashedEnds(pieces[1..]); }
  }

  lemma TrimEnds(before: string, core: string, after: string)
    requires before in {"", "-"} && after in {"", "-"}
    requires core != "" && !IsEdge(core[0]) && !IsEdge(core[|core| - 1])
    ensures StripRight(StripLeft(before + core + after, IsEdge), IsEdge) == core
  {
    var s := before + core + after;
    if before == "-" {
      assert s[1..] == core + after;
    } else {
      assert s == core + after;
    }
    assert StripLeft(s, IsEdge) == core + after;
    if after == "-" {
      assert (core + after)[..|core|] == core;
    } else {
      assert core + after == core;
    }
  }

  /** A name of clean pieces, parted by any runs of slashes, dashes and characters that may
      not stay, becomes those pieces with one dash between them; what parts nothing, at the
      ends, goes. */
  lemma PiecesAreDashed(before: string, pieces: seq<string>, gaps: seq<string>, default: string)
    requires Pieces(pieces, gaps) && pieces != [] && IsGap(before)
    ensures SafeSegment(before + Spread(pieces, gaps), default) == Dashed(pieces)
  {
    var text := Spread(pieces, gaps);
    SpreadUntrimmed(pieces, gaps);
    DashedEnds(pieces);
    var head, tail := if before == "" then "" else "-", if gaps[|gaps| - 1] == "" then "" else "-";
    if before == "" {
      assert before + text == text;
    } else {
      GapThen(before, text);
    }
    assert Untrimmed(before + text) == head + Dashed(pieces) + tail;
    TrimEnds(head, Dashed(pieces), tail);
  }

  /** Two dots part pieces as well. */
  lemma DotsPart(a: string, b: string, default: string)
    requires CleanSegment(a) && CleanSegment(b)
    ensures SafeSegment(a + (".." + b), default) == a + ("-" + b)
  {
    SafeWithDots(a, b);
    DotsUntrimmed(a, b, a + (".." + b));
    var core := a + ("-" + b);
    assert core[0] == a[0] && core[|core| - 1] == b[|b| - 1];
    TrimEnds("", core, "");
    assert "" + core + "" == core;
  }

  lemma SafeWithDots(a: string, b: string)
    requires AllSafe(a) && AllSafe(b)
    ensures AllSafe(a + (".." + b))
  {
    SafeConcat(a, ".." + b);
    assert (".." + b)[1..] == "." + b && ("." + b)[1..] == b;
  }

  lemma DotsUntrimmed(a: string, b: string, s: string)
    requires CleanSegment(a) && CleanSegment(b) && s == a + (".." + b) && AllSafe(s)
    ensures Untrimmed(s) == a + ("-" + b)
  {
    Slashes(s);
    Foreign(s, false);
    DotsReplaced(a, b);
    DotDotFixes(b);
    DashedRight(a, b);
  }

  lemma DashedRight(a: string, b: string)
    requires CleanSegment(a) && CleanSegment(b)
    ensures CollapseDashes(a + ("-" + b)) == a + ("-" + b)
  {
    DashesFix(b);
    DashRun("-", b);
    DashesAfter(a, "-" + b);
  }

  lemma {:induction false} SafeConcat(s: string, t: string)
    ensures AllSafe(s + t) <==> AllSafe(s) && AllSafe(t)
  {
    if s == "" {
      assert s + t == t;
    } else {
      assert (s + t)[1..] == s[1..] + t;
      SafeConcat(s[1..], t);
    }
  }

  lemma {:induction false} DotsReplaced(a: string, b: string)
    requires NoPair(a, '.') && (a == "" || a[|a| - 1] != '.')
    ensures ReplaceDotDot(a + (".." + b)) == a + ("-" + ReplaceDotDot(b))
  {
    var s := a + (".." + b);
    if a == "" {
      assert s == ".." + b && s[2..] == b;
    } else {
      assert s[1..] == a[1..] + (".." + b);
      DotsReplaced(a[1..], b);
      assert a == [a[0]] + a[1..];
    }
  }

  /** A name without a letter or digit is called `service` or `host`. */
  lemma NamelessFallsBack(value: string)
    requires Letters(value) == ""
    ensures SafeServiceSlug(value) == "service" && SafeHostSegment(value) == "host"
  {
    LettersKept(value, "service");
    LettersKept(value, "host");
  }

  // ----- Which names share a segment -----

  predicate IsSeparator(c: char) {
    c == '/' || c == '\\' || c == '-'
  }

  lemma {:induction false} SlashesConcat(s: string, t: string)
    ensures ReplaceSlashes(s + t) == ReplaceSlashes(s) + ReplaceSlashes(t)
  {
    if s == "" {
      assert s + t == t;
    } else {
      SlashesConcat(s[1..], t);
      assert (s + t)[1..] == s[1..] + t;
    }
  }

  /** Names that differ in a slash, a backslash or a dash at one place land on one document. */
  lemma SeparatorsCollide(before: string, after: string, c: char, d: char, default: string)
    requires IsSeparator(c) && IsSeparator(d)
    ensures SafeSegment(before + [c] + after, default) == SafeSegment(before + [d] + after, default)
  {
    forall e | IsSeparator(e)
      ensures ReplaceSlashes(before + [e] + after) == ReplaceSlashes(before) + ['-'] + ReplaceSlashes(after)
    {
      SlashesConcat(before + [e], after);
      SlashesConcat(before, [e]);
      assert ReplaceSlashes([e]) == ['-'];
    }
  }

  /** Names with different letters and digits never share one; neither do different names
      that are clean already. */
  lemma DistinctSegments(a: string, b: string, default: string)
    requires CleanSegment(default)
    requires (Letters(a) != "" && Letters(b) != "" && Letters(a) != Letters(b)) || (CleanSegment(a) && CleanSegment(b) && a != b)
    ensures SafeSegment(a, default) != SafeSegment(b, default)
  {
    LettersKept(a, default);
    LettersKept(b, default);
    FixedExactlyIfClean(a, default);
    FixedExactlyIfClean(b, default);
  }

  // ----- The path -----

  datatype Path = Path(absolute: bool, parts: seq<string>)

  /** The segments of a joined text: empty ones and "." vanish. `open` is the segment
      read so far. */
  function Segments(s: string, open: string): seq<string> {
    if s == "" then Kept(open)
    else if s[0] == '/' then Kept(open) + Segments(s[1..], "")
    else Segments(s[1..], open + [s[0]])
  }

  function Kept(segment: string): seq<string> {
    if segment == "" || segment == "." then [] else [segment]
  }

  /** `p / s` of pathlib: an absolute right side replaces the left one. */
  function Slash(p: Path, s: string): Path {
    if s != "" && s[0] == '/' then Path(true, Segments(s, "")) else p.(parts := p.parts + Segments(s, ""))
  }

  function DocPath(root: Path, segment: string): Path {
    Slash(Slash(root, segment), "README.md")
  }

  function ServerDocPath(root: Path, host: string): Path {
    DocPath(root, SafeHostSegment(host))
  }

  function ServiceDocPath(root: Path, name: string): Path {
    DocPath(root, SafeServiceSlug(name))
  }

  lemma {:induction false} OneSegment(s: string, open: string)
    requires '/' !in s
    ensures Segments(s, open) == Kept(open + s)
  {
    if s == "" {
      assert open + s == open;
    } else {
      assert s[0] in s;
      OneSegment(s[1..], open + [s[0]]);
      assert open + [s[0]] + s[1..] == open + s;
    }
  }

  lemma {:induction false} NoSlash(s: string)
    requires AllSafe(s)
    ensures '/' !in s
  {
    if s != "" {
      NoSlash(s[1..]);
      assert s == [s[0]] + s[1..];
    }
  }

  /** A document lands exactly one segment below its root, whatever the name. */
  lemma DocPathStaysInRoot(root: Path, segment: string)
    requires CleanSegment(segment)
    ensures DocPath(root, segment) == Path(root.absolute, root.parts + [segment, "README.md"])
  {
    NoSlash(segment);
    OneSegment(segment, "");
    OneSegment("README.md", "");
    assert "" + segment == segment && "" + "README.md" == "README.md";
    assert IsEdge('.');
    assert root.parts + [segment] + ["README.md"] == root.parts + [segment, "README.md"];
  }

  lemma DocPathsAreOneBelow(root: Path, name: string)
    ensures ServiceDocPath(root, name) == Path(root.absolute, root.parts + [SafeServiceSlug(name), "README.md"])
    ensures ServerDocPath(root, name) == Path(root.absolute, root.parts + [SafeHostSegment(name), "README.md"])
    ensures CleanSegment(SafeServiceSlug(name)) && CleanSegment(SafeHostSegment(name))
  {
    SegmentIsClean(name, "service");
    SegmentIsClean(name, "host");
    DocPathStaysInRoot(root, SafeServiceSlug(name));
    DocPathStaysInRoot(root, SafeHostSegment(name));
  }
}
