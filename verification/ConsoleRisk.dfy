// The console's risk rule. It reads the command with its whitespace normalised, so only
// the words matter.
module ConsoleRisk {

  /** Python's str.isspace for one character. */
  predicate IsSpace(c: char) {
    var n := c as int;
    || 0x09 <= n <= 0x0D || 0x1C <= n <= 0x20 || n == 0x85 || n == 0xA0 || n == 0x1680
    || 0x2000 <= n <= 0x200A || n == 0x2028 || n == 0x2029 || n == 0x202F || n == 0x205F || n == 0x3000
  }

  function WordLength(s: string): (k: nat)
    ensures k <= |s| && (k < |s| ==> IsSpace(s[k])) && forall i | 0 <= i < k :: !IsSpace(s[i])
  {
    if s == "" || IsSpace(s[0]) then 0 else 1 + WordLength(s[1..])
  }

  /** `s.split()`. */
  function Words(s: string): seq<string>
    decreases |s|
  {
    if s == "" then []
    else if IsSpace(s[0]) then Words(s[1..])
    else [s[..WordLength(s)]] + Words(s[WordLength(s)..])
  }

  /** `" ".join(words)`. */
  function Join(words: seq<string>): string {
    if words == [] then ""
    else if |words| == 1 then words[0]
    else Then(words[0], Join(words[1..]))
  }

  /** A word, a space, and what follows. */
  function Then(word: string, rest: string): string {
    word + ([' '] + rest)
  }

  function RiskForCommand(command: string): string {
    var stripped := Join(Words(command));
    if stripped == "uptime" || stripped == "df -h" || stripped == "hmn health probe" || "systemctl status " <= stripped
    then "low"
    else "high"
  }

  predicate IsWord(w: string) {
    w != "" && forall i | 0 <= i < |w| :: !IsSpace(w[i])
  }

  lemma {:induction false} SplitYieldsWords(s: string)
    ensures forall i | 0 <= i < |Words(s)| :: IsWord(Words(s)[i])
    decreases |s|
  {
    if s != "" {
      if IsSpace(s[0]) {
        SplitYieldsWords(s[1..]);
      } else {
        SplitYieldsWords(s[WordLength(s)..]);
      }
    }
  }

  /** Splitting reads a word up to the space behind it. */
  lemma {:induction false} WordLengthOf(w: string, rest: string)
    requires forall i | 0 <= i < |w| :: !IsSpace(w[i])
    requires rest == "" || IsSpace(rest[0])
    ensures WordLength(w + rest) == |w|
  {
    if w == "" {
      assert w + rest == rest;
    } else {
      assert (w + rest)[0] == w[0] && (w + rest)[1..] == w[1..] + rest;
      WordLengthOf(w[1..], rest);
    }
  }

  lemma SplitAtSpace(w: string, rest: string)
    requires IsWord(w)
    ensures Words(Then(w, rest)) == [w] + Words(rest)
  {
    var s, tail := Then(w, rest), [' '] + rest;
    WordLengthOf(w, tail);
    assert s[..|w|] == w && s[|w|..] == tail && s[0] == w[0];
    assert tail[1..] == rest;
  }

  predicate IsGap(s: string) {
    forall i | 0 <= i < |s| :: IsSpace(s[i])
  }

  lemma {:induction false} SkipGap(gap: string, rest: string)
    requires IsGap(gap)
    ensures Words(gap + rest) == Words(rest)
  {
    if gap == "" {
      assert gap + rest == rest;
    } else {
      assert (gap + rest)[0] == gap[0] && (gap + rest)[1..] == gap[1..] + rest;
      SkipGap(gap[1..], rest);
    }
  }

  /** Any white space parts the words of a text, however much of it there is, in front of
      them, between them and behind them. */
  lemma GapsPartWords(before: string, w: string, gap: string, rest: string)
    requires IsGap(before) && IsWord(w) && IsGap(gap) && (gap == "" ==> rest == "")
    ensures Words(before + (w + (gap + rest))) == [w] + Words(rest)
    ensures Words(before) == []
  {
    SkipGap(before, w + (gap + rest));
    SkipGap(before, "");
    assert before + "" == before;
    var tail := gap + rest;
    WordLengthOf(w, tail);
    assert (w + tail)[..|w|] == w && (w + tail)[|w|..] == tail && (w + tail)[0] == w[0];
    SkipGap(gap, rest);
  }

  lemma SplitWord(w: string)
    requires IsWord(w)
    ensures Words(w) == [w]
  {
    WordLengthOf(w, "");
    assert w + "" == w && w[..|w|] == w;
  }

  /** Joining words and splitting again gives the words back. */
  lemma {:induction false} SplitJoin(words: seq<string>)
    requires forall i | 0 <= i < |words| :: IsWord(words[i])
    ensures Words(Join(words)) == words
  {
    if |words| == 1 {
      SplitWord(words[0]);
    } else if |words| > 1 {
      SplitJoin(words[1..]);
      SplitAtSpace(words[0], Join(words[1..]));
      assert words == [words[0]] + words[1..];
    }
  }

  /** Joining tells lists of words apart. */
  lemma JoinInjective(words: seq<string>, others: seq<string>)
    requires forall i | 0 <= i < |words| :: IsWord(words[i])
    requires forall i | 0 <= i < |others| :: IsWord(others[i])
    ensures Join(words) == Join(others) <==> words == others
  {
    SplitJoin(words);
    SplitJoin(others);
  }

  predicate LowRiskWords(words: seq<string>) {
    || words == ["uptime"]
    || words == ["df", "-h"]
    || words == ["hmn", "health", "probe"]
    || (|words| >= 3 && words[0] == "systemctl" && words[1] == "status")
  }

  lemma SplitTwoWords(first: string, second: string, rest: string)
    requires IsWord(first) && IsWord(second)
    ensures Words(Then(first, Then(second, rest))) == [first, second] + Words(rest)
  {
    SplitAtSpace(first, Then(second, rest));
    SplitAtSpace(second, rest);
    assert [first] + ([second] + Words(rest)) == [first, second] + Words(rest);
  }

  /** The text that starts with two words and a space goes on behind that space. */
  lemma TwoWordPrefix(first: string, second: string, text: string)
    ensures Then(first, Then(second, "")) <= text ==>
              exists rest :: text == Then(first, Then(second, rest))
    ensures forall rest :: Then(first, Then(second, "")) <= Then(first, Then(second, rest))
  {
    var prefix := Then(first, Then(second, ""));
    forall rest ensures Then(first, Then(second, rest)) == prefix + rest {}
    if prefix <= text {
      assert text == prefix + text[|prefix|..];
    }
  }

  lemma JoinedTwoWords(words: seq<string>, first: string, second: string, rest: string)
    requires forall i | 0 <= i < |words| :: IsWord(words[i])
    requires IsWord(first) && IsWord(second) && Join(words) == Then(first, Then(second, rest))
    ensures |words| >= 3 && words[0] == first && words[1] == second
  {
    SplitTwoWords(first, second, rest);
    SplitJoin(words);
    assert words[0] == first && words[1] == second;
    JoinTwo(first, second);
    assert |Then(first, second)| < |Join(words)|;
    assert |words| == 2 ==> words == [first, second];
  }

  lemma JoinGoesOn(words: seq<string>)
    requires |words| >= 3
    ensures Join(words) == Then(words[0], Then(words[1], Join(words[2..])))
  {
    assert words[1..][0] == words[1] && words[1..][1..] == words[2..];
  }

  /** The joined text starts with two words and a space exactly when the list starts
      with those words and goes on. */
  lemma PrefixOfJoin(words: seq<string>, first: string, second: string)
    requires forall i | 0 <= i < |words| :: IsWord(words[i])
    requires IsWord(first) && IsWord(second)
    ensures Then(first, Then(second, "")) <= Join(words) <==> |words| >= 3 && words[0] == first && words[1] == second
  {
    TwoWordPrefix(first, second, Join(words));
    if Then(first, Then(second, "")) <= Join(words) {
      var rest :| Join(words) == Then(first, Then(second, rest));
      JoinedTwoWords(words, first, second, rest);
    } else if |words| >= 3 {
      JoinGoesOn(words);
    }
  }

  lemma JoinTwo(a: string, b: string)
    ensures Join([a, b]) == Then(a, b)
  {
    assert [a, b][1..] == [b];
  }

  lemma JoinThree(a: string, b: string, c: string)
    ensures Join([a, b, c]) == Then(a, Then(b, c))
  {
    assert [a, b, c][1..] == [b, c];
    JoinTwo(b, c);
  }

  lemma TextOfOneWord(words: seq<string>, a: string)
    requires (forall i | 0 <= i < |words| :: IsWord(words[i])) && IsWord(a)
    ensures Join(words) == a <==> words == [a]
  {
    JoinInjective(words, [a]);
  }

  lemma TextOfTwoWords(words: seq<string>, a: string, b: string)
    requires (forall i | 0 <= i < |words| :: IsWord(words[i])) && IsWord(a) && IsWord(b)
    ensures Join(words) == Then(a, b) <==> words == [a, b]
  {
    JoinInjective(words, [a, b]);
    JoinTwo(a, b);
  }

  lemma TextOfThreeWords(words: seq<string>, a: string, b: string, c: string)
    requires (forall i | 0 <= i < |words| :: IsWord(words[i])) && IsWord(a) && IsWord(b) && IsWord(c)
    ensures Join(words) == Then(a, Then(b, c)) <==> words == [a, b, c]
  {
    var three := [a, b, c];
    assert forall i | 0 <= i < |three| :: IsWord(three[i]);
    JoinInjective(words, three);
    JoinThree(a, b, c);
  }

  lemma ProbeTexts()
    ensures Then("df", "-h") == "df -h"
    ensures Then("hmn", Then("health", "probe")) == "hmn health probe"
    ensures Then("systemctl", Then("status", "")) == "systemctl status "
  {
  }

  /** A command is low risk exactly when its words are one of the listed probes, or begin
      with `systemctl status` and go on in any way at all. */
  lemma RiskIsReadOffWords(command: string)
    ensures RiskForCommand(command) == (if LowRiskWords(Words(command)) then "low" else "high")
  {
    var words := Words(command);
    SplitYieldsWords(command);
    ProbeTexts();
    TextOfOneWord(words, "uptime");
    TextOfTwoWords(words, "df", "-h");
    TextOfThreeWords(words, "hmn", "health", "probe");
    PrefixOfJoin(words, "systemctl", "status");
  }

  /** Whatever is written behind `systemctl status` runs as low risk, a second command
      included; without any word there the command is high risk. */
  lemma StatusTakesAnything(rest: string)
    ensures RiskForCommand(Then("systemctl", Then("status", rest))) == if Words(rest) == [] then "high" else "low"
  {
    SplitTwoWords("systemctl", "status", rest);
    RiskIsReadOffWords(Then("systemctl", Then("status", rest)));
  }

  lemma StatusTakesCommands(rest: string)
    requires rest != "" && !IsSpace(rest[0])
    ensures RiskForCommand("systemctl status " + rest) == "low"
  {
    ProbeTexts();
    assert Then("systemctl", Then("status", rest)) == Then("systemctl", Then("status", "")) + rest;
    StatusTakesAnything(rest);
  }

  lemma StatusThenReboot()
    ensures RiskForCommand("systemctl status " + "x; reboot") == "low"
  {
    StatusTakesCommands("x; reboot");
  }
}
