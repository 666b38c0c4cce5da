/**
 Fitting a text into a provider's context window (`internal/llm/context_window.go`) and building
 the prompt around it (`internal/llm/llm_extractor.go`).  A `char` is a rune.
 */
module PromptFitting {
  import opened Domain
  import opened Text

  function EstimateTokens(s: string): nat { if s == "" then 0 else (|s| + 3) / 4 }

  datatype Budget = Budget(maxInputTokens: int, headroomTokens: int)

  function Available(b: Budget): nat {
    if b.maxInputTokens - b.headroomTokens < 0 then 0 else b.maxInputTokens - b.headroomTokens
  }

  const MARKER := "\n[\U{2026}]\n"

  predicate IsDelimiter(c: char) { c == ' ' || c == '\n' || c == '\t' || c == '.' || c == ',' }

  predicate MidWord(c: char) { !IsDelimiter(c) }

  function HeadShare(keepChars: nat): nat { keepChars / 3 }

  function TailShare(keepChars: nat): nat { keepChars - HeadShare(keepChars) }

  /** How many characters of a text are kept when `available` tokens are left for it. */
  function KeepChars(available: int): nat {
    var keep := available - EstimateTokens(MARKER);
    if keep <= 0 then 0 else keep * 4
  }

  function FitText(input: string, overheadTokens: int, budget: Budget): string {
    var available := Available(budget) - overheadTokens;
    if available <= 0 then ""
    else if EstimateTokens(input) <= available then input
    else
      var keep := KeepChars(available);
      if keep == 0 then ""
      else if |input| <= HeadShare(keep) + TailShare(keep) then input
      else Elided(input, HeadShare(keep), TailShare(keep))
  }

  function Elided(input: string, headChars: nat, tailChars: nat): string
    requires headChars + tailChars <= |input|
  {
    TrimRight(input[..headChars], MidWord) + MARKER + TrimLeft(input[|input| - tailChars..], MidWord)
  }

  /** The tokens left for a text: the window less its headroom, never below zero, less the overhead. */
  function Left(overheadTokens: int, budget: Budget): int {
    (if budget.maxInputTokens > budget.headroomTokens then budget.maxInputTokens - budget.headroomTokens else 0) - overheadTokens
  }

  lemma MarkerTakesTwoTokens()
    ensures |MARKER| == 5 && EstimateTokens(MARKER) == 2
  {}

  /** Four characters to a token, and a started token counts. */
  lemma TokensAreFourCharacters(s: string, n: nat)
    ensures EstimateTokens(s) <= n <==> |s| <= 4 * n
  {}

  /** A text that fits is returned as it is; one that does not is dropped when no more than the marker would fit. */
  lemma FitTextWithoutEliding(input: string, overheadTokens: int, budget: Budget)
    ensures var left := Left(overheadTokens, budget);
            && (left <= 0 ==> FitText(input, overheadTokens, budget) == "")
            && (left > 0 && |input| <= 4 * left ==> FitText(input, overheadTokens, budget) == input)
            && (0 < left <= 2 && |input| > 4 * left ==> FitText(input, overheadTokens, budget) == "")
  {
    MarkerTakesTwoTokens();
  }

  /** The text does not fit, and more than the marker does. */
  predicate Elides(input: string, overheadTokens: int, budget: Budget) {
    Left(overheadTokens, budget) > 2 && |input| > 4 * Left(overheadTokens, budget)
  }

  /** The second pass-through return can never be taken. */
  lemma SecondPassThroughUnreachable(input: string, overheadTokens: int, budget: Budget)
    requires Elides(input, overheadTokens, budget)
    ensures var keep := KeepChars(Available(budget) - overheadTokens);
            0 < keep && |input| > HeadShare(keep) + TailShare(keep)
  {
    MarkerTakesTwoTokens();
  }

  /** The result never takes more tokens than were left for it. */
  lemma FitsWhatIsLeft(input: string, overheadTokens: int, budget: Budget)
    ensures var left := Left(overheadTokens, budget);
            |FitText(input, overheadTokens, budget)| <= if left < 0 then 0 else 4 * left
  {
    if Elides(input, overheadTokens, budget) {
      var h, t := ElisionKeepsLongestEnds(input, overheadTokens, budget);
    } else {
      FitTextWithoutEliding(input, overheadTokens, budget);
    }
  }

  /** Fitting a fitted text again changes nothing. */
  lemma FitTextIdempotent(input: string, overheadTokens: int, budget: Budget)
    ensures var once := FitText(input, overheadTokens, budget);
            FitText(once, overheadTokens, budget) == once
  {
    FitsWhatIsLeft(input, overheadTokens, budget);
    FitTextWithoutEliding(FitText(input, overheadTokens, budget), overheadTokens, budget);
  }

  const DELIMITERS := " \n\t.,"

  /** The longest prefix within `share` that is empty or ends at a delimiter. */
  ghost predicate LongestHead(s: string, share: nat, h: nat)
    requires share <= |s|
  {
    && h <= share && (h > 0 ==> s[h - 1] in DELIMITERS)
    && forall k :: h <= k < share ==> s[k] !in DELIMITERS
  }

  /** The longest suffix from `from` on that is empty or begins at a delimiter. */
  ghost predicate LongestTail(s: string, from: nat, t: nat)
    requires from <= |s|
  {
    && from <= t <= |s| && (t < |s| ==> s[t] in DELIMITERS)
    && forall k :: from <= k < t ==> s[k] !in DELIMITERS
  }

  lemma TrimmedHead(s: string, share: nat) returns (h: nat)
    requires share <= |s|
    ensures LongestHead(s, share, h) && TrimRight(s[..share], MidWord) == s[..h]
  {
    h := TrimRightCuts(s[..share], MidWord);
    assert s[..share][..h] == s[..h];
    forall k | h <= k < share
      ensures s[k] !in DELIMITERS
    {
      assert MidWord(s[..share][k]);
    }
  }

  lemma TrimmedTail(s: string, from: nat) returns (t: nat)
    requires from <= |s|
    ensures LongestTail(s, from, t) && TrimLeft(s[from..], MidWord) == s[t..]
  {
    var n := TrimLeftCuts(s[from..], MidWord);
    t := from + n;
    assert s[from..][n..] == s[t..];
    forall k | from <= k < t
      ensures s[k] !in DELIMITERS
    {
      assert MidWord(s[from..][k - from]);
    }
  }

  /**
   An elided text is a prefix, the marker and a suffix that do not meet.  Two of the tokens left go
   to the marker, the others stand for four characters each, a third of them the prefix's share and
   the rest the suffix's; each is the longest piece within its share cut at a delimiter.
   */
  lemma ElisionKeepsLongestEnds(input: string, overheadTokens: int, budget: Budget) returns (h: nat, t: nat)
    requires Elides(input, overheadTokens, budget)
    ensures h < t <= |input|
    ensures FitText(input, overheadTokens, budget) == input[..h] + "\n[\U{2026}]\n" + input[t..]
    ensures var kept := 4 * (Left(overheadTokens, budget) - 2);
            && kept < |input| && LongestHead(input, kept / 3, h)
            && LongestTail(input, |input| - (kept - kept / 3), t)
  {
    MarkerTakesTwoTokens();
    SecondPassThroughUnreachable(input, overheadTokens, budget);
    var keep := KeepChars(Available(budget) - overheadTokens);
    h, t := ElidedShape(input, HeadShare(keep), TailShare(keep));
  }

  lemma ElidedShape(input: string, headChars: nat, tailChars: nat) returns (h: nat, t: nat)
    requires headChars + tailChars < |input|
    ensures h < t <= |input| && Elided(input, headChars, tailChars) == input[..h] + MARKER + input[t..]
    ensures LongestHead(input, headChars, h) && LongestTail(input, |input| - tailChars, t)
  {
    h := TrimmedHead(input, headChars);
    t := TrimmedTail(input, |input| - tailChars);
  }

  // ---------- the prompt ----------

  /** A few-shot example; `output` is its JSON, absent when it cannot be encoded. */
  datatype Example = Example(input: string, output: Option<string>)

  datatype Builder = Builder(systemPrompt: string, examples: seq<Example>)

  function Digits(n: nat): string {
    var d := ["0", "1", "2", "3", "4", "5", "6", "7", "8", "9"][n % 10];
    if n < 10 then d else Digits(n / 10) + d
  }

  function Shown(examples: seq<Example>): string {
    if examples == [] then "" else
    var k, ex := |examples|, examples[|examples| - 1];
    Shown(examples[..k - 1]) + (InputLine(k, ex) + OutputLine(k, ex))
  }

  function InputLine(k: nat, ex: Example): string { "Example " + Digits(k) + " input: " + ex.input + "\n" }

  function OutputLine(k: nat, ex: Example): string {
    if ex.output.Some? then "Example " + Digits(k) + " output: " + ex.output.value + "\n\n" else ""
  }

  const CLOSING := "\nOutput (JSON only, no prose): "

  function Opening(b: Builder): string { b.systemPrompt + "\n\n" + Shown(b.examples) + "Input: " }

  function Prompt(b: Builder, input: string): string { Opening(b) + input + CLOSING }

  lemma Regroup(a: string, b: string, c: string, d: string)
    ensures a + b + c + d == a + (b + (c + d)) && (d == "" ==> a + b + c == a + (b + (c + d)))
  {}

  method Build(b: Builder, input: string) returns (out: string)
    ensures out == Prompt(b, input)
  {
    out := b.systemPrompt;
    out := out + "\n\n";
    ghost var start := out;
    for i := 0 to |b.examples|
      invariant out == start + Shown(b.examples[..i])
    {
      var ex := b.examples[i];
      assert b.examples[..i + 1][..i] == b.examples[..i];
      ghost var before := Shown(b.examples[..i]);
      out := out + InputLine(i + 1, ex);
      if ex.output.Some? {
        out := out + OutputLine(i + 1, ex);
      }
      Regroup(start, before, InputLine(i + 1, ex), OutputLine(i + 1, ex));
    }
    assert b.examples[..|b.examples|] == b.examples;
    out := out + "Input: ";
    out := out + input;
    out := out + CLOSING;
  }

  /** What the extractor and the A/B router send: fitted when a budget is set. */
  function FinalPrompt(b: Builder, text: string, budget: Budget): string {
    if budget.maxInputTokens > 0 then Prompt(b, FitText(text, EstimateTokens(Prompt(b, "")), budget))
    else Prompt(b, text)
  }

  /**
   For every text: the final prompt stays within the available tokens exactly when the empty prompt
   does, so the head-tail elision never spends a token too many and cannot rescue an oversized builder.
   */
  lemma PromptFitsIffOverheadFits(b: Builder, text: string, budget: Budget)
    requires budget.maxInputTokens > 0
    ensures Left(EstimateTokens(FinalPrompt(b, text, budget)), budget) >= 0
       <==> Left(EstimateTokens(Prompt(b, "")), budget) >= 0
    ensures var room := Left(0, budget);
            |FinalPrompt(b, text, budget)| <= 4 * room <==> |Prompt(b, "")| <= 4 * room
  {
    var overhead, room := EstimateTokens(Prompt(b, "")), Left(0, budget);
    var fitted := FitText(text, overhead, budget);
    FitsWhatIsLeft(text, overhead, budget);
    assert |Prompt(b, fitted)| == |Prompt(b, "")| + |fitted|;
    TokensAreFourCharacters(Prompt(b, ""), room);
    TokensAreFourCharacters(FinalPrompt(b, text, budget), room);
  }

  /** The text is sent whole exactly when there is no budget, nothing to cut, or room for all of it. */
  lemma SentWholeIff(b: Builder, text: string, budget: Budget)
    ensures FinalPrompt(b, text, budget) == Prompt(b, text) <==>
              || budget.maxInputTokens <= 0 || text == ""
              || |text| <= 4 * Left(EstimateTokens(Prompt(b, "")), budget)
  {
    var overhead := EstimateTokens(Prompt(b, ""));
    FitsWhatIsLeft(text, overhead, budget);
    FitTextWithoutEliding(text, overhead, budget);
    assert |Prompt(b, text)| == |Prompt(b, "")| + |text|;
    assert |Prompt(b, FitText(text, overhead, budget))| == |Prompt(b, "")| + |FitText(text, overhead, budget)|;
  }

  // ---------- what the model gets to read ----------

  /** The number that a row of decimal digits stands for. */
  function ReadDigits(s: string): int {
    if s == "" then 0 else 10 * ReadDigits(s[..|s| - 1]) + (s[|s| - 1] as int - '0' as int)
  }

  /** Examples are numbered in plain decimal: digits only, no leading zero, and they read back. */
  lemma {:induction false} DigitsReadBack(n: nat)
    ensures ReadDigits(Digits(n)) == n && Digits(n) != "" && (n > 0 ==> Digits(n)[0] != '0')
    ensures forall i :: 0 <= i < |Digits(n)| ==> '0' <= Digits(n)[i] <= '9'
    decreases n
  {
    var s := Digits(n);
    if n >= 10 {
      DigitsReadBack(n / 10);
      assert s[..|s| - 1] == Digits(n / 10);
    } else {
      assert s[..0] == "";
    }
  }

  /** Where the k-th example begins: behind the instructions and the examples before it. */
  function StartOf(b: Builder, k: nat): nat
    requires k <= |b.examples|
  {
    |b.systemPrompt| + 2 + |Shown(b.examples[..k])|
  }

  lemma {:induction false} ShownTo(examples: seq<Example>, k: nat)
    requires k <= |examples|
    ensures Shown(examples[..k]) <= Shown(examples)
    decreases |examples| - k
  {
    if k == |examples| {
      assert examples[..k] == examples;
    } else {
      ShownTo(examples, k + 1);
      assert examples[..k + 1][..k] == examples[..k];
    }
  }

  /** The prompt begins with the instructions and a blank line and ends with the text and the closing line … */
  lemma PromptEnds(b: Builder, text: string)
    ensures var p := Prompt(b, text);
            && StartOf(b, 0) <= StartOf(b, |b.examples|) <= |p|
            && p[..StartOf(b, 0)] == b.systemPrompt + "\n\n"
            && p[StartOf(b, |b.examples|)..] == "Input: " + text + "\nOutput (JSON only, no prose): "
  {
    assert b.examples[..|b.examples|] == b.examples && Shown(b.examples[..0]) == "";
    PieceOf(b.systemPrompt + "\n\n", "", "", Shown(b.examples), "Input: " + text + CLOSING);
    InParts(b.systemPrompt, Shown(b.examples), text);
  }

  /** … and in between come all the examples, numbered from one, each ending where the next begins. */
  lemma PromptShowsExample(b: Builder, text: string, k: nat)
    requires k < |b.examples|
    ensures var p, ex := Prompt(b, text), b.examples[k];
            && StartOf(b, k) <= StartOf(b, k + 1) <= |p|
            && p[StartOf(b, k)..StartOf(b, k + 1)]
               == "Example " + Digits(k + 1) + " input: " + ex.input + "\n"
                  + (if ex.output.Some? then "Example " + Digits(k + 1) + " output: " + ex.output.value + "\n\n" else "")
  {
    ExampleAt(b, text, k);
    BlockText(k + 1, b.examples[k]);
  }

  lemma ExampleAt(b: Builder, text: string, k: nat)
    requires k < |b.examples|
    ensures StartOf(b, k) <= StartOf(b, k + 1) <= |Prompt(b, text)|
    ensures Prompt(b, text)[StartOf(b, k)..StartOf(b, k + 1)] == InputLine(k + 1, b.examples[k]) + OutputLine(k + 1, b.examples[k])
  {
    ExampleIn(b, "Input: " + text + CLOSING, k);
    InParts(b.systemPrompt, Shown(b.examples), text);
  }

  lemma ExampleIn(b: Builder, tail: string, k: nat)
    requires k < |b.examples|
    ensures var p := b.systemPrompt + "\n\n" + Shown(b.examples) + tail;
            && StartOf(b, k) <= StartOf(b, k + 1) <= |p|
            && p[StartOf(b, k)..StartOf(b, k + 1)] == InputLine(k + 1, b.examples[k]) + OutputLine(k + 1, b.examples[k])
  {
    var upTo, block := ShownBlock(b.examples, k);
    PieceOf(b.systemPrompt + "\n\n", upTo, block, Shown(b.examples), tail);
  }

  lemma BlockText(k: nat, ex: Example)
    ensures InputLine(k, ex) + OutputLine(k, ex)
         == "Example " + Digits(k) + " input: " + ex.input + "\n"
            + (if ex.output.Some? then "Example " + Digits(k) + " output: " + ex.output.value + "\n\n" else "")
  {}

  lemma InParts(system: string, shown: string, text: string)
    ensures system + "\n\n" + shown + "Input: " + text + CLOSING == system + "\n\n" + shown + ("Input: " + text + CLOSING)
  {}

  lemma ShownBlock(examples: seq<Example>, k: nat) returns (upTo: string, block: string)
    requires k < |examples|
    ensures upTo == Shown(examples[..k]) && block == InputLine(k + 1, examples[k]) + OutputLine(k + 1, examples[k])
    ensures Shown(examples[..k + 1]) == upTo + block && upTo + block <= Shown(examples)
  {
    ShownTo(examples, k + 1);
    assert examples[..k + 1][..k] == examples[..k];
    upTo, block := Shown(examples[..k]), InputLine(k + 1, examples[k]) + OutputLine(k + 1, examples[k]);
  }

  lemma PieceOf(head: string, upTo: string, block: string, all: string, tail: string)
    requires upTo + block <= all
    ensures var p := head + all + tail;
            && |head| + |upTo| + |block| <= |p| && p[..|head|] == head && p[|head| + |all|..] == tail
            && p[|head| + |upTo|..|head| + |upTo| + |block|] == block
  {
    var p := head + all + tail;
    assert all == upTo + block + all[|upTo| + |block|..];
  }
}
