/** The token budget of the assembled prompt (crates/termlm-core/src/context/mod.rs). */
module PromptBudget {
  import opened Text

  datatype Budget = Budget(
    enabled: bool,
    maxTotal: nat,
    reserveResponse: nat,
    question: nat,
    recent: nat,
    recentMax: nat,
    older: nat,
    olderMax: nat
  )

  function Max(a: nat, b: nat): nat { if a < b then b else a }
  function Min(a: nat, b: nat): nat { if a < b then a else b }
  function SaturatingSub(a: nat, b: nat): nat { if a < b then 0 else a - b }

  /** One token for every four characters, rounded down, and at least one. */
  function EstimateTokens(text: string): nat { Max(|text| / 4, 1) }

  function TrimToTokens(text: string, maxTokens: nat): (r: string)
    ensures |r| <= 4 * maxTokens
    ensures |text| <= 4 * maxTokens ==> r == text
    ensures |text| > 4 * maxTokens > 0 ==> |r| == 4 * maxTokens && r[..|r| - 1] <= text && r[|r| - 1] == '\U{2026}'
  {
    if maxTokens == 0 then "" else
      var maxChars := maxTokens * 4;
      if |text| <= maxChars then text else text[..SaturatingSub(maxChars, 1)] + ['\U{2026}']
  }

  function StartingBudget(b: Budget): nat {
    var budget := SaturatingSub(b.maxTotal, b.reserveResponse);
    if budget == 0 then Max(b.question, 256) else budget
  }

  /**
   * The context blocks as formatted, wanted or not by the routing; `note` is the classification note with its blank
   * line.
   */
  datatype Blocks = Blocks(includeRecent: bool, recent: string, includeOlder: bool, older: string, note: string)

  /** What a text costs when `budget` is left. */
  function Charge(text: string, budget: nat): nat { Min(EstimateTokens(text), budget) }

  /**
   * The part of a wanted block that fits the cap, or nothing when no budget is left or only whitespace would remain.
   */
  function Part(wanted: bool, block: string, cap: nat, budget: nat): string {
    if wanted && budget > 0 &&
      !IsBlank(TrimToTokens(block, Min(cap, budget))) then TrimToTokens(block, Min(cap, budget)) else ""
  }

  /** A part that is present starts after a blank line. */
  function Section(part: string): string { if part == "" then "" else "\n\n" + part }

  datatype Parts = Parts(question: string, recent: string, older: string, charged: nat)

  function QuestionPart(b: Budget, question: string): string {
    TrimToTokens(question, Min(b.question, StartingBudget(b)))
  }

  function RecentPart(b: Budget, blocks: Blocks, budget: nat): string {
    Part(blocks.includeRecent, blocks.recent, Min(b.recent, b.recentMax), budget)
  }

  function OlderPart(b: Budget, blocks: Blocks, budget: nat): string {
    Part(blocks.includeOlder, blocks.older, Min(b.older, b.olderMax), budget)
  }

  function Left(budget: nat, part: string): nat {
    if part == "" then budget else budget - Charge(part, budget)
  }

  function PartsOf(b: Budget, question: string, blocks: Blocks): Parts {
    var current := QuestionPart(b, question);
    var afterQuestion := StartingBudget(b) - Charge(current, StartingBudget(b));
    var recent := RecentPart(b, blocks, afterQuestion);
    var afterRecent := Left(afterQuestion, recent);
    Parts(current, recent, OlderPart(b, blocks, afterRecent), StartingBudget(b) - afterRecent)
  }

  function PromptOf(p: Parts, note: string): string {
    p.question + Section(p.recent) + Section(p.older) + note
  }

  function Included(p: Parts): seq<string> {
    ["current_question"]
    + (if p.recent == "" then [] else ["recent_terminal"])
    + (if p.older == "" then [] else ["older_session"])
  }

  /** The question comes first and is charged first. */
  method StartPrompt(b: Budget, question: string) returns (current: string, budget: nat)
    ensures current == QuestionPart(b, question)
    ensures budget == StartingBudget(b) - Charge(current, StartingBudget(b))
  {
    budget := SaturatingSub(b.maxTotal, b.reserveResponse);
    if budget == 0 {
      budget := Max(b.question, 256);
    }
    current := TrimToTokens(question, Min(b.question, budget));
    var used := Min(EstimateTokens(current), budget);
    budget := SaturatingSub(budget, used);
  }

  method AssembleUserPrompt(b: Budget, question: string, blocks: Blocks) returns (prompt: string, included: seq<string>)
    ensures !b.enabled ==> prompt == question && included == ["current_question"]
    ensures b.enabled ==>
      prompt == PromptOf(PartsOf(b, question, blocks), blocks.note) &&
        included == Included(PartsOf(b, question, blocks))
    ensures b.enabled ==> IsAssembled(b, question, blocks, prompt, included)
  {
    if !b.enabled {
      return question, ["current_question"];
    }
    var current, budget := StartPrompt(b, question);
    prompt := current;
    included := ["current_question"];
    ghost var start := StartingBudget(b);
    ghost var afterQuestion := budget;

    var recent := RecentPart(b, blocks, budget);
    if recent != "" {
      prompt := prompt + ("\n\n" + recent);
      var used := Min(EstimateTokens(recent), budget);
      budget := SaturatingSub(budget, used);
      included := included + ["recent_terminal"];
    }

    assert prompt == current + Section(recent);
    assert budget == Left(afterQuestion, recent);
    assert PartsOf(b, question, blocks) == Parts(current, recent, OlderPart(b, blocks, budget), start - budget);
    var older := OlderPart(b, blocks, budget);
    if older != "" {
      prompt := prompt + ("\n\n" + older);
      included := included + ["older_session"];
    }
    prompt := prompt + blocks.note;
    AssembledMeans(b, question, blocks, prompt, included);
  }

  /**
   * The tokens charged stay within the starting budget, and the characters within four for each of its tokens,
   * but for three lost to rounding in each of the first two parts and the two blank lines.
   */
  lemma {:induction false} PromptFitsBudget(b: Budget, question: string, blocks: Blocks)
    ensures var p := PartsOf(b, question, blocks);
      && p.charged <= StartingBudget(b)
      && |PromptOf(p, blocks.note)| <= 4 * StartingBudget(b) + 10 + |blocks.note|
  {
    var p, budget := PartsOf(b, question, blocks), StartingBudget(b);
    var left := budget - Charge(p.question, budget);
    PartFits(p.question, budget);
    PartFits(p.recent, left);
  }

  /** What is charged for a part covers its characters to within three. */
  lemma {:induction false} PartFits(part: string, budget: nat)
    requires |part| <= 4 * budget
    ensures |part| <= 4 * Charge(part, budget) + 3
  {
  }

  /** The slack of ten is needed: some prompt uses all of it. */
  lemma {:induction false} SlackIsUsed(question: string, recent: string, older: string)
    requires |question| == 7 && |recent| == 31 && |older| == 4
    requires !IsBlank(recent) && !IsBlank(older)
    ensures var b := Budget(true, 9, 0, 2, 8, 8, 9, 9);
      |PromptOf(PartsOf(b, question, Blocks(true, recent, true, older, "")), "")| == 4 * StartingBudget(b) + 10
  {
    var b, blocks := Budget(true, 9, 0, 2, 8, 8, 9, 9), Blocks(true, recent, true, older, "");
    assert QuestionPart(b, question) == question && Charge(question, 9) == 1;
    assert RecentPart(b, blocks, 8) == recent && Left(8, recent) == 1;
    assert OlderPart(b, blocks, 1) == older;
  }

  // ---------- what is in a prompt ----------

  /** What the total leaves after the reserve for the response, or when that is nothing, what the question may have. */
  predicate IsBudget(b: Budget, budget: nat) {
    if b.maxTotal > b.reserveResponse then budget + b.reserveResponse == b.maxTotal
    else budget >= 256 && budget >= b.question && (budget == 256 || budget == b.question)
  }

  /** The least of three caps. */
  predicate IsCap(cap: nat, x: nat, y: nat, z: nat) {
    cap <= x && cap <= y && cap <= z && (cap == x || cap == y || cap == z)
  }

  /** A text cut to so many tokens of four characters. */
  predicate IsTrimmed(text: string, tokens: nat, r: string) {
    && (|text| <= 4 * tokens ==> r == text)
    && (|text| > 4 * tokens == 0 ==> r == "")
    && (|text| > 4 * tokens > 0 ==> |r| == 4 * tokens && r[..|r| - 1] <= text && r[|r| - 1] == '\U{2026}')
  }

  /**
   * What is left of a budget after a text that is in the prompt: a token for every four characters, and at least one.
   */
  predicate IsLeft(budget: nat, text: string, left: nat) {
    left == budget - if |text| < 8 then (if budget > 0 then 1 else 0)
      else (if |text| / 4 < budget then |text| / 4 else budget)
  }

  predicate IsCutPart(block: string, cap: nat, part: string) {
    if IsBlank(TrimToTokens(block, cap)) then part == "" else IsTrimmed(block, cap, part)
  }

  /** A block is in the prompt when it is wanted, some budget is left, and it is not blank when cut to its cap. */
  predicate IsPart(wanted: bool, block: string, x: nat, y: nat, budget: nat, part: string) {
    if wanted && budget > 0
    then exists cap | 0 <= cap <= budget :: IsCap(cap, x, y, budget) && IsCutPart(block, cap, part)
    else part == ""
  }

  /** What is left after a block: nothing is charged for one that is not there. */
  predicate IsLeftAfter(budget: nat, part: string, left: nat) {
    if part == "" then left == budget else IsLeft(budget, part, left)
  }

  /** The parts of a prompt and what is left of the budget before and after each. */
  ghost predicate AreParts(b: Budget, question: string, blocks: Blocks, p: Parts) {
    exists start: nat, cap: nat, second: nat, third: nat ::
      && IsBudget(b, start) && IsCap(cap, b.question, start, start) && IsTrimmed(question, cap, p.question)
      && IsLeft(start, p.question, second)
      && IsPart(blocks.includeRecent, blocks.recent, b.recent, b.recentMax, second, p.recent)
      && IsLeftAfter(second, p.recent, third)
      && IsPart(blocks.includeOlder, blocks.older, b.older, b.olderMax, third, p.older)
      && p.charged + third == start
  }

  /**
   * Question, recent block, older block and note in this order, a blank line before each block, and a label for each.
   */
  predicate IsPrompt(p: Parts, note: string, prompt: string, included: seq<string>) {
    match (p.recent == "", p.older == "")
    case (true, true) => prompt == p.question + note && included == ["current_question"]
    case (false, true) =>
      prompt == p.question + "\n\n" + p.recent + note && included == ["current_question", "recent_terminal"]
    case (true, false) =>
      prompt == p.question + "\n\n" + p.older + note && included == ["current_question", "older_session"]
    case (false, false) =>
      && prompt == p.question + "\n\n" + p.recent + "\n\n" + p.older + note
      && included == ["current_question", "recent_terminal", "older_session"]
  }

  ghost predicate IsAssembled(b: Budget, question: string, blocks: Blocks, prompt: string, included: seq<string>) {
    exists p :: AreParts(b, question, blocks, p) && IsPrompt(p, blocks.note, prompt, included)
  }

  lemma {:induction false} AssembledMeans(b: Budget, question: string, blocks: Blocks, prompt: string,
      included: seq<string>)
    requires prompt == PromptOf(PartsOf(b, question, blocks), blocks.note)
    requires included == Included(PartsOf(b, question, blocks))
    ensures IsAssembled(b, question, blocks, prompt, included)
  {
    PartsMean(b, question, blocks);
    PromptMeans(PartsOf(b, question, blocks), blocks.note);
  }

  lemma {:induction false} PromptMeans(p: Parts, note: string)
    ensures IsPrompt(p, note, PromptOf(p, note), Included(p))
  {
    assert p.question + "" == p.question;
    assert p.question + ("\n\n" + p.recent) == p.question + "\n\n" + p.recent;
    assert p.question + Section(p.recent) + ("\n\n" + p.older) == p.question + Section(p.recent) + "\n\n" + p.older;
    assert p.question + Section(p.recent) + "" == p.question + Section(p.recent);
  }

  lemma {:induction false} TrimMeans(text: string, tokens: nat)
    ensures IsTrimmed(text, tokens, TrimToTokens(text, tokens))
  {
  }

  lemma {:induction false} ChargeMeans(budget: nat, text: string)
    ensures IsLeft(budget, text, budget - Charge(text, budget))
  {
  }

  lemma {:induction false} PartMeans(wanted: bool, block: string, x: nat, y: nat, budget: nat)
    ensures IsPart(wanted, block, x, y, budget, Part(wanted, block, Min(x, y), budget))
  {
    var cap := Min(Min(x, y), budget);
    TrimMeans(block, cap);
    assert IsCap(cap, x, y, budget);
  }

  /**
   * The parts of every prompt: the question first, then the recent block and the older one, each within what is left.
   */
  lemma {:induction false} PartsMean(b: Budget, question: string, blocks: Blocks)
    ensures AreParts(b, question, blocks, PartsOf(b, question, blocks))
  {
    var start, p := StartingBudget(b), PartsOf(b, question, blocks);
    var cap := Min(b.question, start);
    var second := start - Charge(p.question, start);
    var third := Left(second, p.recent);
    TrimMeans(question, cap);
    ChargeMeans(start, p.question);
    PartMeans(blocks.includeRecent, blocks.recent, b.recent, b.recentMax, second);
    ChargeMeans(second, p.recent);
    PartMeans(blocks.includeOlder, blocks.older, b.older, b.olderMax, third);
    assert IsBudget(b, start) && IsCap(cap, b.question, start, start);
  }
}
