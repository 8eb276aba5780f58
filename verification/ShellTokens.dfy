/** What the tokens of a command are, and when it ends in an operator (crates/termlm-safety/src/parse.rs). */
module ShellTokens {
  import opened Wrappers
  import opened Text
  import opened Runs
  import opened ShellScan

  // ---------- what a character does to the tokens ----------

  /**
   * A character that is bare, neither quoted nor quoting, ends a token when it is whitespace or an operator. Of the
   * others, those that quote are taken out, and all else is kept.
   */
  datatype Mark = Break | Quoting | Kept(c: char, bare: bool)

  predicate Breaks(c: char) {
    IsSpace(c) || c == '|' || c == '&' || c == ';' || c == '<' || c == '>'
  }

  function MarkOf(m: Mode, c: char): Mark {
    if m == Plain && Next(Plain, c) == Plain then (if Breaks(c) then Break else Kept(c, true))
    else if m == EscapedPlain || m == EscapedDouble || Next(m, c) == m then Kept(c, false)
    else Quoting
  }

  /** The marks of a text, from a mode of the quoting automaton on. */
  function Marks(m: Mode, s: string): (w: seq<Mark>)
    ensures |w| == |s|
    decreases |s|
  {
    if s == [] then [] else [MarkOf(m, s[0])] + Marks(Next(m, s[0]), s[1..])
  }

  /** Each character is marked in the mode that the automaton has come to. */
  lemma {:induction false} MarkAt(m: Mode, s: string, i: nat)
    requires i < |s|
    ensures Marks(m, s)[i] == MarkOf(After(m, s[..i]), s[i])
    decreases |s|
  {
    if i > 0 {
      MarkAt(Next(m, s[0]), s[1..], i - 1);
      assert s[..i][1..] == s[1..][..i - 1];
    }
  }

  // ---------- the tokens ----------

  /** The characters that are kept. */
  function Letters(w: seq<Mark>): string {
    if w == [] then "" else (if w[0].Kept? then [w[0].c] else []) + Letters(w[1..])
  }

  /** A parenthesis that is neither quoted nor escaped. */
  predicate IsBareParen(k: Mark) {
    k.Kept? && k.bare && (k.c == '(' || k.c == ')')
  }

  /** The text of a token: what is kept, but for bare parentheses before all else that is kept. */
  function TokenText(w: seq<Mark>): string {
    if w != [] && (w[0] == Quoting || IsBareParen(w[0])) then TokenText(w[1..]) else Letters(w)
  }

  /** Where no token ends. */
  function Unbroken(w: seq<Mark>): (v: seq<bool>)
    ensures |v| == |w| && forall i :: 0 <= i < |v| ==> v[i] == (w[i] != Break)
  {
    seq(|w|, i requires 0 <= i < |w| => w[i] != Break)
  }

  function TextsOf(w: seq<Mark>, runs: seq<Span>): (r: seq<string>)
    requires forall k :: 0 <= k < |runs| ==> runs[k].begin <= runs[k].end <= |w|
    ensures |r| == |runs| && forall k :: 0 <= k < |r| ==> r[k] == TokenText(w[runs[k].begin..runs[k].end])
  {
    seq(|runs|, k requires 0 <= k < |runs| => TokenText(w[runs[k].begin..runs[k].end]))
  }

  /**
   * The tokens are the texts of the stretches between breaks, all of them and in order, each without outer whitespace,
   * which only quoted or escaped characters can leave, and but for those of which nothing is left.
   */
  ghost predicate AreTokens(w: seq<Mark>, runs: seq<Span>, tokens: seq<string>) {
    && AreRuns(Unbroken(w), runs)
    && (forall k :: 0 <= k < |runs| ==> runs[k].begin <= runs[k].end <= |w|)
    && tokens == Cleaned(TextsOf(w, runs))
  }

  // ---------- the scanner takes marks ----------

  /** The token that is being read and those that are done. */
  datatype Acc = Acc(token: string, tokens: seq<string>)

  function Take(a: Acc, k: Mark): Acc {
    match k
    case Break => Acc("", a.tokens + CleanedWord(a.token))
    case Quoting => a
    case Kept(c, bare) => if IsBareParen(k) && a.token == "" then a else Acc(a.token + [c], a.tokens)
  }

  function TakeAll(a: Acc, w: seq<Mark>): Acc
    decreases |w|
  {
    if w == [] then a else TakeAll(Take(a, w[0]), w[1..])
  }

  function AccOf(x: Scan): Acc { Acc(x.token, x.tokens) }

  lemma {:induction false} FlushTakes(x: Scan)
    ensures AccOf(Flush(x)) == Take(AccOf(x), Break) && Take(Take(AccOf(x), Break), Break) == Take(AccOf(x), Break)
  {
    assert Trim("") == "";
  }

  lemma {:induction false} OperatorTakes(x: Scan, c: char, next: Option<char>)
    requires IsOperator(c)
    ensures var (y, both) := OperatorStep(x, c, next);
      && AccOf(y) == AccOf(Flush(x))
      && (both ==> next.Some? && Breaks(next.value) && Next(Plain, next.value) == Plain)
  {
  }

  lemma {:induction false} GroupingTakes(x: Scan, c: char, next: Option<char>)
    requires IsGrouping(c)
    ensures var (y, both) := GroupingStep(x, c, next);
      && (!both ==> AccOf(y) == Take(AccOf(x), Kept(c, true)))
      && (both ==> next == Some('(') && AccOf(y) == Take(Take(AccOf(x), Kept(c, true)), Kept('(', true)))
  {
    assert x.token + "$(" == (x.token + ['$']) + ['('];
  }

  lemma {:induction false} PlainTakes(x: Scan, c: char, next: Option<char>)
    ensures var (m', x', both) := PlainStep(x, c, next);
      && (!both ==> AccOf(x') == Take(AccOf(x), MarkOf(Plain, c)))
      && (both ==> next.Some? && Next(Plain, c) == m' == Plain && Next(Plain, next.value) == Plain)
      && (both ==> AccOf(x') == Take(Take(AccOf(x), MarkOf(Plain, c)), MarkOf(Plain, next.value)))
  {
    if IsGrouping(c) {
      GroupingTakes(x, c, next);
    } else if IsOperator(c) {
      FlushTakes(x);
      OperatorTakes(x, c, next);
    } else if Next(Plain, c) == Plain {
      TextTakes(x, c);
    }
  }

  lemma {:induction false} TextTakes(x: Scan, c: char)
    requires Next(Plain, c) == Plain && !IsGrouping(c) && !IsOperator(c)
    ensures AccOf(TextStep(x, c)) == Take(AccOf(x), MarkOf(Plain, c))
  {
    FlushTakes(x);
  }

  lemma {:induction false} StepTakes(m: Mode, x: Scan, c: char, next: Option<char>)
    ensures var (m', x', both) := Step(m, x, c, next);
      && m' == Next(m, c)
      && (!both ==> AccOf(x') == Take(AccOf(x), MarkOf(m, c)))
      && (both ==> next.Some? && m' == Plain && Next(Plain, next.value) == Plain)
      && (both ==> AccOf(x') == Take(Take(AccOf(x), MarkOf(m, c)), MarkOf(Plain, next.value)))
  {
    StepSees(m, x, c, next);
    if m == Plain { PlainTakes(x, c, next); }
  }

  lemma {:induction false} ScanTakes(s: string, m: Mode, x: Scan)
    ensures AccOf(ScanRest(s, m, x).1) == TakeAll(AccOf(x), Marks(m, s))
    decreases |s|
  {
    if s != [] {
      var rest, next := s[1..], Peek(s[1..]);
      var (m', x', both) := Step(m, x, s[0], next);
      StepTakes(m, x, s[0], next);
      assert Marks(m, s)[1..] == Marks(m', rest);
      if both {
        assert rest[1..] == s[2..];
        assert Marks(Plain, rest)[1..] == Marks(Plain, s[2..]);
        ScanTakes(s[2..], m', x');
      } else {
        ScanTakes(rest, m', x');
      }
    }
  }

  lemma {:induction false} TakeSplit(a: Acc, u: seq<Mark>, w: seq<Mark>)
    ensures TakeAll(a, u + w) == TakeAll(TakeAll(a, u), w)
    decreases |u|
  {
    if u == [] {
      assert u + w == w;
    } else {
      assert (u + w)[1..] == u[1..] + w;
      TakeSplit(Take(a, u[0]), u[1..], w);
    }
  }

  /** A stretch without breaks adds its text to the token. */
  lemma {:induction false} StretchTakes(a: Acc, w: seq<Mark>)
    requires Break !in w
    ensures TakeAll(a, w) == Acc(if a.token == "" then TokenText(w) else a.token + Letters(w), a.tokens)
    decreases |w|
  {
    if w != [] {
      assert w == [w[0]] + w[1..];
      StretchTakes(Take(a, w[0]), w[1..]);
      if w[0].Kept? { assert (a.token + [w[0].c]) + Letters(w[1..]) == a.token + ([w[0].c] + Letters(w[1..])); }
    }
  }

  /** How many marks come before the first break. */
  function StretchLength(w: seq<Mark>): (n: nat)
    ensures n <= |w| && (forall i :: 0 <= i < n ==> w[i] != Break) && (n < |w| ==> w[n] == Break)
  {
    if w == [] || w[0] == Break then 0 else
      var n := StretchLength(w[1..]);
      assert forall i :: 1 <= i < n + 1 ==> w[i] == w[1..][i - 1];
      n + 1
  }

  /** The tokens that the marks leave, when a break follows them. */
  function TokensAfter(tokens: seq<string>, w: seq<Mark>): seq<string> {
    Take(TakeAll(Acc("", tokens), w), Break).tokens
  }

  lemma {:induction false} BreakFirst(tokens: seq<string>, w: seq<Mark>)
    requires w != [] && w[0] == Break
    ensures TokensAfter(tokens, w) == TokensAfter(tokens, w[1..])
  {
    assert Trim("") == "" && tokens + [] == tokens;
  }

  lemma {:induction false} StretchFirst(tokens: seq<string>, w: seq<Mark>, n: nat)
    requires n == StretchLength(w)
    ensures TokensAfter(tokens, w) == TokensAfter(tokens + CleanedWord(TokenText(w[..n])), w[n..])
  {
    var a, word := Acc("", tokens), TokenText(w[..n]);
    assert w == w[..n] + w[n..];
    TakeSplit(a, w[..n], w[n..]);
    StretchTakes(a, w[..n]);
    assert Trim("") == "";
    var done := tokens + CleanedWord(word);
    assert done + [] == done;
    assert Take(Acc(word, tokens), Break) == Take(Acc("", done), Break) == Acc("", done);
  }

  lemma {:induction false} TextsLater(w: seq<Mark>, n: nat, runs: seq<Span>)
    requires n <= |w| && forall k :: 0 <= k < |runs| ==> runs[k].begin <= runs[k].end <= |w| - n
    ensures TextsOf(w[n..], runs) == TextsOf(w, ShiftAll(runs, n))
  {
    forall k | 0 <= k < |runs| ensures TextsOf(w[n..], runs)[k] == TextsOf(w, ShiftAll(runs, n))[k] {
      SliceOfTail(w, n, runs[k].begin, runs[k].end);
    }
  }

  lemma {:induction false} MarksMakeTokens(tokens: seq<string>, w: seq<Mark>)
      returns (runs: seq<Span>, own: seq<string>)
    ensures AreTokens(w, runs, own) && TokensAfter(tokens, w) == tokens + own
    decreases |w|
  {
    if w == [] {
      runs, own := [], [];
      assert Trim("") == "" && tokens + [] == tokens;
    } else if w[0] == Break {
      runs, own := MarksMakeTokens(tokens, w[1..]);
      BreakFirst(tokens, w);
      TokensPastBreak(w, runs, own);
      runs := ShiftAll(runs, 1);
    } else {
      var n := StretchLength(w);
      var word := CleanedWord(TokenText(w[..n]));
      runs, own := MarksMakeTokens(tokens + word, w[n..]);
      StretchFirst(tokens, w, n);
      TokensPastStretch(w, n, runs, own);
      JoinThree(tokens, word, own);
      runs, own := [Span(0, n)] + ShiftAll(runs, n), word + own;
    }
  }

  lemma {:induction false} JoinThree(a: seq<string>, b: seq<string>, c: seq<string>)
    ensures (a + b) + c == a + (b + c)
  {
  }

  lemma {:induction false} TokensPastBreak(w: seq<Mark>, runs: seq<Span>, own: seq<string>)
    requires w != [] && w[0] == Break && AreTokens(w[1..], runs, own)
    ensures AreTokens(w, ShiftAll(runs, 1), own)
  {
    assert Unbroken(w[1..]) == Unbroken(w)[1..];
    TextsLater(w, 1, runs);
    RunsPastUnmarked(Unbroken(w), runs);
  }

  lemma {:induction false} TokensPastStretch(w: seq<Mark>, n: nat, runs: seq<Span>, own: seq<string>)
    requires w != [] && w[0] != Break && n == StretchLength(w) && AreTokens(w[n..], runs, own)
    ensures AreTokens(w, [Span(0, n)] + ShiftAll(runs, n), CleanedWord(TokenText(w[..n])) + own)
  {
    assert Unbroken(w[n..]) == Unbroken(w)[n..];
    assert IsRun(Unbroken(w), Span(0, n));
    RunThenRuns(Unbroken(w), n, runs);
    FirstText(w, n, runs);
  }

  lemma {:induction false} FirstText(w: seq<Mark>, n: nat, runs: seq<Span>)
    requires n <= |w| && forall k :: 0 <= k < |runs| ==> runs[k].begin <= runs[k].end <= |w| - n
    ensures var all := [Span(0, n)] + ShiftAll(runs, n);
      Cleaned(TextsOf(w, all)) == CleanedWord(TokenText(w[..n])) + Cleaned(TextsOf(w[n..], runs))
  {
    var all := [Span(0, n)] + ShiftAll(runs, n);
    TextsLater(w, n, runs);
    assert w[0..n] == w[..n];
    assert TextsOf(w, all) == [TokenText(w[..n])] + TextsOf(w[n..], runs);
    assert TextsOf(w, all)[1..] == TextsOf(w[n..], runs);
  }

  /**
   * The tokens of every command: the stretches of characters between bare whitespace and operators, without what
   * quotes, trimmed, and but for the empty ones.
   */
  lemma {:induction false} TokensExplained(s: string) returns (runs: seq<Span>)
    ensures AreTokens(Marks(Plain, s), runs, ScanOf(s).tokens)
  {
    var own;
    runs, own := MarksMakeTokens([], Marks(Plain, s));
    ScanTakes(s, Plain, EMPTY);
    FlushTakes(ScanRest(s, Plain, EMPTY).1);
    assert [] + own == own;
  }

  // ---------- words that come back ----------

  lemma {:induction false} MarksSplit(m: Mode, s: string, t: string)
    ensures Marks(m, s + t) == Marks(m, s) + Marks(After(m, s), t)
    ensures After(m, s + t) == After(After(m, s), t)
    decreases |s|
  {
    if s == "" {
      assert s + t == t;
    } else {
      assert (s + t)[1..] == s[1..] + t;
      MarksSplit(Next(m, s[0]), s[1..], t);
    }
  }

  lemma {:induction false} MarksOfOne(m: Mode, a: char)
    ensures Marks(m, [a]) == [MarkOf(m, a)] && After(m, [a]) == Next(m, a)
  {
    assert [a][1..] == "";
  }

  lemma {:induction false} MarksOfTwo(m: Mode, a: char, b: char)
    ensures Marks(m, [a, b]) == [MarkOf(m, a), MarkOf(Next(m, a), b)] && After(m, [a, b]) == Next(Next(m, a), b)
  {
    assert [a, b][1..] == [b];
    MarksOfOne(Next(m, a), b);
  }

  lemma {:induction false} LettersOfTwo(a: Mark, b: Mark)
    ensures Letters([a, b]) == (if a.Kept? then [a.c] else "") + (if b.Kept? then [b.c] else "")
  {
    assert [a, b][1..] == [b] && [b][1..] == [];
    assert Letters([b]) == (if b.Kept? then [b.c] else "");
  }

  /** A way to write a word: it ends no token, all its quotes are closed, and the text it gives is the word. */
  predicate IsSpelling(sp: string, word: string) {
    After(Plain, sp) == Plain && Break !in Marks(Plain, sp) && TokenText(Marks(Plain, sp)) == word
  }

  /** Spelled words, each with something after it that ends a token. */
  function Line(spelled: seq<string>, breaks: seq<char>): string
    requires |breaks| == |spelled|
  {
    if spelled == [] then "" else spelled[0] + ([breaks[0]] + Line(spelled[1..], breaks[1..]))
  }

  ghost predicate AreSpelled(spelled: seq<string>, breaks: seq<char>, words: seq<string>) {
    && |spelled| == |breaks| == |words|
    && forall k :: 0 <= k < |words| ==> IsSpelling(spelled[k], words[k]) && IsCleanWord(words[k]) && Breaks(breaks[k])
  }

  lemma {:induction false} WordTakes(sp: string, word: string, c: char, rest: string, tokens: seq<string>)
    requires IsSpelling(sp, word) && IsCleanWord(word) && Breaks(c)
    ensures TakeAll(Acc("", tokens), Marks(Plain, sp + ([c] + rest))) ==
      TakeAll(Acc("", tokens + [word]), Marks(Plain, rest))
  {
    var later := [Break] + Marks(Plain, rest);
    MarksSplit(Plain, sp, [c] + rest);
    assert ([c] + rest)[1..] == rest && Marks(Plain, [c] + rest) == later;
    TakeSplit(Acc("", tokens), Marks(Plain, sp), later);
    StretchTakes(Acc("", tokens), Marks(Plain, sp));
    assert later[1..] == Marks(Plain, rest);
  }

  lemma {:induction false} LineTakes(spelled: seq<string>, breaks: seq<char>, words: seq<string>, tokens: seq<string>)
    requires AreSpelled(spelled, breaks, words)
    ensures TakeAll(Acc("", tokens), Marks(Plain, Line(spelled, breaks))) == Acc("", tokens + words)
    decreases |words|
  {
    if words == [] {
      assert tokens + words == tokens;
    } else {
      WordTakes(spelled[0], words[0], breaks[0], Line(spelled[1..], breaks[1..]), tokens);
      assert tokens + words == (tokens + [words[0]]) + words[1..];
      LineTakes(spelled[1..], breaks[1..], words[1..], tokens + [words[0]]);
    }
  }

  /** Words come back however they are spelled, whatever whitespace and operators are between them. */
  lemma {:induction false} SpelledWordsComeBack(spelled: seq<string>, breaks: seq<char>, words: seq<string>)
    requires AreSpelled(spelled, breaks, words)
    ensures ScanOf(Line(spelled, breaks)).tokens == words
  {
    ScanTakes(Line(spelled, breaks), Plain, EMPTY);
    LineTakes(spelled, breaks, words, []);
    FlushTakes(ScanRest(Line(spelled, breaks), Plain, EMPTY).1);
    assert [] + words == words && Trim("") == "" && words + [] == words;
  }

  /** A character that stands for itself. */
  predicate IsOrdinary(c: char) {
    !Breaks(c) && c != '\\' && c != '\'' && c != '"' && c != '(' && c != ')'
  }

  /** Ordinary characters are a spelling of themselves. */
  lemma {:induction false} OrdinarySpelling(word: string)
    requires forall i :: 0 <= i < |word| ==> IsOrdinary(word[i])
    ensures IsSpelling(word, word) && Letters(Marks(Plain, word)) == word
  {
    if word != "" {
      assert IsOrdinary(word[0]);
      OrdinarySpelling(word[1..]);
      assert word == [word[0]] + word[1..];
    }
  }

  /** A backslash in front of each character. */
  function Backslashed(word: string): string {
    if word == "" then "" else ['\\', word[0]] + Backslashed(word[1..])
  }

  lemma {:induction false} BackslashedSpelling(word: string)
    ensures IsSpelling(Backslashed(word), word) && Letters(Marks(Plain, Backslashed(word))) == word
  {
    if word != "" {
      var c, rest := word[0], Backslashed(word[1..]);
      BackslashedSpelling(word[1..]);
      MarksSplit(Plain, ['\\', c], rest);
      var w := Marks(Plain, Backslashed(word));
      MarksOfTwo(Plain, '\\', c);
      assert w[1..] == [Kept(c, false)] + Marks(Plain, rest) && w[1..][1..] == Marks(Plain, rest);
      assert word == [c] + word[1..];
    }
  }

  /** What stands between double quotes for a word. */
  function InDouble(word: string): string {
    if word == "" then ""
    else InDoubleChar(word[0]) + InDouble(word[1..])
  }

  function InDoubleChar(c: char): string {
    if c == '"' || c == '\\' then ['\\', c] else [c]
  }

  function DoubleQuoted(word: string): string { ['"'] + (InDouble(word) + ['"']) }

  /** What is kept is quoted, or was escaped. */
  predicate NoneIsBare(w: seq<Mark>) {
    forall i :: 0 <= i < |w| ==> w[i] != Break && (w[i].Kept? ==> !w[i].bare)
  }

  lemma {:induction false} InDoubleCharMarks(c: char)
    ensures var one := InDoubleChar(c);
      && After(Double, one) == Double && NoneIsBare(Marks(Double, one)) && Letters(Marks(Double, one)) == [c]
  {
    if c == '"' || c == '\\' {
      MarksOfTwo(Double, '\\', c);
      LettersOfTwo(Quoting, Kept(c, false));
    } else {
      MarksOfOne(Double, c);
      assert [Kept(c, false)][1..] == [];
    }
  }

  lemma {:induction false} InDoubleMarks(word: string)
    ensures After(Double, InDouble(word)) == Double && NoneIsBare(Marks(Double, InDouble(word)))
    ensures Letters(Marks(Double, InDouble(word))) == word
  {
    if word != "" {
      var c, rest := word[0], InDouble(word[1..]);
      var one := InDoubleChar(c);
      InDoubleMarks(word[1..]);
      MarksSplit(Double, one, rest);
      InDoubleCharMarks(c);
      LettersSplit(Marks(Double, one), Marks(Double, rest));
      assert word == [c] + word[1..];
    }
  }

  lemma {:induction false} JoinText(a: string, b: string, c: string)
    ensures (a + b) + c == a + (b + c)
  {
  }

  lemma {:induction false} LettersSplit(u: seq<Mark>, w: seq<Mark>)
    ensures Letters(u + w) == Letters(u) + Letters(w)
  {
    if u == [] {
      assert u + w == w;
    } else {
      assert (u + w)[0] == u[0] && (u + w)[1..] == u[1..] + w;
      LettersSplit(u[1..], w);
      JoinText(if u[0].Kept? then [u[0].c] else [], Letters(u[1..]), Letters(w));
    }
  }

  /** Without bare parentheses all that is kept is the text. */
  lemma {:induction false} NoneIsDropped(w: seq<Mark>)
    requires NoneIsBare(w)
    ensures TokenText(w) == Letters(w) && Break !in w
  {
    if w != [] { NoneIsDropped(w[1..]); }
  }

  lemma {:induction false} DoubleQuotedSpelling(word: string)
    ensures IsSpelling(DoubleQuoted(word), word)
  {
    var inside := InDouble(word);
    var w, mid, end := Marks(Plain, DoubleQuoted(word)), Marks(Double, inside), Marks(Double, ['"']);
    InDoubleMarks(word);
    MarksSplit(Double, inside, ['"']);
    assert DoubleQuoted(word)[1..] == inside + ['"'] && ['"'][1..] == "";
    assert w == [Quoting] + (mid + end) && end == [Quoting];
    assert w[1..] == mid + end;
    LettersSplit(mid, end);
    assert end[1..] == [];
    NoneIsDropped(w);
  }

  lemma {:induction false} InSingleMarks(word: string)
    ensures After(Single, Escaped(word)) == Single && NoneIsBare(Marks(Single, Escaped(word)))
    ensures Letters(Marks(Single, Escaped(word))) == word
  {
    if word != "" {
      var c, rest := word[0], Escaped(word[1..]);
      var one := EscapedChar(c);
      InSingleMarks(word[1..]);
      MarksSplit(Single, one, rest);
      EscapedCharMarks(c);
      LettersSplit(Marks(Single, one), Marks(Single, rest));
      assert word == [c] + word[1..];
    }
  }

  lemma {:induction false} EscapedCharMarks(c: char)
    ensures var one := EscapedChar(c);
      && After(Single, one) == Single && NoneIsBare(Marks(Single, one)) && Letters(Marks(Single, one)) == [c]
  {
    var one := EscapedChar(c);
    if c == '\'' {
      MarksSplit(Single, ['\'', '\\'], ['\'', '\'']);
      assert one == ['\'', '\\'] + ['\'', '\''];
      MarksOfTwo(Single, '\'', '\\');
      MarksOfTwo(EscapedPlain, '\'', '\'');
      LettersSplit([Quoting, Quoting], [Kept('\'', false), Quoting]);
      LettersOfTwo(Quoting, Quoting);
      LettersOfTwo(Kept('\'', false), Quoting);
    } else {
      MarksOfOne(Single, c);
      assert [Kept(c, false)][1..] == [];
    }
  }

  lemma {:induction false} SingleQuotedSpelling(word: string)
    ensures IsSpelling(Quoted(word), word)
  {
    var inside := Escaped(word);
    var w, mid, end := Marks(Plain, Quoted(word)), Marks(Single, inside), Marks(Single, ['\'']);
    InSingleMarks(word);
    MarksSplit(Single, inside, ['\'']);
    assert Quoted(word)[1..] == inside + ['\''] && ['\''][1..] == "";
    assert w == [Quoting] + (mid + end) && end == [Quoting];
    assert w[1..] == mid + end;
    LettersSplit(mid, end);
    assert end[1..] == [];
    NoneIsDropped(w);
  }

  // ---------- the operator at the end ----------

  predicate IsBareSpace(k: Option<char>) { k.Some? && IsSpace(k.value) }

  predicate IsBareOperator(k: Option<char>) { k.Some? && IsOperator(k.value) }

  predicate OnlySpaces(v: seq<Option<char>>, begin: nat) {
    forall j :: begin <= j < |v| ==> IsBareSpace(v[j])
  }

  /** The last thing before any whitespace at the end is an operator; whitespace counts unless there is no token. */
  ghost predicate EndsInOperator(v: seq<Option<char>>, tokens: seq<string>) {
    exists p: nat :: p < |v| && IsBareOperator(v[p]) && OnlySpaces(v, p + 1) && (p + 1 == |v| || tokens == [])
  }

  /** The state that the invariant of the loop allows: after an operator there is no token and no quote. */
  predicate IsSettled(m: Mode, x: Scan) {
    x.lastOperator ==> m == Plain && x.token == ""
  }

  lemma {:induction false} EndsLater(v: seq<Option<char>>, tokens: seq<string>)
    requires v != []
    ensures EndsInOperator(v, tokens) <==>
      || EndsInOperator(v[1..], tokens)
      || (IsBareOperator(v[0]) && OnlySpaces(v[1..], 0) && (|v| == 1 || tokens == []))
  {
    var rest := v[1..];
    assert forall j :: 0 <= j < |rest| ==> rest[j] == v[j + 1];
    if EndsInOperator(v, tokens) {
      var p: nat :| p < |v| && IsBareOperator(v[p]) && OnlySpaces(v, p + 1) && (p + 1 == |v| || tokens == []);
      if p > 0 { assert IsBareOperator(rest[p - 1]) && OnlySpaces(rest, p); }
    }
    if EndsInOperator(rest, tokens) {
      var p: nat :| p < |rest| && IsBareOperator(rest[p]) && OnlySpaces(rest, p + 1) &&
        (p + 1 == |rest| || tokens == []);
      assert IsBareOperator(v[p + 1]);
      assert OnlySpaces(v, p + 2) by {
        forall j | p + 2 <= j < |v| ensures IsBareSpace(v[j]) { assert v[j] == rest[j - 1]; }
      }
    }
    if OnlySpaces(rest, 0) {
      forall j | 1 <= j < |v| ensures IsBareSpace(v[j]) { assert v[j] == rest[j - 1]; }
    }
  }

  lemma {:induction false} TakeGrows(a: Acc, w: seq<Mark>)
    ensures a.tokens <= TakeAll(a, w).tokens
    decreases |w|
  {
    if w != [] { TakeGrows(Take(a, w[0]), w[1..]); }
  }

  lemma {:induction false} TokensGrow(s: string, m: Mode, x: Scan)
    ensures x.tokens <= Flush(x).tokens && Flush(x).tokens <= Flush(Flush(x)).tokens
    ensures x.tokens <= Flush(ScanRest(s, m, x).1).tokens
  {
    ScanTakes(s, m, x);
    TakeGrows(AccOf(x), Marks(m, s));
  }

  /** What a step does to the flag, from what is seen of the character. */
  ghost predicate Settles(x: Scan, seen: Option<char>, next: Option<char>, m': Mode, x': Scan, both: bool) {
    && IsSettled(m', x')
    && (IsBareOperator(seen) ==> x'.lastOperator && (both ==> IsBareOperator(next)))
    && (IsBareSpace(seen) ==> !both && (x'.lastOperator <==> x.lastOperator && x'.tokens == []))
    && (IsBareSpace(seen) ==> x'.token == "" && (x.lastOperator ==> x'.tokens == x.tokens))
    && (!IsBareOperator(seen) && !IsBareSpace(seen) ==> !x'.lastOperator && (both ==> next == Some('(')))
  }

  lemma {:induction false} OperatorSettles(x: Scan, c: char, next: Option<char>)
    requires IsOperator(c)
    ensures var (y, both) := OperatorStep(x, c, next); Settles(x, Some(c), next, Plain, y, both)
  {
  }

  lemma {:induction false} GroupingSettles(x: Scan, c: char, next: Option<char>)
    requires IsGrouping(c)
    ensures var (y, both) := GroupingStep(x, c, next); Settles(x, Some(c), next, Plain, y, both)
  {
    assert !IsOperator(c) && !IsSpace(c);
  }

  lemma {:induction false} TextSettles(x: Scan, c: char, next: Option<char>)
    requires !IsGrouping(c) && !IsOperator(c) && IsSettled(Plain, x)
    ensures Settles(x, Some(c), next, Plain, TextStep(x, c), false)
  {
    assert Trim("") == "";
  }

  lemma {:induction false} QuotedSettles(m: Mode, x: Scan, c: char, next: Option<char>)
    requires m != Plain && IsSettled(m, x)
    ensures var (m', x', both) := Step(m, x, c, next); Settles(x, None, next, m', x', both)
  {
  }

  lemma {:induction false} StepSettles(m: Mode, x: Scan, c: char, next: Option<char>)
    requires IsSettled(m, x)
    ensures var (m', x', both) := Step(m, x, c, next);
      Settles(x, if m == Plain && Next(m, c) == Plain then Some(c) else None, next, m', x', both)
  {
    if m != Plain {
      QuotedSettles(m, x, c, next);
    } else if IsGrouping(c) {
      GroupingSettles(x, c, next);
    } else if IsOperator(c) {
      OperatorSettles(x, c, next);
    } else if Next(Plain, c) == Plain {
      TextSettles(x, c, next);
    }
  }

  /** What the flag says at the end, from where it was. */
  ghost predicate Trails(v: seq<Option<char>>, last: bool, tokens: seq<string>) {
    (last && OnlySpaces(v, 0) && (v == [] || tokens == [])) || EndsInOperator(v, tokens)
  }

  lemma {:induction false} TrailsNext(v: seq<Option<char>>, last: bool, next: bool, tokens: seq<string>)
    requires v != []
    requires IsBareOperator(v[0]) ==> next
    requires IsBareSpace(v[0]) && tokens == [] ==> next == last
    requires IsBareSpace(v[0]) && next ==> last && (|v| == 1 ==> tokens == [])
    requires !IsBareOperator(v[0]) && !IsBareSpace(v[0]) ==> !next
    ensures Trails(v, last, tokens) <==> Trails(v[1..], next, tokens)
  {
    EndsLater(v, tokens);
    var rest := v[1..];
    assert forall j :: 0 <= j < |rest| ==> rest[j] == v[j + 1];
    if OnlySpaces(rest, 0) {
      forall j | 1 <= j < |v| ensures IsBareSpace(v[j]) { assert v[j] == rest[j - 1]; }
    }
    if OnlySpaces(v, 0) {
      forall j | 0 <= j < |rest| ensures IsBareSpace(rest[j]) { assert v[j + 1] == rest[j]; }
    }
  }

  lemma {:induction false} TrailsPair(v: seq<Option<char>>, last: bool, now: bool, tokens: seq<string>)
    requires |v| >= 2 && !IsBareSpace(v[0])
    requires if IsBareOperator(v[0]) then now && IsBareOperator(v[1]) else !now && v[1] == Some('(')
    ensures Trails(v, last, tokens) <==> Trails(v[2..], now, tokens)
  {
    TrailsNext(v, last, now, tokens);
    TrailsNext(v[1..], now, now, tokens);
    assert v[1..][1..] == v[2..];
  }

  lemma {:induction false} ScanTrails(s: string, m: Mode, x: Scan)
    requires IsSettled(m, x)
    ensures var y := ScanRest(s, m, x).1; y.lastOperator <==> Trails(View(m, s), x.lastOperator, Flush(y).tokens)
    decreases |s|
  {
    var v, tokens := View(m, s), Flush(ScanRest(s, m, x).1).tokens;
    if s != [] {
      var rest, next := s[1..], Peek(s[1..]);
      var (m', x', both) := Step(m, x, s[0], next);
      StepSees(m, x, s[0], next);
      StepSettles(m, x, s[0], next);
      ViewOfOne(s, m);
      if both {
        StepTakes(m, x, s[0], next);
        ViewOfOne(rest, Plain);
        assert rest[1..] == s[2..];
        ScanTrails(s[2..], m', x');
        TrailsPair(v, x.lastOperator, x'.lastOperator, tokens);
      } else {
        ScanTrails(rest, m', x');
        SpaceIsNext(rest, m', x', v[0], x);
        TrailsNext(v, x.lastOperator, x'.lastOperator, tokens);
      }
    }
  }

  /** Past whitespace the flag stays as it was, when in the end there is no token. */
  lemma {:induction false} SpaceIsNext(rest: string, m: Mode, x: Scan, seen: Option<char>, before: Scan)
    requires IsBareSpace(seen) ==> (x.lastOperator <==> before.lastOperator && x.tokens == []) && x.token == ""
    ensures var tokens := Flush(ScanRest(rest, m, x).1).tokens;
      && (IsBareSpace(seen) && tokens == [] ==> x.lastOperator == before.lastOperator)
      && (IsBareSpace(seen) && x.lastOperator && rest == [] ==> tokens == [])
  {
    TokensGrow(rest, m, x);
    assert Trim("") == "";
  }

  /**
   * A command ends in an operator, as the scanner has it, exactly when a bare operator is the last character, or only
   * bare whitespace follows it and there is no token at all.
   */
  lemma {:induction false} TrailingExplained(s: string)
    ensures ScanOf(s).trailingOperator <==> EndsInOperator(View(Plain, s), ScanOf(s).tokens)
  {
    ScanTrails(s, Plain, EMPTY);
  }

  /**
   * A warning for each closing parenthesis that nothing opened, and one each for open quotes, open groups and an
   * operator at the end.
   */
  lemma {:induction false} WarningsExplained(s: string)
    ensures var r, (depth, stray) := ScanOf(s), Walk(Parens(View(Plain, s)), 0, 0);
      r.warnings == stray + (if r.unbalancedQuotes then 1 else 0) + (if depth > 0 then 1 else 0) +
        (if r.trailingOperator then 1 else 0)
  {
    ScanFollowsAutomaton(s, Plain, EMPTY);
    DepthMeans(View(Plain, s), FlagsOf(EMPTY));
  }

  // ---------- assignments before the command ----------

  predicate IsNameChar(c: char) {
    ('a' <= c <= 'z') || ('A' <= c <= 'Z') || ('0' <= c <= '9') || c == '_'
  }

  /** A name that does not begin with a digit, up to an equals sign. */
  predicate IsNamed(token: string, n: nat) {
    && 0 < n < |token| && token[n] == '=' && !('0' <= token[0] <= '9')
    && forall k :: 0 <= k < n ==> IsNameChar(token[k])
  }

  /** A token is an assignment exactly when it begins with a name and an equals sign. */
  lemma {:induction false} AssignmentMeans(token: string)
    ensures IsEnvAssignment(token) <==> exists n: nat :: IsNamed(token, n)
  {
    if n: nat :| IsNamed(token, n) { NameIsAssignment(token, n); }
    if IsEnvAssignment(token) { AssignmentHasName(token); }
  }

  lemma {:induction false} NameIsAssignment(token: string, n: nat)
    requires IsNamed(token, n)
    ensures IsEnvAssignment(token)
  {
    assert token[n..n + 1] == "=";
    forall j: nat | j < n ensures !OccursAt(token, "=", j) {
      assert IsNameChar(token[j]) && token[j..j + 1][0] == token[j];
    }
    FoundAt(token, "=", n);
    assert IsNameChar(token[0]);
  }

  lemma {:induction false} AssignmentHasName(token: string)
    requires IsEnvAssignment(token)
    ensures exists n: nat :: IsNamed(token, n)
  {
    FindIsLeftmost(token, "=");
    var n := Find(token, "=").value;
    var name := token[..n];
    assert token[n..n + 1] == "=" && token[n..n + 1][0] == token[n];
    forall k | 0 <= k < n ensures IsNameChar(token[k]) { assert name[k] == token[k]; }
    assert IsNamed(token, n);
  }
}
