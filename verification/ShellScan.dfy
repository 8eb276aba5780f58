/** The shell scanner of the safety layer (crates/termlm-safety/src/parse.rs). */
module ShellScan {
  import opened Wrappers
  import opened Text

  // ---------- the scanner ----------

  /** Which of the three booleans of the loop are set; an escape remembers where it was met. */
  datatype Mode = Plain | Single | Double | EscapedPlain | EscapedDouble

  datatype Scan = Scan(
    token: string, tokens: seq<string>,
    pipeline: bool, control: bool, redirection: bool, substitution: bool, grouping: bool,
    depth: nat, strayClose: nat, lastOperator: bool)

  const EMPTY := Scan("", [], false, false, false, false, false, 0, 0, false)

  function Flush(x: Scan): Scan {
    var t := Trim(x.token);
    x.(token := "", tokens := if t == "" then x.tokens else x.tokens + [t])
  }

  predicate IsOperator(c: char) { c == '|' || c == '&' || c == ';' || c == '>' || c == '<' }

  predicate IsGrouping(c: char) { c == '$' || c == '(' || c == ')' }

  /** An operator ends the token; the second value says whether the next character is taken along. */
  function OperatorStep(x: Scan, c: char, next: Option<char>): (Scan, bool) {
    var y := Flush(x).(lastOperator := true);
    if c == '|' then
      if next == Some('|') then (y.(control := true), true) else (y.(pipeline := true), false)
    else if c == '&' then (y.(control := true), next == Some('&'))
    else if c == ';' then (y.(control := true), false)
    else (y.(redirection := true), next == Some('>') || next == Some('<'))
  }

  function GroupingStep(x: Scan, c: char, next: Option<char>): (Scan, bool) {
    var y := x.(lastOperator := false);
    if c == '$' then
      if next == Some('(') then
        (y.(substitution := true, grouping := true, depth := x.depth + 1, token := x.token + "$("), true)
      else (y.(token := x.token + [c]), false)
    else
      var z := y.(grouping := true, token := if x.token == "" then "" else x.token + [c]);
      if c == '(' then (z.(depth := x.depth + 1), false)
      else if x.depth == 0 then (z.(strayClose := x.strayClose + 1), false)
      else (z.(depth := x.depth - 1), false)
  }

  function TextStep(x: Scan, c: char): Scan {
    if IsSpace(c) then
      var y := Flush(x);
      if y.tokens == [] then y else y.(lastOperator := false)
    else x.(token := x.token + [c], lastOperator := false)
  }

  /** One turn of the loop outside quotes. */
  function PlainStep(x: Scan, c: char, next: Option<char>): (Mode, Scan, bool) {
    if c == '\\' then (EscapedPlain, x.(lastOperator := false), false)
    else if c == '\'' then (Single, x.(lastOperator := false), false)
    else if c == '"' then (Double, x.(lastOperator := false), false)
    else if IsGrouping(c) then var (y, both) := GroupingStep(x, c, next); (Plain, y, both)
    else if IsOperator(c) then var (y, both) := OperatorStep(x, c, next); (Plain, y, both)
    else (Plain, TextStep(x, c), false)
  }

  function Step(m: Mode, x: Scan, c: char, next: Option<char>): (r: (Mode, Scan, bool))
    ensures r.2 ==> next.Some?
  {
    match m
    case EscapedPlain => (Plain, x.(token := x.token + [c], lastOperator := false), false)
    case EscapedDouble => (Double, x.(token := x.token + [c], lastOperator := false), false)
    case Single => if c == '\'' then (Plain, x, false) else (Single, x.(token := x.token + [c]), false)
    case Double =>
      if c == '"' then (Plain, x, false)
      else if c == '\\' then (EscapedDouble, x, false)
      else (Double, x.(token := x.token + [c]), false)
    case Plain => PlainStep(x, c, next)
  }

  function Peek(s: string): Option<char> {
    if s == [] then None else Some(s[0])
  }

  /** The loop from here to the end of the text. */
  function ScanRest(s: string, m: Mode, x: Scan): (Mode, Scan)
    decreases |s|
  {
    if s == [] then (m, x) else
      var (m', x', both) := Step(m, x, s[0], Peek(s[1..]));
      ScanRest(s[if both then 2 else 1..], m', x')
  }

  datatype ScanResult = ScanResult(
    tokens: seq<string>,
    hasPipeline: bool, hasControlOperators: bool, hasRedirection: bool, hasCommandSubstitution: bool, hasGrouping: bool,
    trailingOperator: bool, unbalancedQuotes: bool, unbalancedGrouping: bool, warnings: nat)

  function Result(m: Mode, x: Scan): ScanResult {
    var quotes, open := m != Plain, x.depth > 0;
    ScanResult(Flush(x).tokens, x.pipeline, x.control, x.redirection, x.substitution, x.grouping,
               x.lastOperator, quotes, x.strayClose > 0 || open,
               x.strayClose + (if quotes then 1 else 0) + (if open then 1 else 0) + (if x.lastOperator then 1 else 0))
  }

  function ScanOf(s: string): ScanResult {
    var (m, x) := ScanRest(s, Plain, EMPTY);
    Result(m, x)
  }

  function ModeOf(inSingle: bool, inDouble: bool, escaped: bool): Mode {
    if escaped then (if inDouble then EscapedDouble else EscapedPlain)
    else if inSingle then Single
    else if inDouble then Double
    else Plain
  }

  /** The loop with its own variables: three booleans for the quoting and a scan updated in place. */
  method ScanShell(input: string) returns (r: ScanResult)
    ensures r == ScanOf(input)
  {
    var out := EMPTY;
    var inSingle, inDouble, escaped := false, false, false;
    var i := 0;
    ghost var all := ScanRest(input, Plain, EMPTY);
    assert input[0..] == input;
    while i < |input|
      invariant 0 <= i <= |input|
      invariant !(inSingle && (inDouble || escaped))
      invariant ScanRest(input[i..], ModeOf(inSingle, inDouble, escaped), out) == all
      decreases |input| - i
    {
      var ch := input[i];
      ghost var rest, mode, before := input[i..], ModeOf(inSingle, inDouble, escaped), out;
      assert rest[1..] == input[i + 1..] && (|rest| > 1 ==> rest[2..] == input[i + 2..]);
      i := i + 1;
      if escaped {
        out := out.(token := out.token + [ch], lastOperator := false);
        escaped := false;
        continue;
      }
      if inSingle {
        if ch == '\'' {
          inSingle := false;
        } else {
          out := out.(token := out.token + [ch]);
        }
        continue;
      }
      if inDouble {
        if ch == '"' {
          inDouble := false;
        } else if ch == '\\' {
          escaped := true;
        } else {
          out := out.(token := out.token + [ch]);
        }
        continue;
      }
      var next, both := Peek(input[i..]), false;
      if ch == '\\' {
        escaped := true;
        out := out.(lastOperator := false);
      } else if ch == '\'' {
        inSingle := true;
        out := out.(lastOperator := false);
      } else if ch == '"' {
        inDouble := true;
        out := out.(lastOperator := false);
      } else if IsOperator(ch) {
        out, both := ScanOperator(out, ch, next);
      } else if IsGrouping(ch) {
        out, both := ScanGrouping(out, ch, next);
      } else if IsSpace(ch) {
        out := Flush(out);
        if out.tokens != [] {
          out := out.(lastOperator := false);
        }
      } else {
        out := out.(token := out.token + [ch], lastOperator := false);
      }
      if both {
        i := i + 1;
      }
    }
    assert input[i..] == [];
    r := Result(ModeOf(inSingle, inDouble, escaped), out);
  }

  /** The arms for operators. */
  method ScanOperator(x: Scan, ch: char, next: Option<char>) returns (out: Scan, both: bool)
    requires IsOperator(ch)
    ensures (out, both) == OperatorStep(x, ch, next)
  {
    out, both := Flush(x), false;
    if ch == '|' {
      if next == Some('|') {
        both := true;
        out := out.(control := true);
      } else {
        out := out.(pipeline := true);
      }
    } else if ch == '&' {
      both := next == Some('&');
      out := out.(control := true);
    } else if ch == ';' {
      out := out.(control := true);
    } else {
      out := out.(redirection := true);
      both := next == Some('>') || next == Some('<');
    }
    out := out.(lastOperator := true);
  }

  /** The arms for `$` and parentheses. */
  method ScanGrouping(x: Scan, ch: char, next: Option<char>) returns (out: Scan, both: bool)
    requires IsGrouping(ch)
    ensures (out, both) == GroupingStep(x, ch, next)
  {
    if ch == '$' {
      out, both := ScanDollar(x, next);
    } else {
      out := ScanParen(x, ch);
      both := false;
    }
    out := out.(lastOperator := false);
  }

  method ScanDollar(x: Scan, next: Option<char>) returns (out: Scan, both: bool)
    ensures out == if next == Some('(') then
      x.(substitution := true, grouping := true, depth := x.depth + 1, token := x.token + "$(")
                   else x.(token := x.token + "$")
    ensures both == (next == Some('('))
  {
    out, both := x, false;
    if next == Some('(') {
      out := out.(substitution := true, grouping := true, depth := out.depth + 1, token := out.token + "$(");
      both := true;
    } else {
      out := out.(token := out.token + "$");
    }
  }

  method ScanParen(x: Scan, ch: char) returns (out: Scan)
    ensures var z := x.(grouping := true, token := if x.token == "" then "" else x.token + [ch]);
      out == if ch == '(' then z.(depth := x.depth + 1) else if x.depth == 0 then z.(strayClose := x.strayClose + 1)
        else z.(depth := x.depth - 1)
  {
    out := x.(grouping := true);
    if ch == '(' {
      out := out.(depth := out.depth + 1);
    } else if out.depth == 0 {
      out := out.(strayClose := out.strayClose + 1);
    } else {
      out := out.(depth := out.depth - 1);
    }
    if out.token != "" {
      out := out.(token := out.token + [ch]);
    }
  }

  // ---------- the quoting automaton ----------

  /** POSIX quoting: backslash, single quotes, double quotes (Shell Command Language, section 2.2). */
  function Next(m: Mode, c: char): Mode {
    match m
    case EscapedPlain => Plain
    case EscapedDouble => Double
    case Single => if c == '\'' then Plain else Single
    case Double => if c == '"' then Plain else if c == '\\' then EscapedDouble else Double
    case Plain => if c == '\\' then EscapedPlain else if c == '\'' then Single else if c == '"' then Double else Plain
  }

  function After(m: Mode, s: string): Mode
    decreases |s|
  {
    if s == [] then m else After(Next(m, s[0]), s[1..])
  }

  /** What the automaton leaves in view: the characters that are neither quoted nor quoting. */
  function View(m: Mode, s: string): (r: seq<Option<char>>)
    ensures |r| == |s|
    decreases |s|
  {
    if s == [] then [] else
      [if m == Plain && Next(m, s[0]) == Plain then Some(s[0]) else None] + View(Next(m, s[0]), s[1..])
  }

  // ---------- what the flags mean ----------

  datatype Flags = Flags(pipeline: bool, control: bool, redirection: bool, substitution: bool, grouping: bool,
    depth: nat, strayClose: nat)

  function FlagsOf(x: Scan): Flags {
    Flags(x.pipeline, x.control, x.redirection, x.substitution, x.grouping, x.depth, x.strayClose)
  }

  function SeeOperator(f: Flags, c: char, next: Option<char>): (Flags, bool) {
    if c == '|' then if next == Some('|') then (f.(control := true), true) else (f.(pipeline := true), false)
    else if c == '&' then (f.(control := true), next == Some('&'))
    else if c == ';' then (f.(control := true), false)
    else (f.(redirection := true), next == Some('>') || next == Some('<'))
  }

  function SeeGrouping(f: Flags, c: char, next: Option<char>): (Flags, bool) {
    if c == '$' then
      if next == Some('(') then (f.(substitution := true, grouping := true, depth := f.depth + 1), true) else (f, false)
    else if c == '(' then (f.(grouping := true, depth := f.depth + 1), false)
    else if f.depth == 0 then (f.(grouping := true, strayClose := f.strayClose + 1), false)
    else (f.(grouping := true, depth := f.depth - 1), false)
  }

  /** What a visible character does to the flags, and whether the visible one after it is taken along. */
  function See(f: Flags, c: char, next: Option<char>): (r: (Flags, bool))
    ensures r.1 ==> next.Some?
  {
    if IsGrouping(c) then SeeGrouping(f, c, next)
    else if IsOperator(c) then SeeOperator(f, c, next)
    else (f, false)
  }

  function SecondOf(v: seq<Option<char>>): Option<char> {
    if |v| > 1 then v[1] else None
  }

  function SeeAll(v: seq<Option<char>>, f: Flags): Flags
    decreases |v|
  {
    if v == [] then f
    else if v[0] == None then SeeAll(v[1..], f)
    else
      var (f', both) := See(f, v[0].value, SecondOf(v));
      SeeAll(v[if both then 2 else 1..], f')
  }

  lemma {:induction false} OperatorSees(x: Scan, c: char, next: Option<char>)
    ensures var (y, both) := OperatorStep(x, c, next); SeeOperator(FlagsOf(x), c, next) == (FlagsOf(y), both)
  {
    assert FlagsOf(Flush(x)) == FlagsOf(x);
  }

  lemma {:induction false} GroupingSees(x: Scan, c: char, next: Option<char>)
    ensures var (y, both) := GroupingStep(x, c, next); SeeGrouping(FlagsOf(x), c, next) == (FlagsOf(y), both)
  {
  }

  lemma {:induction false} TextSees(x: Scan, c: char)
    ensures FlagsOf(TextStep(x, c)) == FlagsOf(x)
  {
    assert FlagsOf(Flush(x)) == FlagsOf(x);
  }

  lemma {:induction false} QuotedSees(m: Mode, x: Scan, c: char, next: Option<char>)
    requires m != Plain
    ensures var (m', x', both) := Step(m, x, c, next); m' == Next(m, c) && FlagsOf(x') == FlagsOf(x) && !both
  {
  }

  lemma {:induction false} PlainSees(x: Scan, c: char, next: Option<char>)
    ensures var (m', x', both) := PlainStep(x, c, next);
      && m' == Next(Plain, c)
      && (m' == Plain ==> See(FlagsOf(x), c, next) == (FlagsOf(x'), both))
      && (m' != Plain ==> FlagsOf(x') == FlagsOf(x) && !both)
  {
    if IsGrouping(c) {
      GroupingSees(x, c, next);
    } else if IsOperator(c) {
      OperatorSees(x, c, next);
    } else if Next(Plain, c) == Plain {
      TextSees(x, c);
    }
  }

  lemma {:induction false} StepSees(m: Mode, x: Scan, c: char, next: Option<char>)
    ensures var (m', x', both) := Step(m, x, c, next);
      && m' == Next(m, c)
      && (m == m' == Plain ==> See(FlagsOf(x), c, next) == (FlagsOf(x'), both))
      && (!(m == m' == Plain) ==> FlagsOf(x') == FlagsOf(x) && !both)
  {
    if m == Plain { PlainSees(x, c, next); } else { QuotedSees(m, x, c, next); }
  }

  /** Only operators and grouping look ahead, and for characters that do not quote. */
  lemma {:induction false} LooksAtBare(f: Flags, c: char, next: Option<char>)
    ensures next.Some? && Next(Plain, next.value) != Plain ==> See(f, c, next) == See(f, c, None)
    ensures See(f, c, next).1 ==> next.Some? && Next(Plain, next.value) == Plain
  {
  }

  lemma {:induction false} ViewOfOne(s: string, m: Mode)
    requires s != []
    ensures var v := View(m, s);
      v[1..] == View(Next(m, s[0]), s[1..]) &&
        v[0] == (if m == Plain && Next(m, s[0]) == Plain then Some(s[0]) else None)
  {
  }

  /**
   * The scanner ends in the mode of the automaton, with flags that depend only on what the automaton leaves in view.
   */
  lemma {:induction false} ScanFollowsAutomaton(s: string, m: Mode, x: Scan)
    ensures ScanRest(s, m, x).0 == After(m, s)
    ensures FlagsOf(ScanRest(s, m, x).1) == SeeAll(View(m, s), FlagsOf(x))
    decreases |s|
  {
    if s != [] {
      var c, rest, next := s[0], s[1..], Peek(s[1..]);
      var (m', x', both) := Step(m, x, c, next);
      StepSees(m, x, c, next);
      LooksAtBare(FlagsOf(x), c, next);
      ViewOfOne(s, m);
      if rest != [] { ViewOfOne(rest, m'); }
      if both {
        assert rest[1..] == s[2..] && View(m, s)[2..] == View(m, s)[1..][1..];
        ScanFollowsAutomaton(s[2..], m', x');
      } else {
        ScanFollowsAutomaton(rest, m', x');
      }
    }
  }

  // ---------- the flags, read off the view ----------

  predicate Sees(v: seq<Option<char>>, c: char) { Some(c) in v }

  predicate PairAt(v: seq<Option<char>>, a: char, b: char, j: nat) {
    j + 1 < |v| && v[j] == Some(a) && v[j + 1] == Some(b)
  }

  ghost predicate SeesPair(v: seq<Option<char>>, a: char, b: char) {
    exists j: nat :: PairAt(v, a, b, j)
  }

  /** A maximal stretch of visible bars. */
  predicate IsBarRun(v: seq<Option<char>>, a: nat, b: nat) {
    && a < b <= |v|
    && (forall j :: a <= j < b ==> v[j] == Some('|'))
    && (a > 0 ==> v[a - 1] != Some('|'))
    && (b < |v| ==> v[b] != Some('|'))
  }

  ghost predicate SeesOddBarRun(v: seq<Option<char>>) {
    exists a: nat, b: nat :: IsBarRun(v, a, b) && (b - a) % 2 == 1
  }

  function Paren(o: Option<char>): string {
    if o == Some('(') || o == Some(')') then [o.value] else []
  }

  /** The visible parentheses. */
  function Parens(v: seq<Option<char>>): string {
    if v == [] then [] else Paren(v[0]) + Parens(v[1..])
  }

  lemma {:induction false} SeesLater(v: seq<Option<char>>, c: char)
    requires v != []
    ensures Sees(v, c) <==> v[0] == Some(c) || Sees(v[1..], c)
  {
    assert v == [v[0]] + v[1..];
  }

  lemma {:induction false} PairLater(v: seq<Option<char>>, a: char, b: char)
    requires v != []
    ensures SeesPair(v, a, b) <==> (v[0] == Some(a) && SecondOf(v) == Some(b)) || SeesPair(v[1..], a, b)
  {
    if SeesPair(v[1..], a, b) {
      var j: nat :| PairAt(v[1..], a, b, j);
      assert PairAt(v, a, b, j + 1);
    }
    if SeesPair(v, a, b) {
      var j: nat :| PairAt(v, a, b, j);
      if j > 0 { assert PairAt(v[1..], a, b, j - 1); }
    }
    if v[0] == Some(a) && SecondOf(v) == Some(b) { assert PairAt(v, a, b, 0); }
  }

  lemma {:induction false} ControlMeans(v: seq<Option<char>>, f: Flags)
    ensures SeeAll(v, f).control <==> f.control || Sees(v, '&') || Sees(v, ';') || SeesPair(v, '|', '|')
    decreases |v|
  {
    if v != [] {
      SeesLater(v, '&'); SeesLater(v, ';'); PairLater(v, '|', '|');
      if v[0] == None {
        ControlMeans(v[1..], f);
      } else {
        var (f', both) := See(f, v[0].value, SecondOf(v));
        if both {
          SeesLater(v[1..], '&'); SeesLater(v[1..], ';'); PairLater(v[1..], '|', '|');
          assert v[1..][1..] == v[2..];
          ControlMeans(v[2..], f');
        } else {
          ControlMeans(v[1..], f');
        }
      }
    }
  }

  lemma {:induction false} RedirectionSeen(f: Flags, c: char, next: Option<char>)
    ensures var (f', both) := See(f, c, next);
      && (f'.redirection <==> f.redirection || c == '<' || c == '>')
      && (both && (next == Some('<') || next == Some('>')) ==> c == '<' || c == '>')
  {
    if IsGrouping(c) {
      assert See(f, c, next) == SeeGrouping(f, c, next);
    } else if IsOperator(c) {
      assert See(f, c, next) == SeeOperator(f, c, next);
    }
  }

  lemma {:induction false} RedirectionMeans(v: seq<Option<char>>, f: Flags)
    ensures SeeAll(v, f).redirection <==> f.redirection || Sees(v, '<') || Sees(v, '>')
    decreases |v|
  {
    if v != [] {
      SeesLater(v, '<');
      SeesLater(v, '>');
      if v[0] == None {
        RedirectionMeans(v[1..], f);
      } else {
        RedirectionSeen(f, v[0].value, SecondOf(v));
        var (f', both) := See(f, v[0].value, SecondOf(v));
        RedirectionMeans(v[if both then 2 else 1..], f');
        if both {
          SeesLater(v[1..], '<');
          SeesLater(v[1..], '>');
          assert v[1..][1..] == v[2..];
        }
      }
    }
  }

  lemma {:induction false} PairTwoLater(v: seq<Option<char>>, a: char, b: char)
    requires |v| > 1
    ensures SeesPair(v, a, b) <==>
      || (v[0] == Some(a) && v[1] == Some(b))
      || (v[1] == Some(a) && SecondOf(v[1..]) == Some(b))
      || SeesPair(v[2..], a, b)
  {
    PairLater(v, a, b);
    PairLater(v[1..], a, b);
    assert v[1..][1..] == v[2..];
  }

  lemma {:induction false} SubstitutionMeans(v: seq<Option<char>>, f: Flags)
    ensures SeeAll(v, f).substitution <==> f.substitution || SeesPair(v, '$', '(')
    decreases |v|
  {
    if v != [] {
      PairLater(v, '$', '(');
      if v[0] == None {
        SubstitutionMeans(v[1..], f);
      } else {
        var (f', both) := See(f, v[0].value, SecondOf(v));
        if both {
          PairTwoLater(v, '$', '(');
          SubstitutionMeans(v[2..], f');
        } else {
          SubstitutionMeans(v[1..], f');
        }
      }
    }
  }

  lemma {:induction false} GroupingMeans(v: seq<Option<char>>, f: Flags)
    ensures SeeAll(v, f).grouping <==> f.grouping || Sees(v, '(') || Sees(v, ')')
    decreases |v|
  {
    if v != [] {
      SeesLater(v, '('); SeesLater(v, ')');
      if v[0] == None {
        GroupingMeans(v[1..], f);
      } else {
        var (f', both) := See(f, v[0].value, SecondOf(v));
        if both {
          SeesLater(v[1..], '('); SeesLater(v[1..], ')');
          assert v[1..][1..] == v[2..];
          GroupingMeans(v[2..], f');
        } else {
          GroupingMeans(v[1..], f');
        }
      }
    }
  }

  lemma {:induction false} BarRunShift(v: seq<Option<char>>, n: nat, a: nat, b: nat)
    requires n <= |v| && n <= a
    requires a == n && n > 0 ==> v[n - 1] != Some('|')
    ensures IsBarRun(v, a, b) <==> b >= n && IsBarRun(v[n..], a - n, b - n)
  {
    if a < b <= |v| {
      assert forall j :: n <= j < |v| ==> v[n..][j - n] == v[j];
      assert forall j :: 0 <= j < |v| - n ==> v[n..][j] == v[j + n];
    }
  }

  /** Past a character that is no bar, the odd runs are the same. */
  lemma {:induction false} OddRunAfterOther(v: seq<Option<char>>)
    requires v != [] && v[0] != Some('|')
    ensures SeesOddBarRun(v) <==> SeesOddBarRun(v[1..])
  {
    if SeesOddBarRun(v) {
      var a: nat, b: nat :| IsBarRun(v, a, b) && (b - a) % 2 == 1;
      BarRunShift(v, 1, a, b);
    }
    if SeesOddBarRun(v[1..]) {
      var a: nat, b: nat :| IsBarRun(v[1..], a, b) && (b - a) % 2 == 1;
      BarRunShift(v, 1, a + 1, b + 1);
      assert IsBarRun(v, a + 1, b + 1);
    }
  }

  lemma {:induction false} OneBarIsOdd(v: seq<Option<char>>)
    requires v != [] && v[0] == Some('|') && SecondOf(v) != Some('|')
    ensures SeesOddBarRun(v)
  {
    assert IsBarRun(v, 0, 1);
  }

  /** Two bars taken together leave the parity of their run alone. */
  lemma {:induction false} OddRunAfterTwoBars(v: seq<Option<char>>)
    requires |v| > 1 && v[0] == v[1] == Some('|')
    ensures SeesOddBarRun(v) <==> SeesOddBarRun(v[2..])
  {
    var w := v[2..];
    if SeesOddBarRun(v) {
      var a: nat, b: nat :| IsBarRun(v, a, b) && (b - a) % 2 == 1;
      if a == 0 {
        assert b > 2;
        assert forall j :: 0 <= j < |w| ==> w[j] == v[j + 2];
        assert IsBarRun(w, 0, b - 2);
      } else {
        assert a > 1;
        BarRunShift(v, 2, a, b);
      }
    }
    if SeesOddBarRun(w) {
      var a: nat, b: nat :| IsBarRun(w, a, b) && (b - a) % 2 == 1;
      assert forall j :: 2 <= j < |v| ==> v[j] == w[j - 2];
      if a == 0 {
        assert IsBarRun(v, 0, b + 2);
      } else {
        BarRunShift(v, 2, a + 2, b + 2);
        assert IsBarRun(v, a + 2, b + 2);
      }
    }
  }

  lemma {:induction false} PipelineIsOddRun(v: seq<Option<char>>, f: Flags)
    ensures SeeAll(v, f).pipeline <==> f.pipeline || SeesOddBarRun(v)
    decreases |v|
  {
    if v != [] {
      if v[0] != Some('|') { OddRunAfterOther(v); }
      if v[0] == None {
        PipelineIsOddRun(v[1..], f);
      } else {
        var (f', both) := See(f, v[0].value, SecondOf(v));
        if !both {
          if v[0] == Some('|') { OneBarIsOdd(v); }
          PipelineIsOddRun(v[1..], f');
        } else {
          if v[0] == Some('|') {
            OddRunAfterTwoBars(v);
          } else {
            OddRunAfterOther(v[1..]);
            assert v[1..][1..] == v[2..];
          }
          PipelineIsOddRun(v[2..], f');
        }
      }
    }
  }

  // ---------- grouping ----------

  /** A word of parentheses as nesting makes it: nothing, or a pair around a nest followed by a nest. */
  datatype Nest = Nil | Pair(inside: Nest, rest: Nest)

  function Word(t: Nest): string {
    match t
    case Nil => ""
    case Pair(inside, rest) => "(" + Word(inside) + ")" + Word(rest)
  }

  ghost predicate IsBalanced(w: string) {
    exists t :: Word(t) == w
  }

  /** Depth and stray closings after a word of parentheses. */
  function Walk(w: string, depth: nat, stray: nat): (nat, nat) {
    if w == [] then (depth, stray)
    else if w[0] == '(' then Walk(w[1..], depth + 1, stray)
    else if depth == 0 then Walk(w[1..], 0, stray + 1)
    else Walk(w[1..], depth - 1, stray)
  }

  lemma {:induction false} DepthEffect(f: Flags, c: char, next: Option<char>)
    ensures var (f', both) := See(f, c, next);
      && (c == '(' ==> !both && f'.depth == f.depth + 1 && f'.strayClose == f.strayClose)
      && (c == ')' && f.depth == 0 ==> !both && f'.depth == 0 && f'.strayClose == f.strayClose + 1)
      && (c == ')' && f.depth > 0 ==> !both && f'.depth == f.depth - 1 && f'.strayClose == f.strayClose)
      && (c == '$' && next == Some('(') ==> both && f'.depth == f.depth + 1 && f'.strayClose == f.strayClose)
      && (c != '(' && c != ')' && !(c == '$' && next == Some('(')) ==>
            (f'.depth, f'.strayClose) == (f.depth, f.strayClose) && (both ==> Paren(next) == []))
  {
    if IsGrouping(c) {
      assert See(f, c, next) == SeeGrouping(f, c, next);
    } else if IsOperator(c) {
      assert See(f, c, next) == SeeOperator(f, c, next);
    }
  }

  lemma {:induction false} DepthSeen(f: Flags, c: char, next: Option<char>, w: string)
    ensures var (f', both) := See(f, c, next);
      Walk(Paren(Some(c)) + ((if both then Paren(next) else []) + w), f.depth, f.strayClose) ==
        Walk(w, f'.depth, f'.strayClose)
  {
    var both := See(f, c, next).1;
    DepthEffect(f, c, next);
    var word := Paren(Some(c)) + ((if both then Paren(next) else []) + w);
    if c == '(' || c == ')' {
      assert word == [c] + w && word[1..] == w;
    } else if c == '$' && next == Some('(') {
      assert word == ['('] + w && word[1..] == w;
    } else {
      assert word == w;
    }
  }

  lemma {:induction false} WalkSplit(w: string, u: string, depth: nat, stray: nat)
    ensures var (d, s) := Walk(w, depth, stray); Walk(w + u, depth, stray) == Walk(u, d, s)
    decreases |w|
  {
    if w == [] {
      assert w + u == u;
    } else {
      assert (w + u)[1..] == w[1..] + u;
      if w[0] == '(' {
        WalkSplit(w[1..], u, depth + 1, stray);
      } else if depth == 0 {
        WalkSplit(w[1..], u, 0, stray + 1);
      } else {
        WalkSplit(w[1..], u, depth - 1, stray);
      }
    }
  }

  lemma {:induction false} ParensSplit(v: seq<Option<char>>, both: bool)
    requires v != [] && (both ==> |v| >= 2)
    ensures Parens(v) == Paren(v[0]) + ((if both then Paren(v[1]) else []) + Parens(v[if both then 2 else 1..]))
  {
    if both { assert v[1..][1..] == v[2..]; }
  }

  lemma {:induction false} DepthMeans(v: seq<Option<char>>, f: Flags)
    ensures (SeeAll(v, f).depth, SeeAll(v, f).strayClose) == Walk(Parens(v), f.depth, f.strayClose)
    decreases |v|
  {
    if v != [] {
      if v[0] == None {
        assert Parens(v) == Parens(v[1..]);
        DepthMeans(v[1..], f);
      } else {
        var (f', both) := See(f, v[0].value, SecondOf(v));
        var n := if both then 2 else 1;
        DepthSeen(f, v[0].value, SecondOf(v), Parens(v[n..]));
        ParensSplit(v, both);
        DepthMeans(v[n..], f');
      }
    }
  }

  lemma {:induction false} NestReturns(t: Nest, depth: nat, stray: nat)
    ensures Walk(Word(t), depth, stray) == (depth, stray)
  {
    match t
    case Nil =>
    case Pair(inside, rest) =>
      var a, b := Word(inside), ")" + Word(rest);
      assert Word(t) == ['('] + (a + b);
      assert Word(t)[1..] == a + b;
      WalkSplit(a, b, depth + 1, stray);
      NestReturns(inside, depth + 1, stray);
      assert b[1..] == Word(rest);
      NestReturns(rest, depth, stray);
  }

  lemma {:induction false} StrayStays(w: string, depth: nat, stray: nat)
    ensures Walk(w, depth, stray).1 >= stray
    decreases |w|
  {
    if w != [] {
      if w[0] == '(' {
        StrayStays(w[1..], depth + 1, stray);
      } else if depth == 0 {
        StrayStays(w[1..], 0, stray + 1);
      } else {
        StrayStays(w[1..], depth - 1, stray);
      }
    }
  }

  predicate OnlyParens(w: string) {
    forall i :: 0 <= i < |w| ==> w[i] == '(' || w[i] == ')'
  }

  /** Nests one after the other, with a closing parenthesis between each two. */
  function Closings(ts: seq<Nest>): string
    requires ts != []
  {
    if |ts| == 1 then Word(ts[0]) else Word(ts[0]) + ")" + Closings(ts[1..])
  }

  /** A word that comes down from `depth` to zero without a stray closing is `depth + 1` nests. */
  lemma {:induction false} NestsOf(w: string, depth: nat) returns (ts: seq<Nest>)
    requires OnlyParens(w)
    requires Walk(w, depth, 0) == (0, 0)
    ensures |ts| == depth + 1 && Closings(ts) == w
    decreases |w|
  {
    if w == [] {
      ts := [Nil];
    } else if w[0] == '(' {
      var us := NestsOf(w[1..], depth + 1);
      ts := [Pair(us[0], us[1])] + us[2..];
      OpenedNests(us);
      assert w == "(" + w[1..];
    } else {
      if depth == 0 { StrayStays(w[1..], 0, 1); }
      var us := NestsOf(w[1..], depth - 1);
      ts := [Nil] + us;
      assert ts[1..] == us && w == ")" + w[1..];
    }
  }

  lemma {:induction false} OpenedNests(us: seq<Nest>)
    requires |us| >= 2
    ensures Closings([Pair(us[0], us[1])] + us[2..]) == "(" + Closings(us)
  {
    var ts := [Pair(us[0], us[1])] + us[2..];
    if |us| == 2 {
      assert Closings(us) == Word(us[0]) + ")" + Word(us[1]);
    } else {
      assert ts[1..] == us[2..] && us[1..][1..] == us[2..];
      assert Closings(us) == Word(us[0]) + ")" + (Word(us[1]) + ")" + Closings(us[2..]));
    }
  }

  lemma {:induction false} ParensAreParens(v: seq<Option<char>>)
    ensures OnlyParens(Parens(v))
  {
    if v != [] { ParensAreParens(v[1..]); }
  }

  lemma {:induction false} WalkIsBalance(w: string)
    requires OnlyParens(w)
    ensures Walk(w, 0, 0) == (0, 0) <==> IsBalanced(w)
  {
    if Walk(w, 0, 0) == (0, 0) {
      var ts := NestsOf(w, 0);
      assert Word(ts[0]) == w;
    }
    if IsBalanced(w) {
      var t :| Word(t) == w;
      NestReturns(t, 0, 0);
    }
  }

  /** Every flag of a scan, from nothing but the characters the quoting automaton leaves in view. */
  lemma {:induction false} ScanExplained(s: string)
    ensures var r, v := ScanOf(s), View(Plain, s);
      && (r.hasRedirection <==> Sees(v, '<') || Sees(v, '>'))
      && (r.hasControlOperators <==> Sees(v, '&') || Sees(v, ';') || SeesPair(v, '|', '|'))
      && (r.hasPipeline <==> SeesOddBarRun(v))
      && (r.hasCommandSubstitution <==> SeesPair(v, '$', '('))
      && (r.hasGrouping <==> Sees(v, '(') || Sees(v, ')'))
      && (r.unbalancedGrouping <==> !IsBalanced(Parens(v)))
      && (r.unbalancedQuotes <==> After(Plain, s) != Plain)
  {
    var v, f := View(Plain, s), FlagsOf(EMPTY);
    ScanFollowsAutomaton(s, Plain, EMPTY);
    ControlMeans(v, f);
    RedirectionMeans(v, f);
    SubstitutionMeans(v, f);
    GroupingMeans(v, f);
    PipelineIsOddRun(v, f);
    DepthMeans(v, f);
    ParensAreParens(v);
    WalkIsBalance(Parens(v));
  }

  // ---------- quoting words ----------

  /** The inside of a single-quoted word: a quote is written by closing, escaping it, and opening again. */
  function Escaped(w: string): string {
    if w == [] then [] else EscapedChar(w[0]) + Escaped(w[1..])
  }

  function EscapedChar(c: char): string {
    if c == '\'' then ['\'', '\\', '\'', '\''] else [c]
  }

  function Quoted(w: string): string { ['\''] + Escaped(w) + ['\''] }

  /** Quoted words joined by spaces. */
  function QuotedLine(words: seq<string>): string {
    if words == [] then []
    else if |words| == 1 then Quoted(words[0])
    else Quoted(words[0]) + ([' '] + QuotedLine(words[1..]))
  }

  /** What `flush_token` makes of the words: outer whitespace goes, and so does a word of nothing else. */
  function Cleaned(words: seq<string>): seq<string> {
    if words == [] then [] else CleanedWord(words[0]) + Cleaned(words[1..])
  }

  predicate IsCleanWord(w: string) { w != "" && Trim(w) == w }

  lemma {:induction false} ScanSingleQuote(rest: string, m: Mode, x: Scan)
    ensures m == Plain ==> ScanRest(['\''] + rest, m, x) == ScanRest(rest, Single, x.(lastOperator := false))
    ensures m == Single ==> ScanRest(['\''] + rest, m, x) == ScanRest(rest, Plain, x)
    ensures m == EscapedPlain ==>
      ScanRest(['\''] + rest, m, x) == ScanRest(rest, Plain, x.(token := x.token + ['\''], lastOperator := false))
  {
    assert (['\''] + rest)[1..] == rest;
  }

  lemma {:induction false} ScanInSingle(c: char, rest: string, x: Scan)
    requires c != '\''
    ensures ScanRest([c] + rest, Single, x) == ScanRest(rest, Single, x.(token := x.token + [c]))
  {
    assert ([c] + rest)[1..] == rest;
  }

  lemma {:induction false} ScanBackslash(rest: string, x: Scan)
    ensures ScanRest(['\\'] + rest, Plain, x) == ScanRest(rest, EscapedPlain, x.(lastOperator := false))
  {
    assert (['\\'] + rest)[1..] == rest;
  }

  lemma {:induction false} ScanEscapedQuote(tail: string, x: Scan)
    requires !x.lastOperator
    ensures ScanRest(['\'', '\\', '\'', '\''] + tail, Single, x) ==
      ScanRest(tail, Single, x.(token := x.token + ['\'']))
  {
    var a := ['\''] + tail;
    var b := ['\''] + a;
    var c := ['\\'] + b;
    assert ['\'', '\\', '\'', '\''] + tail == ['\''] + c;
    ScanSingleQuote(c, Single, x);
    ScanBackslash(b, x);
    assert x.(lastOperator := false) == x;
    ScanSingleQuote(a, EscapedPlain, x);
    ScanSingleQuote(tail, Plain, x.(token := x.token + ['\'']));
  }

  lemma {:induction false} ScanEscapedChar(c: char, tail: string, x: Scan)
    requires !x.lastOperator
    ensures ScanRest(EscapedChar(c) + tail, Single, x) == ScanRest(tail, Single, x.(token := x.token + [c]))
  {
    if c == '\'' { ScanEscapedQuote(tail, x); } else { ScanInSingle(c, tail, x); }
  }

  lemma {:induction false} ScanEscaped(w: string, rest: string, x: Scan)
    requires !x.lastOperator
    ensures ScanRest(Escaped(w) + rest, Single, x) == ScanRest(rest, Single, x.(token := x.token + w))
    decreases |w|
  {
    if w == [] {
      assert Escaped(w) + rest == rest && x.token + w == x.token;
    } else {
      var c, later := w[0], w[1..];
      var tail := Escaped(later) + rest;
      assert x.token + w == x.token + [c] + later;
      assert Escaped(w) + rest == EscapedChar(c) + tail;
      ScanEscapedChar(c, tail, x);
      ScanEscaped(later, rest, x.(token := x.token + [c]));
    }
  }

  lemma {:induction false} ScanSpace(rest: string, x: Scan)
    requires !x.lastOperator
    ensures ScanRest([' '] + rest, Plain, x) == ScanRest(rest, Plain, Flush(x))
  {
    assert ([' '] + rest)[1..] == rest;
    assert Flush(x).lastOperator == false;
  }

  lemma {:induction false} ScanQuotedWord(w: string, rest: string, x: Scan)
    requires x.token == "" && !x.lastOperator
    ensures ScanRest(Quoted(w) + rest, Plain, x) == ScanRest(rest, Plain, x.(token := w))
  {
    var closing := ['\''] + rest;
    assert Quoted(w) + rest == ['\''] + (Escaped(w) + closing);
    assert x.(lastOperator := false) == x;
    ScanSingleQuote(Escaped(w) + closing, Plain, x);
    ScanEscaped(w, closing, x);
    assert x.token + w == w;
    ScanSingleQuote(rest, Single, x.(token := w));
  }

  lemma {:induction false} FlushWord(x: Scan, w: string)
    ensures Flush(x.(token := w)) == x.(token := "", tokens := x.tokens + CleanedWord(w))
  {
  }

  function CleanedWord(w: string): seq<string> {
    if Trim(w) == "" then [] else [Trim(w)]
  }

  lemma {:induction false} ScanWordThenSpace(w: string, rest: string, x: Scan)
    requires x.token == "" && !x.lastOperator
    ensures ScanRest(Quoted(w) + ([' '] + rest), Plain, x) ==
      ScanRest(rest, Plain, x.(tokens := x.tokens + CleanedWord(w)))
  {
    ScanQuotedWord(w, [' '] + rest, x);
    ScanSpace(rest, x.(token := w));
    FlushWord(x, w);
  }

  lemma {:induction false} ScanLastWord(w: string, x: Scan)
    requires x.token == "" && !x.lastOperator
    ensures var (m, y) := ScanRest(Quoted(w), Plain, x);
      m == Plain && Flush(y) == x.(tokens := x.tokens + CleanedWord(w))
  {
    ScanQuotedWord(w, [], x);
    assert Quoted(w) + [] == Quoted(w);
    FlushWord(x, w);
  }

  lemma {:induction false} ScanQuotedLine(words: seq<string>, x: Scan)
    requires x.token == "" && !x.lastOperator
    ensures var (m, y) := ScanRest(QuotedLine(words), Plain, x);
      m == Plain && Flush(y) == x.(tokens := x.tokens + Cleaned(words))
    decreases |words|
  {
    if words == [] {
      assert x.tokens + Cleaned(words) == x.tokens && Trim("") == "";
    } else if |words| == 1 {
      ScanLastWord(words[0], x);
      assert Cleaned(words) == CleanedWord(words[0]) + [];
    } else {
      var w, rest := words[0], words[1..];
      var y := x.(tokens := x.tokens + CleanedWord(w));
      ScanWordThenSpace(w, QuotedLine(rest), x);
      ScanQuotedLine(rest, y);
      LineSplits(words, x.tokens);
      assert ScanRest(QuotedLine(words), Plain, x) == ScanRest(QuotedLine(rest), Plain, y);
      assert x.(tokens := x.tokens + Cleaned(words)) == y.(tokens := y.tokens + Cleaned(rest));
    }
  }

  lemma {:induction false} LineSplits(words: seq<string>, before: seq<string>)
    requires |words| > 1
    ensures QuotedLine(words) == Quoted(words[0]) + ([' '] + QuotedLine(words[1..]))
    ensures (before + CleanedWord(words[0])) + Cleaned(words[1..]) == before + Cleaned(words)
  {
  }

  lemma {:induction false} CleanedIsSame(words: seq<string>)
    ensures |Cleaned(words)| <= |words|
    ensures Cleaned(words) == words <==> forall i :: 0 <= i < |words| ==> IsCleanWord(words[i])
  {
    if words != [] {
      var w, rest := words[0], words[1..];
      CleanedIsSame(rest);
      assert words == [w] + rest;
      assert forall i :: 0 < i < |words| ==> words[i] == rest[i - 1];
      assert forall i :: 0 <= i < |rest| ==> rest[i] == words[i + 1];
      if Trim(w) != "" {
        assert Cleaned(words) == [Trim(w)] + Cleaned(rest);
        assert Cleaned(words)[1..] == Cleaned(rest);
      } else {
        assert Cleaned(words) == Cleaned(rest);
        assert !IsCleanWord(words[0]);
      }
    }
  }

  /**
   * Quoted words come back as they were, with no flag raised: no quoted character is ever taken for an operator.
   * The words themselves survive exactly when none is empty or has whitespace at an end.
   */
  lemma {:induction false} QuotedWordsRoundTrip(words: seq<string>)
    ensures ScanOf(QuotedLine(words)) ==
      ScanResult(Cleaned(words), false, false, false, false, false, false, false, false, 0)
    ensures ScanOf(QuotedLine(words)).tokens == words <==> forall i :: 0 <= i < |words| ==> IsCleanWord(words[i])
  {
    ScanQuotedLine(words, EMPTY);
    CleanedIsSame(words);
    var y := ScanRest(QuotedLine(words), Plain, EMPTY).1;
    assert Flush(y).tokens == Cleaned(words);
    assert y.lastOperator == Flush(y).lastOperator;
  }

  // ---------- the first significant token ----------

  predicate IsAsciiLetter(c: char) { 'a' <= c <= 'z' || 'A' <= c <= 'Z' }

  /** A name, an equals sign, anything. */
  predicate IsEnvAssignment(token: string) {
    match Find(token, "=")
    case None => false
    case Some(i) =>
      var name := token[..i];
      && name != ""
      && (IsAsciiLetter(name[0]) || name[0] == '_')
      && (forall k :: 1 <= k < |name| ==> IsAsciiLetter(name[k]) || '0' <= name[k] <= '9' || name[k] == '_')
  }

  /** Token `i` follows a `sudo` with nothing but options, or more `sudo`s, in between. */
  predicate AfterSudo(tokens: seq<string>, i: nat)
    requires i <= |tokens|
  {
    i > 0 && (tokens[i - 1] == "sudo" || (['-'] <= tokens[i - 1] && AfterSudo(tokens, i - 1)))
  }

  predicate Insignificant(tokens: seq<string>, i: nat)
    requires i < |tokens|
  {
    || tokens[i] == "sudo"
    || (['-'] <= tokens[i] && AfterSudo(tokens, i))
    || tokens[i] == "env"
    || IsEnvAssignment(tokens[i])
  }

  predicate IsFirstSignificant(tokens: seq<string>, k: nat)
    requires k < |tokens|
  {
    !Insignificant(tokens, k) && forall i :: 0 <= i < k ==> Insignificant(tokens, i)
  }

  /** The first token that is not `sudo`, one of its options, `env`, or an assignment. */
  method FirstSignificantToken(tokens: seq<string>) returns (r: Option<string>)
    ensures r == None ==> forall i :: 0 <= i < |tokens| ==> Insignificant(tokens, i)
    ensures r.Some? ==> exists k :: 0 <= k < |tokens| && IsFirstSignificant(tokens, k) && r.value == tokens[k]
  {
    var skippingSudoOptions := false;
    for i := 0 to |tokens|
      invariant forall j :: 0 <= j < i ==> Insignificant(tokens, j)
      invariant skippingSudoOptions <==> AfterSudo(tokens, i)
    {
      var token := tokens[i];
      if token == "sudo" {
        skippingSudoOptions := true;
        continue;
      }
      if skippingSudoOptions && ['-'] <= token {
        continue;
      }
      skippingSudoOptions := false;
      if token == "env" {
        continue;
      }
      if IsEnvAssignment(token) {
        continue;
      }
      assert IsFirstSignificant(tokens, i);
      return Some(token);
    }
    r := None;
  }

  datatype ParsedCommand = ParsedCommand(firstToken: Option<string>, scan: ScanResult, ambiguous: bool)

  /** A command is unambiguous exactly when it is balanced, does not end in an operator, and names something to run. */
  method ParseCommand(cmd: string) returns (r: ParsedCommand)
    ensures r.scan == ScanOf(cmd)
    ensures !r.ambiguous <==>
      && After(Plain, cmd) == Plain
      && IsBalanced(Parens(View(Plain, cmd)))
      && !r.scan.trailingOperator
      && exists i :: 0 <= i < |r.scan.tokens| && !Insignificant(r.scan.tokens, i)
    ensures r.firstToken == None <==> forall i :: 0 <= i < |r.scan.tokens| ==> Insignificant(r.scan.tokens, i)
  {
    var scan := ScanShell(cmd);
    var firstToken := FirstSignificantToken(scan.tokens);
    ScanExplained(cmd);
    var ambiguous := scan.unbalancedGrouping || scan.unbalancedQuotes || scan.trailingOperator || firstToken == None;
    r := ParsedCommand(firstToken, scan, ambiguous);
  }
}
