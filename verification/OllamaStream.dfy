/** The streaming task of the Ollama provider (crates/termlm-inference/src/ollama.rs). */
module OllamaStream {
  import opened Wrappers
  import opened Text
  import opened Utf8

  datatype Call = Call(name: string, arguments: string)

  datatype Message = Message(content: Option<string>, thinking: Option<string>, toolCalls: Option<seq<Call>>)

  /** One decoded NDJSON record. */
  datatype Record = Record(message: Option<Message>, done: Option<bool>, promptCount: Option<nat>,
    evalCount: Option<nat>, error: Option<string>)

  datatype Event =
    | ThinkingChunk(content: string)
    | TextChunk(content: string)
    | ToolCall(call: Call)
    | Usage(prompt: nat, completion: nat)

  datatype Failure = Cancelled | ReadError | InvalidRecord | StreamError(message: string) | EndedEarly

  datatype Item = Sent(event: Event) | Done | Failed(failure: Failure)

  /** The JSON decoder: a record, or nothing. */
  type Decoder = string -> Option<Record>

  // ---------- one record ----------

  function NonEmpty(s: Option<string>): bool { s.Some? && s.value != "" }

  function CallEvents(calls: seq<Call>): (r: seq<Event>)
    ensures |r| == |calls| && forall i :: 0 <= i < |calls| ==> r[i] == ToolCall(calls[i])
  {
    if calls == [] then [] else [ToolCall(calls[0])] + CallEvents(calls[1..])
  }

  function MessageEvents(m: Message): seq<Event> {
    (if NonEmpty(m.thinking) then [ThinkingChunk(m.thinking.value)] else [])
    + (if NonEmpty(m.content) then [TextChunk(m.content.value)] else [])
    + (if m.toolCalls.Some? then CallEvents(m.toolCalls.value) else [])
  }

  function EventsOf(x: Record): seq<Event> {
    (match x.message case None => [] case Some(m) => MessageEvents(m))
    + if x.done == Some(true) && x.evalCount.Some? then
        [Usage(if x.promptCount.Some? then x.promptCount.value else 0, x.evalCount.value)] else []
  }

  /** What a line comes to: its events and whether it says the answer is done, or a failure. */
  type Outcome = Result<(seq<Event>, bool), Failure>

  function LineOutcome(decode: Decoder, line: string): Outcome {
    if Trim(line) == "" then Ok(([], false)) else
      match decode(line)
      case None => Err(InvalidRecord)
      case Some(x) =>
        if x.error.Some? then Err(StreamError(x.error.value)) else Ok((EventsOf(x), x.done == Some(true)))
  }

  /** What is done with a line cut from the buffer: trim it, then decode. */
  type Reader = string -> Outcome

  function ReaderOf(decode: Decoder): Reader {
    line => LineOutcome(decode, Trim(line))
  }

  /** Blank lines are passed over. */
  ghost predicate IgnoresBlanks(read: Reader) {
    forall line :: Trim(line) == "" ==> read(line) == Ok(([], false))
  }

  lemma {:induction false} ReaderIgnoresBlanks(decode: Decoder)
    ensures IgnoresBlanks(ReaderOf(decode))
  {
    forall line | Trim(line) == "" ensures ReaderOf(decode)(line) == Ok(([], false)) {
      assert Trim(Trim(line)) == Trim("") == "";
    }
  }

  // ---------- the task on values ----------

  /** The task between two awaits; once it is `over` it has returned. */
  datatype Task = Task(sent: seq<Item>, buf: string, done: bool, over: bool)

  const START := Task([], "", false, false)

  function AsItems(events: seq<Event>): (r: seq<Item>)
    ensures |r| == |events| && forall i :: 0 <= i < |r| ==> r[i] == Sent(events[i])
  {
    seq(|events|, i requires 0 <= i < |events| => Sent(events[i]))
  }

  function Failing(t: Task, f: Failure): Task {
    t.(sent := t.sent + [Failed(f)], buf := "", over := true)
  }

  /** Handle a line when `rest` is what stays in the buffer. */
  function TakeLine(read: Reader, t: Task, line: string, rest: string): Task {
    match read(line)
    case Err(f) => Failing(t, f)
    case Ok((events, isDone)) => t.(sent := t.sent + AsItems(events), buf := rest, done := t.done || isDone)
  }

  /** Handle every complete line in the buffer. */
  function Drain(read: Reader, t: Task): Task
    decreases |t.buf|
  {
    var nl := NewlineAt(t.buf);
    if t.over || nl == None then t else
      Drain(read, TakeLine(read, t, t.buf[..nl.value], t.buf[nl.value + 1..]))
  }

  /** One poll of the byte stream: what the cancel flag said, and the bytes or a read error. */
  datatype Poll = Poll(cancelled: bool, next: Option<Bytes>)

  /** How lines are read, and how malformed UTF-8 is repaired. */
  datatype Env = Env(read: Reader, repair: Bytes -> string)

  function Absorb(e: Env, t: Task, p: Poll): Task {
    if t.over then t
    else if p.cancelled then Failing(t, Cancelled)
    else match p.next
      case None => Failing(t, ReadError)
      case Some(bytes) => Drain(e.read, t.(buf := t.buf + Lossy(e.repair, bytes)))
  }

  function AbsorbAll(e: Env, t: Task, polls: seq<Poll>): Task {
    if polls == [] then t else Absorb(e, AbsorbAll(e, t, polls[..|polls| - 1]), polls[|polls| - 1])
  }

  /** After the stream has ended: the rest of the buffer, then the verdict. */
  function Finish(e: Env, t: Task): Task {
    if t.over then t else
      var last := if Trim(t.buf) == "" then t else TakeLine(e.read, t, t.buf, "");
      if last.over then last
      else if !last.done then Failing(last, EndedEarly)
      else last.(sent := last.sent + [Done], over := true)
  }

  function RunItems(e: Env, polls: seq<Poll>): seq<Item> {
    Finish(e, AbsorbAll(e, START, polls)).sent
  }

  // ---------- the reference: split the whole text into lines ----------

  function Split(text: string): (r: seq<string>)
    ensures r != []
    decreases |text|
  {
    match NewlineAt(text)
    case None => [text]
    case Some(nl) => [text[..nl]] + Split(text[nl + 1..])
  }

  /** Lines with a line end between each two. */
  function OneText(lines: seq<string>): string
    requires lines != []
  {
    if |lines| == 1 then lines[0] else lines[0] + ("\n" + OneText(lines[1..]))
  }

  /** The lines are the text between line ends, the last of them what follows the last one. */
  lemma {:induction false} SplitMeans(text: string)
    ensures OneText(Split(text)) == text
    ensures forall k, i :: 0 <= k < |Split(text)| && 0 <= i < |Split(text)[k]| ==> Split(text)[k][i] != '\n'
    decreases |text|
  {
    match NewlineAt(text)
    case None =>
    case Some(nl) =>
      var line, rest := text[..nl], text[nl + 1..];
      SplitMeans(rest);
      assert Split(text)[1..] == Split(rest);
      assert text == line + ("\n" + rest);
  }

  function Judge(read: Reader, lines: seq<string>, done: bool): seq<Item> {
    if lines == [] then [if done then Done else Failed(EndedEarly)] else
      match read(lines[0])
      case Err(f) => [Failed(f)]
      case Ok((events, isDone)) => AsItems(events) + Judge(read, lines[1..], done || isDone)
  }

  function Arrived(e: Env, polls: seq<Poll>): string {
    if polls == [] then "" else
      Arrived(e, polls[..|polls| - 1]) +
        (match polls[|polls| - 1].next case Some(b) => Lossy(e.repair, b) case None => "")
  }

  ghost predicate Smooth(polls: seq<Poll>) {
    forall i :: 0 <= i < |polls| ==> !polls[i].cancelled && polls[i].next.Some?
  }

  lemma {:induction false} NewlineInFront(s: string, t: string)
    requires NewlineAt(s).Some?
    ensures NewlineAt(s + t) == NewlineAt(s)
  {
    if s[0] != '\n' {
      assert (s + t)[1..] == s[1..] + t;
      NewlineInFront(s[1..], t);
    }
  }

  /** Draining what has arrived and then the rest is draining it all at once. */
  lemma {:induction false} DrainInTwo(read: Reader, t: Task, more: string)
    requires !t.over
    ensures var once, first := Drain(read, t.(buf := t.buf + more)), Drain(read, t);
      if first.over then once == first else once == Drain(read, first.(buf := first.buf + more))
    decreases |t.buf|
  {
    var nl := NewlineAt(t.buf);
    if nl.Some? {
      var all := t.(buf := t.buf + more);
      NewlineInFront(t.buf, more);
      assert all.buf[..nl.value] == t.buf[..nl.value];
      assert all.buf[nl.value + 1..] == t.buf[nl.value + 1..] + more;
      var line, rest := t.buf[..nl.value], t.buf[nl.value + 1..];
      var next := TakeLine(read, t, line, rest);
      DrainLine(read, t, nl.value, line, rest);
      DrainLine(read, all, nl.value, line, rest + more);
      TakeLineBefore(read, t, line, rest, more);
      if !next.over { DrainInTwo(read, next, more); }
    }
  }

  lemma {:induction false} DrainLine(read: Reader, t: Task, nl: nat, line: string, rest: string)
    requires !t.over && NewlineAt(t.buf) == Some(nl) && line == t.buf[..nl] && rest == t.buf[nl + 1..]
    ensures Drain(read, t) == Drain(read, TakeLine(read, t, line, rest))
    ensures TakeLine(read, t, line, rest).over ==> Drain(read, t) == TakeLine(read, t, line, rest)
  {
  }

  /** What more there is in the buffer does not matter to a line. */
  lemma {:induction false} TakeLineBefore(read: Reader, t: Task, line: string, rest: string, more: string)
    requires !t.over
    ensures var one, two := TakeLine(read, t, line, rest), TakeLine(read, t.(buf := t.buf + more), line, rest + more);
      if one.over then two == one else two == one.(buf := one.buf + more)
  {
  }

  lemma {:induction false} AbsorbIsDrain(e: Env, polls: seq<Poll>)
    requires Smooth(polls)
    ensures AbsorbAll(e, START, polls) == Drain(e.read, START.(buf := Arrived(e, polls)))
  {
    if polls != [] {
      var before, p := polls[..|polls| - 1], polls[|polls| - 1];
      AbsorbIsDrain(e, before);
      assert !p.cancelled && p.next.Some?;
      DrainInTwo(e.read, START.(buf := Arrived(e, before)), Lossy(e.repair, p.next.value));
    }
  }

  /** Draining and finishing a buffer is judging its lines. */
  lemma {:induction false} DrainIsJudge(e: Env, t: Task)
    requires !t.over && IgnoresBlanks(e.read)
    ensures Finish(e, Drain(e.read, t)).sent == t.sent + Judge(e.read, Split(t.buf), t.done)
    decreases |t.buf|
  {
    var lines, nl := Split(t.buf), NewlineAt(t.buf);
    if nl == None {
      LastLineIsJudged(e, t);
    } else {
      var line, rest := t.buf[..nl.value], t.buf[nl.value + 1..];
      var next := TakeLine(e.read, t, line, rest);
      FirstLineIsJudged(e.read, t, line, rest);
      assert lines == [line] + Split(rest);
      assert Drain(e.read, t) == Drain(e.read, next);
      if next.over {
        assert Drain(e.read, next) == next && Finish(e, next) == next;
      } else {
        DrainIsJudge(e, next);
      }
    }
  }

  lemma {:induction false} FirstLineIsJudged(read: Reader, t: Task, line: string, rest: string)
    requires !t.over
    ensures var next, lines := TakeLine(read, t, line, rest), Split(rest);
      t.sent + Judge(read, [line] + lines, t.done) ==
      if next.over then next.sent else next.sent + Judge(read, lines, next.done)
    ensures var next := TakeLine(read, t, line, rest); !next.over ==> next.buf == rest
  {
    var lines := Split(rest);
    assert ([line] + lines)[1..] == lines;
  }

  lemma {:induction false} LastLineIsJudged(e: Env, t: Task)
    requires !t.over && IgnoresBlanks(e.read)
    ensures Finish(e, t).sent == t.sent + Judge(e.read, [t.buf], t.done)
  {
    assert [t.buf][1..] == [];
    assert Judge(e.read, [], t.done) == [if t.done then Done else Failed(EndedEarly)];
    assert AsItems([]) == [];
    if Trim(t.buf) != "" && e.read(t.buf).Ok? {
      var (events, isDone) := e.read(t.buf).value;
      var verdict := [if t.done || isDone then Done else Failed(EndedEarly)];
      assert Judge(e.read, [t.buf], t.done) == AsItems(events) + verdict;
      assert t.sent + AsItems(events) + verdict == t.sent + (AsItems(events) + verdict);
    }
  }

  // ---------- what is promised ----------

  /** The record lines of the text, as the decoder is asked about them. */
  function LineAt(read: Reader, lines: seq<string>, k: nat): Outcome
    requires k < |lines|
  {
    read(lines[k])
  }

  /** The events of the lines before the first failure. */
  function EventsUpTo(read: Reader, lines: seq<string>): seq<Event> {
    if lines == [] || LineAt(read, lines, 0).Err? then [] else
      LineAt(read, lines, 0).value.0 + EventsUpTo(read, lines[1..])
  }

  ghost predicate FirstFailure(read: Reader, lines: seq<string>, k: nat) {
    && k < |lines| && LineAt(read, lines, k).Err?
    && forall j :: 0 <= j < k ==> LineAt(read, lines, j).Ok?
  }

  ghost predicate AllOk(read: Reader, lines: seq<string>) {
    forall j :: 0 <= j < |lines| ==> LineAt(read, lines, j).Ok?
  }

  ghost predicate SomeDone(read: Reader, lines: seq<string>) {
    exists j :: 0 <= j < |lines| && LineAt(read, lines, j).Ok? && LineAt(read, lines, j).value.1
  }

  /** Events up to the first failure, then that failure or the final word. */
  ghost predicate IsVerdict(read: Reader, lines: seq<string>, done: bool, r: seq<Item>) {
    && r != [] && r[..|r| - 1] == AsItems(EventsUpTo(read, lines))
    && (AllOk(read, lines) ==> r[|r| - 1] == (if done || SomeDone(read, lines) then Done else Failed(EndedEarly)))
    && (!AllOk(read, lines) ==>
          exists k: nat :: FirstFailure(read, lines, k) && r[|r| - 1] == Failed(LineAt(read, lines, k).error))
  }

  /** The verdict on the lines. */
  lemma {:induction false} JudgeMeans(read: Reader, lines: seq<string>, done: bool)
    ensures IsVerdict(read, lines, done, Judge(read, lines, done))
  {
    if lines != [] {
      var first := LineAt(read, lines, 0);
      if first.Err? {
        assert FirstFailure(read, lines, 0);
      } else {
        var (events, isDone) := first.value;
        JudgeMeans(read, lines[1..], done || isDone);
        VerdictNext(read, lines, done, Judge(read, lines[1..], done || isDone));
      }
    }
  }

  /** A line that is read, before lines on which there is a verdict. */
  lemma {:induction false} VerdictNext(read: Reader, lines: seq<string>, done: bool, tail: seq<Item>)
    requires lines != [] && LineAt(read, lines, 0).Ok?
    requires IsVerdict(read, lines[1..], done || LineAt(read, lines, 0).value.1, tail)
    ensures IsVerdict(read, lines, done, AsItems(LineAt(read, lines, 0).value.0) + tail)
  {
    var rest, events := lines[1..], LineAt(read, lines, 0).value.0;
    var r := AsItems(events) + tail;
    LinesLater(read, lines);
    assert r[..|r| - 1] == AsItems(events) + tail[..|tail| - 1];
    assert EventsUpTo(read, lines) == events + EventsUpTo(read, rest);
    ItemsJoin(events, EventsUpTo(read, rest));
    if !AllOk(read, rest) {
      var k: nat :| FirstFailure(read, rest, k) && tail[|tail| - 1] == Failed(LineAt(read, rest, k).error);
      FailureLater(read, lines, k);
    }
  }

  lemma {:induction false} ItemsJoin(a: seq<Event>, b: seq<Event>)
    ensures AsItems(a + b) == AsItems(a) + AsItems(b)
  {
  }

  lemma {:induction false} LinesLater(read: Reader, lines: seq<string>)
    requires lines != []
    ensures AllOk(read, lines) <==> LineAt(read, lines, 0).Ok? && AllOk(read, lines[1..])
    ensures LineAt(read, lines, 0).Ok? ==>
      (SomeDone(read, lines) <==> LineAt(read, lines, 0).value.1 || SomeDone(read, lines[1..]))
  {
    var rest := lines[1..];
    assert forall j :: 0 <= j < |rest| ==> LineAt(read, rest, j) == LineAt(read, lines, j + 1);
    assert forall j :: 1 <= j < |lines| ==> LineAt(read, lines, j) == LineAt(read, rest, j - 1);
    if SomeDone(read, rest) {
      var j :| 0 <= j < |rest| && LineAt(read, rest, j).Ok? && LineAt(read, rest, j).value.1;
      assert LineAt(read, lines, j + 1).value.1;
    }
  }

  lemma {:induction false} FailureLater(read: Reader, lines: seq<string>, k: nat)
    requires lines != [] && LineAt(read, lines, 0).Ok? && FirstFailure(read, lines[1..], k)
    ensures FirstFailure(read, lines, k + 1) && LineAt(read, lines, k + 1) == LineAt(read, lines[1..], k)
  {
    forall j | 0 <= j < k + 1 ensures LineAt(read, lines, j).Ok? {
      if j > 0 { assert LineAt(read, lines[1..], j - 1).Ok?; }
    }
  }

  /** The bytes of a smooth stream. */
  function BytesOf(polls: seq<Poll>): Bytes {
    if polls == [] then [] else
      BytesOf(polls[..|polls| - 1]) + (match polls[|polls| - 1].next case Some(b) => b case None => [])
  }

  /** Every chunk is cut at character boundaries. */
  ghost predicate CutAtCharacters(polls: seq<Poll>) {
    forall i :: 0 <= i < |polls| && polls[i].next.Some? ==> Decode(polls[i].next.value).Some?
  }

  lemma {:induction false} ArrivedIsDecoded(e: Env, polls: seq<Poll>)
    requires Smooth(polls) && CutAtCharacters(polls)
    ensures Decode(BytesOf(polls)) == Some(Arrived(e, polls))
  {
    if polls != [] {
      var before, p := polls[..|polls| - 1], polls[|polls| - 1];
      assert !p.cancelled && p.next.Some? && Decode(p.next.value).Some?;
      ArrivedIsDecoded(e, before);
      DecodeConcat(BytesOf(before), p.next.value);
    }
  }

  /** Without cancel or read error the items are the verdict on the lines of the text that arrived. */
  lemma {:induction false} SmoothRunIsJudge(e: Env, polls: seq<Poll>)
    requires Smooth(polls) && IgnoresBlanks(e.read)
    ensures RunItems(e, polls) == Judge(e.read, Split(Arrived(e, polls)), false)
  {
    AbsorbIsDrain(e, polls);
    DrainIsJudge(e, START.(buf := Arrived(e, polls)));
  }

  /** Where the stream is cut does not matter, as long as it is cut between characters. */
  lemma {:induction false} ChunkInvariance(e: Env, polls: seq<Poll>, others: seq<Poll>)
    requires Smooth(polls) && Smooth(others) && CutAtCharacters(polls) && CutAtCharacters(others)
    requires BytesOf(polls) == BytesOf(others) && IgnoresBlanks(e.read)
    ensures RunItems(e, polls) == RunItems(e, others)
  {
    SmoothRunIsJudge(e, polls);
    SmoothRunIsJudge(e, others);
    ArrivedIsDecoded(e, polls);
    ArrivedIsDecoded(e, others);
  }

  const REPLACEMENT := '\U{FFFD}'

  /**
   * Cutting inside a character changes the text: when the repair leaves a replacement character, a text without any
   * arrives unchanged exactly when every cut is between characters.
   */
  lemma {:induction false} CutsMustBeAtCharacters(e: Env, polls: seq<Poll>, text: string)
    requires Smooth(polls) && Decode(BytesOf(polls)) == Some(text) && REPLACEMENT !in text
    requires forall b :: Decode(b) == None ==> REPLACEMENT in e.repair(b)
    ensures Arrived(e, polls) == text <==> CutAtCharacters(polls)
  {
    if CutAtCharacters(polls) {
      ArrivedIsDecoded(e, polls);
    } else {
      BadCutShows(e, polls);
    }
  }

  lemma {:induction false} BadCutShows(e: Env, polls: seq<Poll>)
    requires Smooth(polls) && !CutAtCharacters(polls)
    requires forall b :: Decode(b) == None ==> REPLACEMENT in e.repair(b)
    ensures REPLACEMENT in Arrived(e, polls)
  {
    var before, p := polls[..|polls| - 1], polls[|polls| - 1];
    assert !p.cancelled && p.next.Some?;
    if Decode(p.next.value).Some? {
      var i :| 0 <= i < |polls| && polls[i].next.Some? && Decode(polls[i].next.value) == None;
      assert before[i] == polls[i];
      BadCutShows(e, before);
    }
  }

  function TwoChunks(a: Bytes, b: Bytes): seq<Poll> {
    [Poll(false, Some(a)), Poll(false, Some(b))]
  }

  lemma {:induction false} TwoChunksJoin(a: Bytes, b: Bytes)
    ensures Smooth(TwoChunks(a, b)) && BytesOf(TwoChunks(a, b)) == a + b
    ensures Decode(a) == None ==> !CutAtCharacters(TwoChunks(a, b))
  {
    var polls := TwoChunks(a, b);
    assert polls[..1] == [polls[0]] && [polls[0]][..0] == [] && polls[0].next == Some(a);
    assert BytesOf([polls[0]]) == [] + a == a;
  }

  /** A character of two bytes. */
  const ACCENTED := "\U{E9}"

  lemma {:induction false} AccentedBytes()
    ensures Decode([0xC3, 0xA9]) == Some(ACCENTED) && Decode([0xC3]) == None && REPLACEMENT !in ACCENTED
  {
    assert Encode(ACCENTED) == [0xC3, 0xA9] by { assert Encode(ACCENTED[1..]) == []; }
    DecodeEncode(ACCENTED);
  }

  /** When its bytes come in two chunks, something else arrives. */
  lemma {:induction false} SplitCharacterIsLost(e: Env)
    requires forall b :: Decode(b) == None ==> REPLACEMENT in e.repair(b)
    ensures Decode(BytesOf(TwoChunks([0xC3], [0xA9]))) == Some(ACCENTED)
    ensures Arrived(e, TwoChunks([0xC3], [0xA9])) != ACCENTED
  {
    AccentedBytes();
    TwoChunksJoin([0xC3], [0xA9]);
    assert [0xC3] + [0xA9] == [0xC3, 0xA9];
    CutsMustBeAtCharacters(e, TwoChunks([0xC3], [0xA9]), ACCENTED);
  }

  // ---------- the protocol ----------

  ghost predicate OnlyEvents(items: seq<Item>) {
    forall i :: 0 <= i < |items| ==> items[i].Sent?
  }

  /** Events, and after them exactly one item that is none. */
  ghost predicate EndsOnce(items: seq<Item>) {
    items != [] && OnlyEvents(items[..|items| - 1]) && !items[|items| - 1].Sent?
  }

  /** A task that goes on has sent only events; one that is over has sent its one last word, a failure. */
  ghost predicate Proper(t: Task) {
    if t.over then EndsOnce(t.sent) && t.sent[|t.sent| - 1].Failed? else OnlyEvents(t.sent)
  }

  lemma {:induction false} TakeLineIsProper(read: Reader, t: Task, line: string, rest: string)
    requires Proper(t) && !t.over
    ensures Proper(TakeLine(read, t, line, rest)) && t.sent <= TakeLine(read, t, line, rest).sent
  {
    var next := TakeLine(read, t, line, rest);
    if next.over { assert next.sent[..|next.sent| - 1] == t.sent; }
  }

  lemma {:induction false} DrainIsProper(read: Reader, t: Task)
    requires Proper(t)
    ensures Proper(Drain(read, t)) && t.sent <= Drain(read, t).sent
    decreases |t.buf|
  {
    var nl := NewlineAt(t.buf);
    if !t.over && nl.Some? {
      TakeLineIsProper(read, t, t.buf[..nl.value], t.buf[nl.value + 1..]);
      DrainIsProper(read, TakeLine(read, t, t.buf[..nl.value], t.buf[nl.value + 1..]));
    }
  }

  lemma {:induction false} FailingIsProper(t: Task, f: Failure)
    requires Proper(t) && !t.over
    ensures Proper(Failing(t, f)) && t.sent <= Failing(t, f).sent
  {
    assert Failing(t, f).sent[..|t.sent|] == t.sent;
  }

  lemma {:induction false} AbsorbIsProper(e: Env, t: Task, polls: seq<Poll>)
    requires Proper(t)
    ensures Proper(AbsorbAll(e, t, polls)) && t.sent <= AbsorbAll(e, t, polls).sent
  {
    if polls != [] {
      var before, p := AbsorbAll(e, t, polls[..|polls| - 1]), polls[|polls| - 1];
      AbsorbIsProper(e, t, polls[..|polls| - 1]);
      if !before.over {
        if p.cancelled {
          FailingIsProper(before, Cancelled);
        } else if p.next == None {
          FailingIsProper(before, ReadError);
        } else {
          DrainIsProper(e.read, before.(buf := before.buf + Lossy(e.repair, p.next.value)));
        }
      }
    }
  }

  lemma {:induction false} FinishEndsOnce(e: Env, t: Task)
    requires Proper(t)
    ensures EndsOnce(Finish(e, t).sent) && t.sent <= Finish(e, t).sent
    ensures t.over ==> Finish(e, t).sent[|Finish(e, t).sent| - 1].Failed?
  {
    if !t.over {
      TakeLineIsProper(e.read, t, t.buf, "");
      var last := if Trim(t.buf) == "" then t else TakeLine(e.read, t, t.buf, "");
      if !last.over {
        var r := Finish(e, t).sent;
        assert r[..|r| - 1] == last.sent;
      }
    }
  }

  lemma {:induction false} RoughIsOver(e: Env, polls: seq<Poll>)
    requires !Smooth(polls)
    ensures AbsorbAll(e, START, polls).over
  {
    var before, p := polls[..|polls| - 1], polls[|polls| - 1];
    if !p.cancelled && p.next.Some? {
      assert !Smooth(before) by {
        var i :| 0 <= i < |polls| && (polls[i].cancelled || polls[i].next == None);
        assert before[i] == polls[i];
      }
      RoughIsOver(e, before);
    }
  }

  /**
   * Every run sends events and then exactly one terminal item. It is `Done` exactly when the flag was never seen
   * raised, every read succeeded, every line decoded without an error, and some line said done.
   */
  lemma {:induction false} RunProtocol(e: Env, polls: seq<Poll>)
    requires IgnoresBlanks(e.read)
    ensures EndsOnce(RunItems(e, polls))
    ensures var r, lines := RunItems(e, polls), Split(Arrived(e, polls));
      r[|r| - 1] == Done <==> Smooth(polls) && AllOk(e.read, lines) && SomeDone(e.read, lines)
  {
    AbsorbIsProper(e, START, polls);
    FinishEndsOnce(e, AbsorbAll(e, START, polls));
    if Smooth(polls) {
      SmoothRunIsJudge(e, polls);
      JudgeMeans(e.read, Split(Arrived(e, polls)), false);
    } else {
      RoughIsOver(e, polls);
    }
  }

  lemma {:induction false} OverStays(e: Env, t: Task, polls: seq<Poll>)
    requires t.over
    ensures AbsorbAll(e, t, polls) == t
  {
    if polls != [] { OverStays(e, t, polls[..|polls| - 1]); }
  }

  lemma {:induction false} AbsorbSplit(e: Env, t: Task, polls: seq<Poll>, k: nat)
    requires k <= |polls|
    ensures AbsorbAll(e, t, polls) == AbsorbAll(e, AbsorbAll(e, t, polls[..k]), polls[k..])
    decreases |polls|
  {
    if k == |polls| {
      assert polls[..k] == polls && polls[k..] == [];
    } else {
      var before := polls[..|polls| - 1];
      AbsorbSplit(e, t, before, k);
      assert before[..k] == polls[..k] && polls[k..][..|polls[k..]| - 1] == before[k..];
    }
  }

  /**
   * What arrives once the flag is seen raised yields nothing: the run is what came before, and the word that it was
   * cancelled.
   */
  lemma {:induction false} CancelStops(e: Env, polls: seq<Poll>, k: nat)
    requires k < |polls| && polls[k].cancelled
    ensures var t := AbsorbAll(e, START, polls[..k]);
      RunItems(e, polls) == if t.over then t.sent else t.sent + [Failed(Cancelled)]
  {
    var t := AbsorbAll(e, START, polls[..k]);
    AbsorbSplit(e, START, polls, k + 1);
    assert polls[..k + 1][..k] == polls[..k];
    OverStays(e, Absorb(e, t, polls[k]), polls[k + 1..]);
  }

  // ---------- runs that are disturbed ----------

  /** The lines that have ended. */
  function Complete(text: string): seq<string> {
    Split(text)[..|Split(text)| - 1]
  }

  /**
   * What is sent for some lines when `word` is what follows them: all events and the word, or up to the first failure.
   */
  function Told(read: Reader, lines: seq<string>, word: Item): seq<Item> {
    if lines == [] then [word] else
      match read(lines[0])
      case Err(f) => [Failed(f)]
      case Ok((events, _)) => AsItems(events) + Told(read, lines[1..], word)
  }

  lemma {:induction false} JudgeIsTold(read: Reader, lines: seq<string>, done: bool)
    ensures Judge(read, lines, done) ==
      Told(read, lines, if done || SomeDone(read, lines) then Done else Failed(EndedEarly))
  {
    if lines != [] && LineAt(read, lines, 0).Ok? {
      LinesLater(read, lines);
      JudgeIsTold(read, lines[1..], done || LineAt(read, lines, 0).value.1);
    }
  }

  /** Draining tells the complete lines; it fails, or goes on with what is left in the buffer. */
  lemma {:induction false} DrainTells(read: Reader, t: Task, word: Item)
    requires !t.over
    ensures var d := Drain(read, t);
      t.sent + Told(read, Complete(t.buf), word) == if d.over then d.sent else d.sent + [word]
    decreases |t.buf|
  {
    var nl := NewlineAt(t.buf);
    if nl.Some? {
      var line, rest := t.buf[..nl.value], t.buf[nl.value + 1..];
      var next := TakeLine(read, t, line, rest);
      DrainLine(read, t, nl.value, line, rest);
      assert Complete(t.buf) == [line] + Complete(rest) && ([line] + Complete(rest))[1..] == Complete(rest);
      FirstLineIsTold(read, t, line, rest, Complete(rest), word);
      if !next.over { DrainTells(read, next, word); }
    }
  }

  lemma {:induction false} FirstLineIsTold(read: Reader, t: Task, line: string, rest: string, later: seq<string>,
      word: Item)
    requires !t.over
    ensures var next := TakeLine(read, t, line, rest);
      t.sent + Told(read, [line] + later, word) == if next.over then next.sent else next.sent + Told(read, later, word)
    ensures var next := TakeLine(read, t, line, rest); !next.over ==> next.buf == rest
  {
    assert ([line] + later)[1..] == later;
  }

  /** The first poll that sees the flag raised, or a read error. */
  ghost predicate IsDisturbed(polls: seq<Poll>, k: nat) {
    k < |polls| && Smooth(polls[..k]) && (polls[k].cancelled || polls[k].next == None)
  }

  /** A run that is disturbed tells the lines that had ended, and then what disturbed it. */
  lemma {:induction false} DisturbedRun(e: Env, polls: seq<Poll>, k: nat)
    requires IsDisturbed(polls, k)
    ensures RunItems(e, polls) ==
      Told(e.read, Complete(Arrived(e, polls[..k])), Failed(if polls[k].cancelled then Cancelled else ReadError))
  {
    var word := Failed(if polls[k].cancelled then Cancelled else ReadError);
    var begin := START.(buf := Arrived(e, polls[..k]));
    var t := AbsorbAll(e, START, polls[..k]);
    AbsorbIsDrain(e, polls[..k]);
    DrainTells(e.read, begin, word);
    assert [] + Told(e.read, Complete(begin.buf), word) == Told(e.read, Complete(begin.buf), word);
    AbsorbSplit(e, START, polls, k + 1);
    assert polls[..k + 1][..k] == polls[..k];
    OverStays(e, Absorb(e, t, polls[k]), polls[k + 1..]);
  }

  // ---------- what is sent, over the records ----------

  function Kind(e: Event): nat {
    match e
    case ThinkingChunk(_) => 0
    case TextChunk(_) => 1
    case ToolCall(_) => 2
    case Usage(_, _) => 3
  }

  function OfKind(events: seq<Event>, kind: nat): seq<Event> {
    if events == [] then [] else (if Kind(events[0]) == kind then [events[0]] else []) + OfKind(events[1..], kind)
  }

  predicate IsThinking(x: Record, events: seq<Event>) {
    match x.message
    case Some(Message(_, Some(thinking), _)) => events == if thinking != "" then [ThinkingChunk(thinking)] else []
    case _ => events == []
  }

  predicate IsText(x: Record, events: seq<Event>) {
    match x.message
    case Some(Message(Some(content), _, _)) => events == if content != "" then [TextChunk(content)] else []
    case _ => events == []
  }

  predicate AreCalls(x: Record, events: seq<Event>) {
    match x.message
    case Some(Message(_, _, Some(calls))) =>
      |events| == |calls| && forall i :: 0 <= i < |calls| ==> events[i] == ToolCall(calls[i])
    case _ => events == []
  }

  /** The two counts, when the record says done and has the second; the first counts as zero when it is not there. */
  predicate IsUsage(x: Record, events: seq<Event>) {
    match (x.done, x.evalCount)
    case (Some(true), Some(completion)) =>
      |events| == 1 && events[0].Usage? && events[0].completion == completion &&
      (match x.promptCount case Some(prompt) => events[0].prompt == prompt case None => events[0].prompt == 0)
    case _ => events == []
  }

  /** The thinking of a record, then its text, then its tool calls in order, then the counts. */
  ghost predicate AreEventsOf(x: Record, events: seq<Event>) {
    && (forall i, j :: 0 <= i < j < |events| ==> Kind(events[i]) <= Kind(events[j]))
    && IsThinking(x, OfKind(events, 0)) && IsText(x, OfKind(events, 1))
    && AreCalls(x, OfKind(events, 2)) && IsUsage(x, OfKind(events, 3))
  }

  lemma {:induction false} OfKindJoin(a: seq<Event>, b: seq<Event>, kind: nat)
    ensures OfKind(a + b, kind) == OfKind(a, kind) + OfKind(b, kind)
  {
    if a == [] {
      assert a + b == b;
    } else {
      assert (a + b)[1..] == a[1..] + b;
      OfKindJoin(a[1..], b, kind);
    }
  }

  predicate AllOfKind(events: seq<Event>, kind: nat) {
    forall i :: 0 <= i < |events| ==> Kind(events[i]) == kind
  }

  lemma {:induction false} OfOneKind(events: seq<Event>, own: nat, kind: nat)
    requires AllOfKind(events, own)
    ensures OfKind(events, kind) == if kind == own then events else []
  {
    if events != [] {
      OfOneKind(events[1..], own, kind);
      assert events == [events[0]] + events[1..];
    }
  }

  /** Four lists, one of each kind, one after another. */
  lemma {:induction false} FourKinds(a: seq<Event>, b: seq<Event>, c: seq<Event>, d: seq<Event>)
    requires AllOfKind(a, 0) && AllOfKind(b, 1) && AllOfKind(c, 2) && AllOfKind(d, 3)
    ensures var all := a + b + c + d;
      && (forall i, j :: 0 <= i < j < |all| ==> Kind(all[i]) <= Kind(all[j]))
      && OfKind(all, 0) == a && OfKind(all, 1) == b && OfKind(all, 2) == c && OfKind(all, 3) == d
  {
    forall kind: nat | kind < 4
      ensures OfKind(a + b + c + d, kind) == OfKind(a, kind) + OfKind(b, kind) + OfKind(c, kind) + OfKind(d, kind)
      ensures OfKind(a, kind) == (if kind == 0 then a else []) && OfKind(b, kind) == (if kind == 1 then b else [])
      ensures OfKind(c, kind) == (if kind == 2 then c else []) && OfKind(d, kind) == (if kind == 3 then d else [])
    {
      OfKindJoin(a + b + c, d, kind);
      OfKindJoin(a + b, c, kind);
      OfKindJoin(a, b, kind);
      OfOneKind(a, 0, kind);
      OfOneKind(b, 1, kind);
      OfOneKind(c, 2, kind);
      OfOneKind(d, 3, kind);
    }
    KindsRise(a, b, c, d);
  }

  lemma {:induction false} KindsRise(a: seq<Event>, b: seq<Event>, c: seq<Event>, d: seq<Event>)
    requires AllOfKind(a, 0) && AllOfKind(b, 1) && AllOfKind(c, 2) && AllOfKind(d, 3)
    ensures var all := a + b + c + d; forall i, j :: 0 <= i < j < |all| ==> Kind(all[i]) <= Kind(all[j])
  {
    var all := a + b + c + d;
    forall i | 0 <= i < |all|
      ensures Kind(all[i]) == if i < |a| then 0 else if i < |a| + |b| then 1 else if i < |a| + |b| + |c| then 2 else 3
    {
      assert i < |a| ==> all[i] == a[i];
      assert |a| <= i < |a| + |b| ==> all[i] == b[i - |a|];
      assert |a| + |b| <= i < |a| + |b| + |c| ==> all[i] == c[i - |a| - |b|];
      assert |a| + |b| + |c| <= i ==> all[i] == d[i - |a| - |b| - |c|];
    }
  }

  lemma {:induction false} PartsAreThose(x: Record) returns (a: seq<Event>, b: seq<Event>, c: seq<Event>, d: seq<Event>)
    ensures EventsOf(x) == a + b + c + d
    ensures AllOfKind(a, 0) && AllOfKind(b, 1) && AllOfKind(c, 2) && AllOfKind(d, 3)
    ensures IsThinking(x, a) && IsText(x, b) && AreCalls(x, c) && IsUsage(x, d)
  {
    var m := if x.message.Some? then x.message.value else Message(None, None, None);
    a := if NonEmpty(m.thinking) then [ThinkingChunk(m.thinking.value)] else [];
    b := if NonEmpty(m.content) then [TextChunk(m.content.value)] else [];
    c := if m.toolCalls.Some? then CallEvents(m.toolCalls.value) else [];
    d := if x.done == Some(true) && x.evalCount.Some? then
      [Usage(if x.promptCount.Some? then x.promptCount.value else 0, x.evalCount.value)] else [];
  }

  lemma {:induction false} EventsAreThose(x: Record)
    ensures AreEventsOf(x, EventsOf(x))
  {
    var a, b, c, d := PartsAreThose(x);
    FourKinds(a, b, c, d);
  }

  /** The record of a line that is not blank, if it can be decoded. */
  function RecordIn(decode: Decoder, line: string): Option<Record> { decode(Trim(line)) }

  /** The line is blank, or a record without an error. */
  predicate IsGood(decode: Decoder, line: string) {
    IsBlank(line) || match RecordIn(decode, line) case Some(x) => x.error == None case None => false
  }

  predicate SaysDone(decode: Decoder, line: string) {
    !IsBlank(line) && match RecordIn(decode, line) case Some(x) => x.done == Some(true) case None => false
  }

  /** What a good line comes to. */
  ghost predicate AreLineEvents(decode: Decoder, line: string, events: seq<Event>) {
    IsGood(decode, line) && if IsBlank(line) then events == [] else AreEventsOf(RecordIn(decode, line).value, events)
  }

  /** Why a line that is not good ends the run. */
  predicate IsReason(decode: Decoder, line: string, f: Failure) {
    && !IsGood(decode, line)
    && match RecordIn(decode, line)
       case None => f == InvalidRecord
       case Some(x) => f == StreamError(x.error.value)
  }

  /** The outcome is that of the line. */
  ghost predicate IsOutcome(decode: Decoder, line: string, o: Outcome) {
    match o
    case Ok((events, isDone)) => AreLineEvents(decode, line, events) && (isDone <==> SaysDone(decode, line))
    case Err(f) => IsReason(decode, line, f)
  }

  /** The reader reads every line as the records have it. */
  ghost predicate Reads(decode: Decoder, read: Reader) {
    forall line :: ReadsLine(decode, read, line)
  }

  ghost predicate ReadsLine(decode: Decoder, read: Reader, line: string) {
    IsOutcome(decode, line, read(line))
  }

  lemma {:induction false} RecordOutcome(decode: Decoder, line: string, x: Record, events: seq<Event>)
    requires !IsBlank(line) && RecordIn(decode, line) == Some(x) && AreEventsOf(x, events)
    ensures IsOutcome(decode, line, if x.error.Some? then Err(StreamError(x.error.value))
      else Ok((events, x.done == Some(true))))
  {
  }

  lemma {:induction false} OutcomeMeans(decode: Decoder, line: string, t: string)
    requires t == Trim(line)
    ensures IsOutcome(decode, line, LineOutcome(decode, t))
  {
    var before, after := TrimSplits(line);
    TrimTwice(line);
    if t == "" {
      BlankIsRead(decode, line, t);
    } else if decode(t).Some? {
      EventsAreThose(decode(t).value);
      RecordOutcome(decode, line, decode(t).value, EventsOf(decode(t).value));
      RecordIsRead(decode, t, decode(t).value);
    } else {
      UndecodedIsRead(decode, line, t);
    }
  }

  lemma {:induction false} BlankIsRead(decode: Decoder, line: string, t: string)
    requires IsBlank(line) && Trim(t) == ""
    ensures IsOutcome(decode, line, LineOutcome(decode, t))
  {
  }

  lemma {:induction false} UndecodedIsRead(decode: Decoder, line: string, t: string)
    requires !IsBlank(line) && t == Trim(line) && Trim(t) == t != "" && decode(t) == None
    ensures IsOutcome(decode, line, LineOutcome(decode, t))
  {
  }

  lemma {:induction false} RecordIsRead(decode: Decoder, t: string, x: Record)
    requires Trim(t) == t != "" && decode(t) == Some(x)
    ensures LineOutcome(decode, t) == if x.error.Some? then Err(StreamError(x.error.value))
      else Ok((EventsOf(x), x.done == Some(true)))
  {
  }

  lemma {:induction false} ReaderReads(decode: Decoder)
    ensures Reads(decode, ReaderOf(decode)) && IgnoresBlanks(ReaderOf(decode))
  {
    ReaderIgnoresBlanks(decode);
    ReaderIsOutcome(decode);
    ReadsAll(decode, ReaderOf(decode));
  }

  lemma {:induction false} ReaderIsOutcome(decode: Decoder)
    ensures forall line :: ReaderOf(decode)(line) == LineOutcome(decode, Trim(line))
  {
  }

  lemma {:induction false} ReadsAll(decode: Decoder, read: Reader)
    requires forall line :: read(line) == LineOutcome(decode, Trim(line))
    ensures Reads(decode, read)
  {
    forall line ensures ReadsLine(decode, read,
      line) { LineIsRead(decode, read, line, LineOutcome(decode, Trim(line))); }
  }

  lemma {:induction false} LineIsRead(decode: Decoder, read: Reader, line: string, o: Outcome)
    requires read(line) == o && o == LineOutcome(decode, Trim(line))
    ensures ReadsLine(decode, read, line)
  {
    OutcomeMeans(decode, line, Trim(line));
  }

  function FlatEvents(parts: seq<seq<Event>>): seq<Event> {
    if parts == [] then [] else parts[0] + FlatEvents(parts[1..])
  }

  /**
   * The items are the events of the records of the lines, in order, up to the first line that is not good and the
   * reason why it is not; when all are good, `word` comes last.
   */
  ghost predicate Tells(decode: Decoder, lines: seq<string>, word: Item, r: seq<Item>) {
    exists parts: seq<seq<Event>> :: TellsParts(decode, lines, word, r, parts)
  }

  ghost predicate TellsParts(decode: Decoder, lines: seq<string>, word: Item, r: seq<Item>, parts: seq<seq<Event>>) {
    && r != [] && r[..|r| - 1] == AsItems(FlatEvents(parts)) && |parts| <= |lines|
    && (forall k :: 0 <= k < |parts| ==> AreLineEvents(decode, lines[k], parts[k]))
    && (if |parts| == |lines| then r[|r| - 1] == word
        else exists f :: IsReason(decode, lines[|parts|], f) && r[|r| - 1] == Failed(f))
  }

  lemma {:induction false} ToldTells(decode: Decoder, read: Reader, lines: seq<string>, word: Item)
    returns (parts: seq<seq<Event>>)
    requires Reads(decode, read)
    ensures TellsParts(decode, lines, word, Told(read, lines, word), parts)
  {
    parts := [];
    if lines == [] {
      assert AsItems([]) == [];
    } else {
      assert ReadsLine(decode, read, lines[0]);
      match read(lines[0])
      case Err(f) => assert AsItems([]) == [];
      case Ok((events, _)) =>
        var later := ToldTells(decode, read, lines[1..], word);
        parts := [events] + later;
        TellsNext(decode, lines, word, Told(read, lines[1..], word), later, events);
    }
  }

  lemma {:induction false} TellsNext(decode: Decoder, lines: seq<string>, word: Item, tail: seq<Item>,
      later: seq<seq<Event>>, events: seq<Event>)
    requires lines != [] && TellsParts(decode, lines[1..], word, tail, later) && AreLineEvents(decode, lines[0], events)
    ensures TellsParts(decode, lines, word, AsItems(events) + tail, [events] + later)
  {
    var r, parts := AsItems(events) + tail, [events] + later;
    assert parts[1..] == later && ([lines[0]] + lines[1..]) == lines;
    ItemsJoin(events, FlatEvents(later));
    assert r[..|r| - 1] == AsItems(events) + tail[..|tail| - 1];
    EachNext((line, own) => AreLineEvents(decode, line, own), lines[0], lines[1..], events, later);
  }

  /** What holds of the first two, and of the others pair by pair, holds of all. */
  lemma {:induction false} EachNext<A, B>(p: (A, B) -> bool, x: A, xs: seq<A>, y: B, ys: seq<B>)
    requires |ys| <= |xs| && p(x, y) && forall k :: 0 <= k < |ys| ==> p(xs[k], ys[k])
    ensures forall k :: 0 <= k < |ys| + 1 ==> p(([x] + xs)[k], ([y] + ys)[k])
  {
  }

  ghost predicate SomeSaysDone(decode: Decoder, lines: seq<string>) {
    exists k :: 0 <= k < |lines| && SaysDone(decode, lines[k])
  }

  ghost predicate AllGood(decode: Decoder, lines: seq<string>) {
    forall k :: 0 <= k < |lines| ==> IsGood(decode, lines[k])
  }

  /** All that is said of a run, over the records of the lines that arrived. */
  ghost predicate KeepsProtocol(decode: Decoder, e: Env, polls: seq<Poll>, r: seq<Item>) {
    var lines := Split(Arrived(e, polls));
    && EndsOnce(r)
    && (r[|r| - 1] == Done <==> Smooth(polls) && AllGood(decode, lines) && SomeSaysDone(decode, lines))
    && (Smooth(polls) ==>
          Tells(decode, lines, if SomeSaysDone(decode, lines) then Done else Failed(EndedEarly), r))
    && (forall k :: 0 <= k < |polls| && IsDisturbed(polls, k) ==>
          Tells(decode, Complete(Arrived(e, polls[..k])),
            Failed(if polls[k].cancelled then Cancelled else ReadError), r))
  }

  lemma {:induction false} ReaderSaysDone(decode: Decoder, read: Reader, lines: seq<string>)
    requires Reads(decode, read)
    ensures AllOk(read, lines) <==> AllGood(decode, lines)
    ensures AllGood(decode, lines) ==> (SomeDone(read, lines) <==> SomeSaysDone(decode, lines))
  {
    forall k | 0 <= k < |lines|
      ensures LineAt(read, lines, k).Ok? <==> IsGood(decode, lines[k])
      ensures LineAt(read, lines, k).Ok? ==> (LineAt(read, lines, k).value.1 <==> SaysDone(decode, lines[k]))
    {
      assert ReadsLine(decode, read, lines[k]);
    }
  }

  /**
   * The protocol, for the decoder of the program: what is sent and how it ends depend on the records as they were
   * written.
   */
  lemma {:induction false} DecodedRunProtocol(decode: Decoder, e: Env, polls: seq<Poll>)
    requires e.read == ReaderOf(decode)
    ensures KeepsProtocol(decode, e, polls, RunItems(e, polls))
  {
    ReaderReads(decode);
    RunKeepsProtocol(decode, e, polls);
  }

  lemma {:induction false} RunKeepsProtocol(decode: Decoder, e: Env, polls: seq<Poll>)
    requires Reads(decode, e.read) && IgnoresBlanks(e.read)
    ensures KeepsProtocol(decode, e, polls, RunItems(e, polls))
  {
    ReaderSaysDone(decode, e.read, Split(Arrived(e, polls)));
    RunProtocol(e, polls);
    if Smooth(polls) { SmoothRunTells(decode, e, polls); }
    forall k | 0 <= k < |polls| && IsDisturbed(polls, k)
      ensures Tells(decode, Complete(Arrived(e, polls[..k])),
                    Failed(if polls[k].cancelled then Cancelled else ReadError), RunItems(e, polls))
    {
      DisturbedRunTells(decode, e, polls, k);
    }
  }

  lemma {:induction false} DisturbedRunTells(decode: Decoder, e: Env, polls: seq<Poll>, k: nat)
    requires Reads(decode, e.read) && IsDisturbed(polls, k)
    ensures Tells(decode, Complete(Arrived(e, polls[..k])),
                  Failed(if polls[k].cancelled then Cancelled else ReadError), RunItems(e, polls))
  {
    DisturbedRun(e, polls, k);
    var parts := ToldTells(decode, e.read, Complete(Arrived(e, polls[..k])),
                           Failed(if polls[k].cancelled then Cancelled else ReadError));
  }

  lemma {:induction false} SmoothRunTells(decode: Decoder, e: Env, polls: seq<Poll>)
    requires Reads(decode, e.read) && IgnoresBlanks(e.read) && Smooth(polls)
    ensures var lines := Split(Arrived(e, polls));
      Tells(decode, lines, if SomeSaysDone(decode, lines) then Done else Failed(EndedEarly), RunItems(e, polls))
  {
    SmoothRunIsJudge(e, polls);
    JudgeTells(decode, e.read, Split(Arrived(e, polls)));
  }

  lemma {:induction false} JudgeTells(decode: Decoder, read: Reader, lines: seq<string>)
    requires Reads(decode, read)
    ensures Tells(decode, lines, if SomeSaysDone(decode, lines) then Done
      else Failed(EndedEarly), Judge(read, lines, false))
  {
    var word := if SomeSaysDone(decode, lines) then Done else Failed(EndedEarly);
    JudgeIsTold(read, lines, false);
    ReaderSaysDone(decode, read, lines);
    if !AllGood(decode, lines) {
      WordIsNotHeard(read, lines, word, if SomeDone(read, lines) then Done else Failed(EndedEarly));
    }
    var parts := ToldTells(decode, read, lines, word);
  }

  /** After a failure nothing more is said. */
  lemma {:induction false} WordIsNotHeard(read: Reader, lines: seq<string>, word: Item, other: Item)
    requires !AllOk(read, lines)
    ensures Told(read, lines, word) == Told(read, lines, other)
  {
    if LineAt(read, lines, 0).Ok? {
      LinesLater(read, lines);
      WordIsNotHeard(read, lines[1..], word, other);
    }
  }

  // ---------- the task with its own variables ----------

  /** What a receiver that closes after `room` items gets; `None` stays open. */
  function Upto(items: seq<Item>, room: Option<nat>): seq<Item> {
    if room.Some? && room.value < |items| then items[..room.value] else items
  }

  function Full(sent: seq<Item>, room: Option<nat>): bool {
    room.Some? && room.value <= |sent|
  }

  datatype LineEnd = Closed | Broken | Read(isDone: bool)

  class OllamaProvider {
    var cancelFlags: map<string, bool>

    /** `parse_ndjson_line`, with the events going to a queue that a failure leaves empty. */
    method ParseLine(decode: Decoder, line: string) returns (r: Result<bool, Failure>, queue: seq<Event>)
      ensures match LineOutcome(decode, line)
        case Err(f) => r == Err(f) && queue == []
        case Ok((events, isDone)) => r == Ok(isDone) && queue == events
    {
      queue := [];
      if Trim(line) == "" {
        return Ok(false), queue;
      }
      var record := decode(line);
      if record == None {
        return Err(InvalidRecord), queue;
      }
      r, queue := PushEvents(record.value);
    }

    /** What the task does with a line it cut off: trim it, then parse it. */
    method ReadLine(decode: Decoder, line: string) returns (r: Outcome)
      ensures r == ReaderOf(decode)(line)
    {
      r := ReadTrimmed(decode, Trim(line));
    }

    method ReadTrimmed(decode: Decoder, line: string) returns (r: Outcome)
      ensures r == LineOutcome(decode, line)
    {
      var isDone, queue := ParseLine(decode, line);
      r := match isDone case Ok(done) => Ok((queue, done)) case Err(f) => Err(f);
    }

    method PushEvents(x: Record) returns (r: Result<bool, Failure>, queue: seq<Event>)
      ensures x.error.Some? ==> r == Err(StreamError(x.error.value)) && queue == []
      ensures x.error == None ==> r == Ok(x.done == Some(true)) && queue == EventsOf(x)
    {
      queue := [];
      if x.error.Some? {
        return Err(StreamError(x.error.value)), queue;
      }
      if x.message.Some? {
        queue := PushMessage(x.message.value);
      }
      var done := x.done == Some(true);
      if done && x.evalCount.Some? {
        queue := queue + [Usage(if x.promptCount.Some? then x.promptCount.value else 0, x.evalCount.value)];
      }
      r := Ok(done);
    }

    method PushMessage(m: Message) returns (queue: seq<Event>)
      ensures queue == MessageEvents(m)
    {
      queue := [];
      if NonEmpty(m.thinking) {
        queue := queue + [ThinkingChunk(m.thinking.value)];
      }
      if NonEmpty(m.content) {
        queue := queue + [TextChunk(m.content.value)];
      }
      if m.toolCalls.Some? {
        queue := PushCalls(queue, m.toolCalls.value);
      }
    }

    method PushCalls(before: seq<Event>, calls: seq<Call>) returns (queue: seq<Event>)
      ensures queue == before + CallEvents(calls)
    {
      queue := before;
      for i := 0 to |calls|
        invariant queue == before + CallEvents(calls)[..i]
      {
        queue := queue + [ToolCall(calls[i])];
      }
      assert CallEvents(calls)[..|calls|] == CallEvents(calls);
    }

    /** Send the queue; a closed receiver ends the task. */
    method SendQueue(sent: seq<Item>, queue: seq<Event>, room: Option<nat>) returns (now: seq<Item>, closed: bool)
      requires room.Some? ==> |sent| <= room.value
      ensures !closed ==> now == sent + AsItems(queue) && (room.Some? ==> |now| <= room.value)
      ensures closed ==> Full(now, room) && now <= sent + AsItems(queue) && now == Upto(sent + AsItems(queue), room)
    {
      now := sent;
      for i := 0 to |queue|
        invariant now == sent + AsItems(queue)[..i]
        invariant room.Some? ==> |now| <= room.value
      {
        if Full(now, room) {
          assert (sent + AsItems(queue))[..|now|] == now;
          return now, true;
        }
        now := now + [Sent(queue[i])];
      }
      assert AsItems(queue)[..|queue|] == AsItems(queue);
      closed := false;
    }

    method ReleaseId(taskId: Option<string>)
      modifies this
      ensures cancelFlags == Released(old(cancelFlags), taskId)
    {
      if taskId.Some? {
        cancelFlags := cancelFlags - {taskId.value};
      }
    }

    /** `let _ = tx.send(..)`: the last item, lost when the receiver has closed. */
    method SendLast(sent: seq<Item>, item: Item, room: Option<nat>) returns (now: seq<Item>)
      requires room.Some? ==> |sent| <= room.value
      ensures now == Upto(sent + [item], room)
    {
      now := if Full(sent, room) then sent else sent + [item];
    }

    /** One line: read it and send its events. */
    method HandleLine(read: Reader, line: string, sent: seq<Item>, room: Option<nat>)
        returns (now: seq<Item>, end: LineEnd)
      requires room.Some? ==> |sent| <= room.value
      ensures match read(line)
        case Err(f) => end == Broken && now == Upto(sent + [Failed(f)], room)
        case Ok((events, isDone)) =>
          && now == Upto(sent + AsItems(events), room)
          && (end == Closed || end == Read(isDone))
          && (end == Closed ==> Full(now, room))
          && (end == Read(isDone) ==> now == sent + AsItems(events) && (room.Some? ==> |now| <= room.value))
    {
      match read(line)
      case Err(f) =>
        now := SendLast(sent, Failed(f), room);
        end := Broken;
      case Ok((queue, isDone)) =>
        var closed;
        now, closed := SendQueue(sent, queue, room);
        end := if closed then Closed else Read(isDone);
    }

    /** The inner loop: every complete line of the buffer, until one ends the task. */
    method DrainBuffer(read: Reader, before: seq<Item>, text: string, doneBefore: bool, room: Option<nat>)
      returns (sent: seq<Item>, buf: string, done: bool, open: bool)
      requires room.Some? ==> |before| <= room.value
      ensures var t := Drain(read, Task(before, text, doneBefore, false));
        if open then t == Task(sent, buf, done, false) && (room.Some? ==> |sent| <= room.value)
        else sent == Upto(t.sent, room) && (t.over || Full(sent, room))
    {
      sent, buf, done := before, text, doneBefore;
      while true
        invariant room.Some? ==> |sent| <= room.value
        invariant Drain(read, Task(sent, buf, done, false)) == Drain(read, Task(before, text, doneBefore, false))
        decreases |buf|
      {
        var nl := NewlineAt(buf);
        if nl == None {
          return sent, buf, done, true;
        }
        ghost var t := Task(sent, buf, done, false);
        var line := buf[..nl.value];
        buf := buf[nl.value + 1..];
        ghost var next := TakeLine(read, t, line, buf);
        DrainLine(read, t, nl.value, line, buf);
        DrainGrows(read, next);
        var end;
        sent, end := HandleLine(read, line, sent, room);
        if end == Broken {
          return sent, buf, done, false;
        }
        if end == Closed {
          UptoStable(next.sent, Drain(read, next).sent, room);
          return sent, buf, done, false;
        }
        if end.isDone {
          done := true;
        }
        assert next == Task(sent, buf, done, false);
      }
    }

    /**
     * The spawned task. The polls tell what the flag said and what the stream gave each time; `room` is when the
     * receiver closes, if it does. Whatever ends the task, its id is taken out of the map.
     */
    method StreamTask(e: Env, taskId: Option<string>, polls: seq<Poll>, room: Option<nat>) returns (sent: seq<Item>)
      modifies this
      ensures sent == Upto(RunItems(e, polls), room)
      ensures cancelFlags == Released(old(cancelFlags), taskId)
    {
      var buf, done, open := "", false, true;
      sent := [];
      for i := 0 to |polls|
        invariant cancelFlags == old(cancelFlags)
        invariant room.Some? ==> |sent| <= room.value
        invariant AbsorbAll(e, START, polls[..i]) == Task(sent, buf, done, false)
      {
        assert polls[..i + 1][..i] == polls[..i];
        SentSoFar(e, polls, i + 1);
        ghost var t := AbsorbAll(e, START, polls[..i + 1]);
        if polls[i].cancelled {
          sent := SendLast(sent, Failed(Cancelled), room);
          ReleaseId(taskId);
          return;
        }
        if polls[i].next == None {
          sent := SendLast(sent, Failed(ReadError), room);
          ReleaseId(taskId);
          return;
        }
        buf := buf + Lossy(e.repair, polls[i].next.value);
        sent, buf, done, open := DrainBuffer(e.read, sent, buf, done, room);
        if !open {
          if !t.over { UptoStable(t.sent, RunItems(e, polls), room); }
          ReleaseId(taskId);
          return;
        }
      }
      assert polls[..|polls|] == polls;
      sent := FinishStream(e, sent, buf, done, room);
      ReleaseId(taskId);
    }

    /** After the stream: the rest of the buffer, then the last word. */
    method FinishStream(e: Env, before: seq<Item>, buf: string, doneBefore: bool, room: Option<nat>)
        returns (sent: seq<Item>)
      requires room.Some? ==> |before| <= room.value
      ensures sent == Upto(Finish(e, Task(before, buf, doneBefore, false)).sent, room)
    {
      ghost var t := Task(before, buf, doneBefore, false);
      var done := doneBefore;
      sent := before;
      if Trim(buf) != "" {
        ghost var last := TakeLine(e.read, t, buf, "");
        var end;
        sent, end := HandleLine(e.read, buf, sent, room);
        if end == Broken {
          return;
        }
        if end == Closed {
          UptoStable(last.sent, Finish(e, t).sent, room);
          return;
        }
        if end.isDone {
          done := true;
        }
        assert last == Task(sent, "", done, false);
      }
      if !done {
        sent := SendLast(sent, Failed(EndedEarly), room);
      } else {
        sent := SendLast(sent, Done, room);
      }
    }
  }

  /** A receiver that is full before the end sees nothing of what follows. */
  lemma {:induction false} UptoStable(sent: seq<Item>, all: seq<Item>, room: Option<nat>)
    requires sent <= all && Full(Upto(sent, room), room)
    ensures Upto(all, room) == Upto(sent, room)
  {
  }

  lemma {:induction false} DrainGrows(read: Reader, t: Task)
    ensures t.sent <= Drain(read, t).sent
    decreases |t.buf|
  {
    var nl := NewlineAt(t.buf);
    if !t.over && nl.Some? {
      DrainGrows(read, TakeLine(read, t, t.buf[..nl.value], t.buf[nl.value + 1..]));
    }
  }

  lemma {:induction false} AbsorbGrows(e: Env, t: Task, polls: seq<Poll>)
    ensures t.sent <= AbsorbAll(e, t, polls).sent
  {
    if polls != [] {
      var before, p := AbsorbAll(e, t, polls[..|polls| - 1]), polls[|polls| - 1];
      AbsorbGrows(e, t, polls[..|polls| - 1]);
      if !before.over && !p.cancelled && p.next.Some? {
        DrainGrows(e.read, before.(buf := before.buf + Lossy(e.repair, p.next.value)));
      }
    }
  }

  /** What a run has sent after some polls is how the whole run begins, and all of it once the task is over. */
  lemma {:induction false} SentSoFar(e: Env, polls: seq<Poll>, k: nat)
    requires k <= |polls|
    ensures var t := AbsorbAll(e, START, polls[..k]);
      t.sent <= RunItems(e, polls) && (t.over ==> t.sent == RunItems(e, polls))
  {
    var t := AbsorbAll(e, START, polls[..k]);
    AbsorbSplit(e, START, polls, k);
    AbsorbGrows(e, t, polls[k..]);
    if t.over { OverStays(e, t, polls[k..]); }
  }

  function Released(flags: map<string, bool>, taskId: Option<string>): map<string, bool> {
    if taskId.Some? then flags - {taskId.value} else flags
  }
}
