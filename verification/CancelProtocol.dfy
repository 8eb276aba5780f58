/**
 * Streaming runs, `cancel` calls and shutdowns interleaved in any order over the shared flag map
 * (crates/termlm-inference/src/ollama.rs).
 */
module CancelProtocol {
  import opened Wrappers
  import opened Utf8
  import opened OllamaStream

  /**
   * A run waits for its response, then streams until it is over, or, when it does not stream, is answered at once;
   * it was abandoned when the request failed.
   */
  datatype Phase = Requesting | Streaming | Over | Answered | Abandoned

  /**
   * The log is what the task has seen of the flag and the stream so far; `room` is how many items the receiver takes
   * before it closes, if it does.
   */
  datatype Run = Run(id: Option<string>, streams: bool, room: Option<nat>, phase: Phase, log: seq<Poll>, task: Task)

  /** Each run owns the flag with its own number; the map says which flag a task id stands for. */
  datatype World = World(flags: map<string, nat>, raised: set<nat>, runs: seq<Run>)

  datatype Action =
    | Start(id: Option<string>, streams: bool, room: Option<nat>)
    | RequestFails(run: nat)
    | Connected(run: nat)
    | Answer(run: nat)
    | Arrives(run: nat, next: Option<Bytes>)
    | StreamEnds(run: nat)
    | Cancel(key: string)
    | Shutdown

  const EMPTY := World(map[], {}, [])

  function Release(flags: map<string, nat>, id: Option<string>): map<string, nat> {
    if id.Some? then flags - {id.value} else flags
  }

  /** Only a run that streams gets a flag. */
  function Enter(flags: map<string, nat>, id: Option<string>, streams: bool, run: nat): map<string, nat> {
    if streams && id.Some? then flags[id.value := run] else flags
  }

  predicate InPhase(w: World, run: nat, phase: Phase) {
    run < |w.runs| && w.runs[run].phase == phase
  }

  predicate Enabled(w: World, a: Action) {
    match a
    case Start(_, _, _) => true
    case RequestFails(run) => InPhase(w, run, Requesting)
    case Connected(run) => InPhase(w, run, Requesting) && w.runs[run].streams
    case Answer(run) => InPhase(w, run, Requesting) && !w.runs[run].streams
    case Arrives(run, _) => InPhase(w, run, Streaming)
    case StreamEnds(run) => InPhase(w, run, Streaming)
    case Cancel(_) => true
    case Shutdown => true
  }

  /** A run without an id has no flag, so it never sees one raised. */
  function Seen(w: World, run: nat): bool
    requires run < |w.runs|
  {
    w.runs[run].id.Some? && run in w.raised
  }

  function Settled(w: World, run: nat, r: Run): World
    requires run < |w.runs|
  {
    w.(runs := w.runs[run := r], flags := if r.phase == Over then Release(w.flags, r.id) else w.flags)
  }

  /** The run after a poll that led to the task `t`. */
  function Polled(r: Run, p: Poll, t: Task): Run {
    r.(phase := if t.over then Over else Streaming, log := r.log + [p], task := t)
  }

  /** A task that has more to send than its receiver takes is over. */
  function Capped(t: Task, room: Option<nat>): Task {
    if room.Some? && room.value < |t.sent| then t.(sent := t.sent[..room.value], over := true) else t
  }

  function Apply(e: Env, w: World, a: Action): World
    requires Enabled(w, a)
  {
    match a
    case Start(id, streams, room) =>
      w.(runs := w.runs + [Run(id, streams, room, Requesting, [], START)],
        flags := Enter(w.flags, id, streams, |w.runs|))
    case RequestFails(run) => w.(runs := w.runs[run := w.runs[run].(phase := Abandoned)])
    case Connected(run) => w.(runs := w.runs[run := w.runs[run].(phase := Streaming)])
    case Answer(run) =>
      w.(runs := w.runs[run := w.runs[run].(phase := Answered)], flags := Release(w.flags, w.runs[run].id))
    case Arrives(run, next) =>
      var r, p := w.runs[run], Poll(Seen(w, run), next);
      Settled(w, run, Polled(r, p, Capped(Absorb(e, r.task, p), r.room)))
    case StreamEnds(run) =>
      var r := w.runs[run];
      Settled(w, run, r.(phase := Over, task := Capped(Finish(e, r.task), r.room)))
    case Cancel(key) => if key in w.flags then w.(raised := w.raised + {w.flags[key]}) else w
    case Shutdown => w.(flags := map[])
  }

  /** The world after a schedule; an action that is not enabled does not happen. */
  function After(e: Env, actions: seq<Action>): World {
    if actions == [] then EMPTY else
      var w, a := After(e, actions[..|actions| - 1]), actions[|actions| - 1];
      if Enabled(w, a) then Apply(e, w, a) else w
  }

  // ---------- every schedule ----------

  /**
   * A task that goes on is where its log leads; one that is over has sent what its log says, as far as its receiver
   * took it.
   */
  ghost predicate Faithful(e: Env, r: Run) {
    && ((r.phase == Streaming || r.phase == Requesting) ==>
      r.task == AbsorbAll(e, START, r.log) && !r.task.over && Capped(r.task, r.room) == r.task)
    && (r.phase == Requesting ==> r.log == [])
    && (r.phase == Over ==> r.task.over && r.task.sent == Upto(RunItems(e, r.log), r.room))
    && (r.phase == Abandoned || r.phase == Answered ==> r.task == START)
    && (r.phase == Streaming || r.phase == Over ==> r.streams)
    && (r.phase == Answered ==> !r.streams)
  }

  ghost predicate Invariant(e: Env, w: World) {
    && (forall i :: 0 <= i < |w.runs| ==> Faithful(e, w.runs[i]))
    && FlagsAreHeld(w)
  }

  /** An id stands for a run that was started with it, streams and is not over. */
  ghost predicate FlagsAreHeld(w: World) {
    forall key :: key in w.flags ==>
      w.flags[key] < |w.runs| && var r := w.runs[w.flags[key]]; r.id == Some(key) && r.streams && r.phase != Over
  }

  lemma {:induction false} LogGrows(e: Env, r: Run, p: Poll)
    requires Faithful(e, r) && r.phase == Streaming
    ensures Faithful(e, Polled(r, p, Capped(Absorb(e, r.task, p), r.room)))
  {
    var t, log := Absorb(e, r.task, p), r.log + [p];
    assert log[..|r.log|] == r.log;
    assert log[..|log|] == log;
    SentSoFar(e, log, |log|);
    CappedIsUpto(t, r.room, RunItems(e, log));
  }

  lemma {:induction false} CappedIsUpto(t: Task, room: Option<nat>, all: seq<Item>)
    requires t.sent <= all && (t.over ==> t.sent == all)
    ensures Capped(t, room).over ==> Capped(t, room).sent == Upto(all, room)
    ensures !Capped(t, room).over ==> Capped(t, room) == t && Capped(t, room) == Capped(Capped(t, room), room)
  {
  }

  lemma {:induction false} StepKeepsInvariant(e: Env, w: World, a: Action)
    requires Invariant(e, w) && Enabled(w, a)
    ensures Invariant(e, Apply(e, w, a))
  {
    StepKeepsRuns(e, w, a);
    StepKeepsFlags(e, w, a);
  }

  lemma {:induction false} StepKeepsRuns(e: Env, w: World, a: Action)
    requires Invariant(e, w) && Enabled(w, a)
    ensures forall i :: 0 <= i < |Apply(e, w, a).runs| ==> Faithful(e, Apply(e, w, a).runs[i])
  {
    match a
    case Arrives(run, next) => LogGrows(e, w.runs[run], Poll(Seen(w, run), next));
    case _ =>
  }

  lemma {:induction false} StepKeepsFlags(e: Env, w: World, a: Action)
    requires Invariant(e, w) && Enabled(w, a)
    ensures FlagsAreHeld(Apply(e, w, a))
  {
  }

  /**
   * Under every schedule each run that is over has sent exactly what its own log says, whatever the others did,
   * and no run that is over is left in the flag map.
   */
  lemma {:induction false} EverySchedule(e: Env, actions: seq<Action>)
    ensures Invariant(e, After(e, actions))
  {
    if actions != [] {
      var w, a := After(e, actions[..|actions| - 1]), actions[|actions| - 1];
      EverySchedule(e, actions[..|actions| - 1]);
      if Enabled(w, a) { StepKeepsInvariant(e, w, a); }
    }
  }

  /** So every run that is over ended with one last word, unless its receiver closed before it. */
  lemma {:induction false} EveryRunEndsOnce(e: Env, actions: seq<Action>, run: nat)
    requires IgnoresBlanks(e.read) && InPhase(After(e, actions), run, Over)
    ensures var r := After(e, actions).runs[run];
      exists all :: EndsOnce(all) && r.task.sent == Upto(all, r.room)
  {
    EverySchedule(e, actions);
    RunProtocol(e, After(e, actions).runs[run].log);
  }

  // ---------- cancelling ----------

  predicate Live(w: World, run: nat) {
    InPhase(w, run, Requesting) || InPhase(w, run, Streaming)
  }

  ghost predicate InUse(w: World, key: string) {
    exists run: nat :: Live(w, run) && w.runs[run].id == Some(key)
  }

  /** No id is started again while a run with it is live. */
  ghost predicate Exclusive(e: Env, actions: seq<Action>) {
    forall k :: 0 <= k < |actions| && actions[k].Start? && actions[k].id.Some? ==>
      !InUse(After(e, actions[..k]), actions[k].id.value)
  }

  predicate Ended(r: Run) { r.phase == Over || r.phase == Answered }

  /** The map says that the id stands for the run. */
  predicate StandsFor(w: World, key: string, run: nat) {
    key in w.flags && w.flags[key] == run
  }

  predicate StartsUnder(a: Action, key: string) {
    a.Start? && a.id == Some(key) && a.streams
  }

  /**
   * An action that takes the id from a run: a later run is started with it, another run under it ends, or a shutdown.
   */
  ghost predicate Takes(e: Env, w: World, a: Action, run: nat, key: string) {
    && Enabled(w, a) && run < |w.runs|
    && (StartsUnder(a, key) || a == Shutdown ||
      exists r: nat :: Ends(e, w, a, r) && r != run && w.runs[r].id == Some(key))
  }

  ghost predicate Ends(e: Env, w: World, a: Action, r: nat)
    requires Enabled(w, a)
  {
    r < |w.runs| && !Ended(w.runs[r]) && |Apply(e, w, a).runs| >= |w.runs| && Ended(Apply(e, w, a).runs[r])
  }

  /** Somewhere in the schedule the id was taken from the run. */
  ghost predicate Displaced(e: Env, actions: seq<Action>, run: nat, key: string) {
    exists k :: 0 <= k < |actions| && Takes(e, After(e, actions[..k]), actions[k], run, key)
  }

  lemma {:induction false} DisplacedNext(e: Env, before: seq<Action>, a: Action, run: nat, key: string)
    ensures Displaced(e, before + [a], run, key) <==>
      Displaced(e, before, run, key) || Takes(e, After(e, before), a, run, key)
  {
    var all := before + [a];
    assert all[..|before|] == before && all[|before|] == a;
    assert forall k :: 0 <= k < |before| ==> all[..k] == before[..k] && all[k] == before[k];
  }

  lemma {:induction false} RunsGrow(e: Env, w: World, a: Action)
    requires Enabled(w, a)
    ensures |Apply(e, w, a).runs| == |w.runs| + if a.Start? then 1 else 0
    ensures forall r :: 0 <= r < |w.runs| ==>
      Apply(e, w, a).runs[r].id == w.runs[r].id && Apply(e, w, a).runs[r].streams == w.runs[r].streams
    ensures forall r :: 0 <= r < |w.runs| && Ended(w.runs[r]) ==> Ended(Apply(e, w, a).runs[r])
  {
  }

  lemma {:induction false} NotYetDisplaced(e: Env, actions: seq<Action>, run: nat, key: string)
    requires |After(e, actions).runs| <= run
    ensures !Displaced(e, actions, run, key) && !ShutSince(e, actions, run)
  {
    if actions != [] {
      var before, a := actions[..|actions| - 1], actions[|actions| - 1];
      assert actions == before + [a];
      if Enabled(After(e, before), a) { RunsGrow(e, After(e, before), a); }
      NotYetDisplaced(e, before, run, key);
      DisplacedNext(e, before, a, run, key);
      ShutNext(e, before, a, run);
    }
  }

  /** Of these actions, none ends a run but the one it is about. */
  lemma {:induction false} EndsAlone(e: Env, w: World, a: Action)
    requires Enabled(w, a) && (a.Arrives? || a.StreamEnds? || a.Answer?)
    ensures forall x: nat :: Ends(e, w, a, x) ==> x == a.run
    ensures a.run < |w.runs| && (Ended(Apply(e, w, a).runs[a.run]) ==> Ends(e, w, a, a.run))
  {
  }

  lemma {:induction false} NoneEnds(e: Env, w: World, a: Action)
    requires Enabled(w, a) && !(a.Arrives? || a.StreamEnds? || a.Answer?)
    ensures forall x: nat :: !Ends(e, w, a, x)
  {
  }

  /** One step: what stands for a run before it still does unless the action takes the id. */
  lemma {:induction false} StepTakes(e: Env, w: World, a: Action, run: nat, key: string)
    requires Invariant(e, w) && Enabled(w, a) && run < |w.runs| && w.runs[run].id == Some(key) && w.runs[run].streams
    requires !Ended(Apply(e, w, a).runs[run])
    ensures StandsFor(Apply(e, w, a), key, run) <==> StandsFor(w, key, run) && !Takes(e, w, a, run, key)
  {
    RunsGrow(e, w, a);
    if a.Arrives? || a.StreamEnds? || a.Answer? {
      EndsAlone(e, w, a);
    } else {
      NoneEnds(e, w, a);
    }
  }

  /** An id stands for a run that was started with it and has not ended exactly when it was never taken from it. */
  lemma {:induction false} StandsUnlessTaken(e: Env, actions: seq<Action>, run: nat, key: string)
    requires var w := After(e, actions);
      run < |w.runs| && w.runs[run].id == Some(key) && w.runs[run].streams && !Ended(w.runs[run])
    ensures StandsFor(After(e, actions), key, run) <==> !Displaced(e, actions, run, key)
  {
    var before, a := actions[..|actions| - 1], actions[|actions| - 1];
    var w := After(e, before);
    assert actions == before + [a];
    EverySchedule(e, before);
    DisplacedNext(e, before, a, run, key);
    if Enabled(w, a) {
      RunsGrow(e, w, a);
      if run < |w.runs| {
        StandsUnlessTaken(e, before, run, key);
        StepTakes(e, w, a, run, key);
      } else {
        NotYetDisplaced(e, before, run, key);
      }
    } else {
      StandsUnlessTaken(e, before, run, key);
    }
  }

  /** A cancel raises the flag of a run that is live under the id exactly when the id was never taken from it. */
  lemma {:induction false} CancelFindsTheRun(e: Env, actions: seq<Action>, run: nat, key: string)
    requires var w := After(e, actions);
      Live(w, run) && w.runs[run].streams && w.runs[run].id == Some(key) && run !in w.raised
    ensures run in After(e, actions + [Cancel(key)]).raised <==> !Displaced(e, actions, run, key)
  {
    StandsUnlessTaken(e, actions, run, key);
    assert (actions + [Cancel(key)])[..|actions|] == actions;
  }

  /** A run that was to stream under the id, but whose request failed. */
  predicate IsBare(r: Run, key: string) {
    r == Run(Some(key), true, r.room, Abandoned, [], START)
  }

  /**
   * An id stays in the map with nothing live under it exactly when nothing is, and a run that failed was never
   * displaced from it.
   */
  lemma {:induction false} IdIsLeftBehind(e: Env, actions: seq<Action>, key: string)
    ensures var w := After(e, actions);
      key in w.flags && !InUse(w, key) <==>
        && !InUse(w, key)
        && exists run: nat :: run < |w.runs| && IsBare(w.runs[run], key) && !Displaced(e, actions, run, key)
  {
    var w := After(e, actions);
    EverySchedule(e, actions);
    if key in w.flags && !InUse(w, key) {
      var run := w.flags[key];
      assert !Live(w, run);
      StandsUnlessTaken(e, actions, run, key);
      AbandonedIsBare(e, actions, run);
    }
    forall run: nat | run < |w.runs| && IsBare(w.runs[run], key) && !Displaced(e, actions, run, key)
      ensures key in w.flags
    {
      StandsUnlessTaken(e, actions, run, key);
    }
  }

  lemma {:induction false} AbandonedIsBare(e: Env, actions: seq<Action>, run: nat)
    requires InPhase(After(e, actions), run, Abandoned)
    ensures var r := After(e, actions).runs[run]; r.log == [] && r.task == START
  {
    if actions != [] {
      var before, a := actions[..|actions| - 1], actions[|actions| - 1];
      var w := After(e, before);
      EverySchedule(e, before);
      if Enabled(w, a) {
        RunsGrow(e, w, a);
        if InPhase(w, run, Abandoned) { AbandonedIsBare(e, before, run); }
      } else {
        AbandonedIsBare(e, before, run);
      }
    }
  }

  // ---------- one live run an id ----------

  lemma {:induction false} ExclusiveBefore(e: Env, before: seq<Action>, a: Action)
    requires Exclusive(e, before + [a])
    ensures Exclusive(e, before)
    ensures a.Start? && a.id.Some? ==> !InUse(After(e, before), a.id.value)
  {
    var all := before + [a];
    assert all[..|before|] == before && all[|before|] == a;
    assert forall k :: 0 <= k < |before| ==> all[..k] == before[..k] && all[k] == before[k];
  }

  /** Two runs under one id: the earlier one ended or was abandoned before the later one began. */
  ghost predicate OneAtATime(w: World) {
    forall r, s :: 0 <= r < s < |w.runs| && w.runs[r].id.Some? && w.runs[r].id == w.runs[s].id ==> !Live(w, r)
  }

  lemma {:induction false} ExclusiveIsOneAtATime(e: Env, actions: seq<Action>)
    requires Exclusive(e, actions)
    ensures OneAtATime(After(e, actions))
  {
    if actions != [] {
      var before, a := actions[..|actions| - 1], actions[|actions| - 1];
      var w := After(e, before);
      assert actions == before + [a];
      ExclusiveBefore(e, before, a);
      ExclusiveIsOneAtATime(e, before);
      if Enabled(w, a) {
        var w' := Apply(e, w, a);
        RunsGrow(e, w, a);
        forall r, s | 0 <= r < s < |w'.runs| && w'.runs[r].id.Some? && w'.runs[r].id == w'.runs[s].id
          ensures !Live(w', r) {
          assert Live(w', r) ==> Live(w, r);
        }
      }
    }
  }

  /** A later run under the id, that streams or has been answered. */
  ghost predicate TakenIn(w: World, run: nat, key: string) {
    exists r :: run < r < |w.runs| && w.runs[r].id == Some(key) && (w.runs[r].streams || w.runs[r].phase == Answered)
  }

  /** There was a shutdown after the run was started. */
  ghost predicate ShutSince(e: Env, actions: seq<Action>, run: nat) {
    exists k :: 0 <= k < |actions| && actions[k] == Shutdown && run < |After(e, actions[..k]).runs|
  }

  lemma {:induction false} ShutNext(e: Env, before: seq<Action>, a: Action, run: nat)
    ensures ShutSince(e, before + [a], run) <==>
      ShutSince(e, before, run) || (a == Shutdown && run < |After(e, before).runs|)
  {
    var all := before + [a];
    assert all[..|before|] == before && all[|before|] == a;
    assert forall k :: 0 <= k < |before| ==> all[..k] == before[..k] && all[k] == before[k];
  }

  /**
   * With ids used by one live run at a time, an id is taken from a run that has not ended only by a run that began
   * after it, or by a shutdown.
   */
  lemma {:induction false} TakenByLater(e: Env, actions: seq<Action>, run: nat, key: string)
    requires Exclusive(e, actions)
    requires var w := After(e, actions);
      run < |w.runs| && w.runs[run].id == Some(key) && w.runs[run].streams && !Ended(w.runs[run])
    ensures Displaced(e, actions, run, key) <==> TakenIn(After(e, actions), run, key) || ShutSince(e, actions, run)
  {
    var before, a := actions[..|actions| - 1], actions[|actions| - 1];
    var w := After(e, before);
    assert actions == before + [a];
    ExclusiveBefore(e, before, a);
    ExclusiveIsOneAtATime(e, before);
    EverySchedule(e, before);
    DisplacedNext(e, before, a, run, key);
    ShutNext(e, before, a, run);
    if Enabled(w, a) {
      RunsGrow(e, w, a);
      if run < |w.runs| {
        TakenByLater(e, before, run, key);
        TakenOnce(e, w, a, run, key);
      } else {
        NotYetDisplaced(e, before, run, key);
      }
    } else {
      TakenByLater(e, before, run, key);
    }
  }

  /** A run under an id that nothing after it has used but requests without streaming that failed. */
  ghost predicate LastUnder(w: World, run: nat, key: string) {
    && run < |w.runs| && w.runs[run].streams && w.runs[run].id == Some(key)
    && forall r :: run < r < |w.runs| && w.runs[r].id == Some(key) ==>
      !w.runs[r].streams && w.runs[r].phase == Abandoned
  }

  /**
   * With ids used by one live run at a time, an id is left behind exactly when the last run under it failed
   * and there was no shutdown since.
   */
  lemma {:induction false} FailedRequestLeavesItsId(e: Env, actions: seq<Action>, key: string)
    requires Exclusive(e, actions)
    ensures var w := After(e, actions);
      key in w.flags && !InUse(w, key) <==>
        exists run: nat :: LastUnder(w, run, key) && w.runs[run].phase == Abandoned && !ShutSince(e, actions, run)
  {
    var w := After(e, actions);
    EverySchedule(e, actions);
    ExclusiveIsOneAtATime(e, actions);
    if key in w.flags && !InUse(w, key) {
      var run := w.flags[key];
      assert !Live(w, run);
      StandsUnlessTaken(e, actions, run, key);
      TakenByLater(e, actions, run, key);
      forall r | run < r < |w.runs| && w.runs[r].id == Some(key)
        ensures !w.runs[r].streams && w.runs[r].phase == Abandoned {
        assert !Live(w, r);
      }
      assert LastUnder(w, run, key);
    }
    forall run: nat | LastUnder(w, run, key) && w.runs[run].phase == Abandoned && !ShutSince(e, actions, run)
      ensures key in w.flags && !InUse(w, key) {
      TakenByLater(e, actions, run, key);
      StandsUnlessTaken(e, actions, run, key);
    }
  }

  lemma {:induction false} TakenOnce(e: Env, w: World, a: Action, run: nat, key: string)
    requires Invariant(e, w) && OneAtATime(w) && Enabled(w, a) && run < |w.runs| && w.runs[run].id == Some(key) &&
      w.runs[run].streams
    requires !Ended(Apply(e, w, a).runs[run])
    ensures TakenIn(Apply(e, w, a), run, key) || a == Shutdown <==> TakenIn(w, run, key) || Takes(e, w, a, run, key)
  {
    TakenStays(e, w, a, run, key);
    TakenNew(e, w, a, run, key);
    if Takes(e, w, a, run, key) { TakerIsLater(e, w, a, run, key); }
  }

  lemma {:induction false} TakenStays(e: Env, w: World, a: Action, run: nat, key: string)
    requires Enabled(w, a)
    ensures TakenIn(w, run, key) ==> TakenIn(Apply(e, w, a), run, key)
  {
    if !TakenIn(w, run, key) {
      return;
    }
    RunsGrow(e, w, a);
    var r :| run < r < |w.runs| && w.runs[r].id == Some(key) && (w.runs[r].streams || w.runs[r].phase == Answered);
    AnsweredStays(e, w, a, r);
    var w' := Apply(e, w, a);
    assert w'.runs[r].streams || w'.runs[r].phase == Answered;
  }

  lemma {:induction false} AnsweredStays(e: Env, w: World, a: Action, r: nat)
    requires Enabled(w, a) && r < |w.runs|
    ensures w.runs[r].phase == Answered ==> r < |Apply(e, w, a).runs| && Apply(e, w, a).runs[r].phase == Answered
  {
  }

  lemma {:induction false} TakenNew(e: Env, w: World, a: Action, run: nat, key: string)
    requires Enabled(w, a) && run < |w.runs|
    ensures TakenIn(Apply(e, w, a), run, key) ==> TakenIn(w, run, key) || Takes(e, w, a, run, key)
  {
    var w' := Apply(e, w, a);
    RunsGrow(e, w, a);
    if TakenIn(w', run, key) {
      var r :| run < r < |w'.runs| && w'.runs[r].id == Some(key) &&
        (w'.runs[r].streams || w'.runs[r].phase == Answered);
      if r < |w.runs| && !w.runs[r].streams && w.runs[r].phase != Answered { assert Ends(e, w, a, r); }
    }
  }

  lemma {:induction false} EndsIsLive(e: Env, w: World, a: Action, r: nat)
    requires Invariant(e, w) && Enabled(w, a) && Ends(e, w, a, r)
    ensures Live(w, r) && (w.runs[r].streams || Apply(e, w, a).runs[r].phase == Answered)
  {
  }

  lemma {:induction false} TakerIsLater(e: Env, w: World, a: Action, run: nat, key: string)
    requires Invariant(e, w) && OneAtATime(w) && Takes(e, w, a, run, key) && w.runs[run].id == Some(key)
    ensures a != Shutdown ==> TakenIn(Apply(e, w, a), run, key)
  {
    var w' := Apply(e, w, a);
    RunsGrow(e, w, a);
    if StartsUnder(a, key) {
      assert w'.runs[|w.runs|].streams && w'.runs[|w.runs|].id == Some(key);
    } else if a != Shutdown {
      var r: nat :| Ends(e, w, a, r) && r != run && w.runs[r].id == Some(key);
      EndsIsLive(e, w, a, r);
      assert r > run;
    }
  }

  /** The task ends with what it has in its buffer, or with the word that it was cancelled. */
  predicate StopsWith(e: Env, r: Run, t: Task) {
    t == Capped(Finish(e, r.task), r.room) || t == Capped(Failing(r.task, Cancelled), r.room)
  }

  /**
   * A run whose flag is up takes in no more of the stream: all that can still come into its log is the poll that ends
   * it.
   */
  lemma {:induction false} RaisedRunTakesNothingIn(e: Env, actions: seq<Action>, more: seq<Action>, run: nat)
    requires var w := After(e, actions); InPhase(w, run, Streaming) && Seen(w, run)
    ensures var w, w' := After(e, actions), After(e, actions + more);
      && run < |w'.runs| && w'.runs[run].id == w.runs[run].id && run in w'.raised
      && (w'.runs[run].phase == Streaming ==> w'.runs[run] == w.runs[run])
      && (w'.runs[run].phase != Streaming ==>
            && w'.runs[run].phase == Over
            && StopsWith(e, w.runs[run], w'.runs[run].task))
  {
    if more == [] {
      assert actions + more == actions;
    } else {
      var before, a := more[..|more| - 1], more[|more| - 1];
      RaisedRunTakesNothingIn(e, actions, before, run);
      assert actions + more == (actions + before) + [a];
      AfterMore(e, actions + before, a);
      var w := After(e, actions + before);
      if Enabled(w, a) { RaisedStep(e, w, a, run); }
    }
  }

  /** One step of a run whose flag is up: it ends with what it has, or stays as it is. */
  lemma {:induction false} RaisedStep(e: Env, w: World, a: Action, run: nat)
    requires Enabled(w, a) && run < |w.runs| && run in w.raised && w.runs[run].id.Some?
    ensures var w' := Apply(e, w, a);
      && run < |w'.runs| && w'.runs[run].id == w.runs[run].id && run in w'.raised
      && (w.runs[run].phase == Over ==> w'.runs[run] == w.runs[run])
      && (w.runs[run].phase == Streaming && !w.runs[run].task.over ==>
            || w'.runs[run] == w.runs[run]
            || (w'.runs[run].phase == Over
                && StopsWith(e, w.runs[run], w'.runs[run].task)))
  {
  }

  /** Two runs started one after the other under one id, both streaming. */
  function TwoUnder(key: string): seq<Action> {
    [Start(Some(key), true, None), Connected(0), Start(Some(key), true, None), Connected(1)]
  }

  /**
   * Using an id twice at once loses the second run: the first one's end takes the id out of the map,
   * and a cancel then reaches nobody while the second run goes on.
   */
  lemma {:induction false} SharedIdLosesCancel(e: Env, key: string)
    ensures var w := After(e, TwoUnder(key) + [StreamEnds(0)] + [Cancel(key)]);
      Live(w, 1) && w.runs[1].id == Some(key) && !Seen(w, 1) && key !in w.flags
  {
    TwoUnderOneId(e, key);
    AfterMore(e, TwoUnder(key), StreamEnds(0));
    AfterMore(e, TwoUnder(key) + [StreamEnds(0)], Cancel(key));
  }

  lemma {:induction false} TwoUnderOneId(e: Env, key: string)
    ensures var r := Run(Some(key), true, None, Streaming, [], START);
      After(e, TwoUnder(key)) == World(map[key := 1], {}, [r, r])
  {
    var begin := Start(Some(key), true, None);
    var waiting := Run(Some(key), true, None, Requesting, [], START);
    var r := waiting.(phase := Streaming);
    AfterMore(e, [], begin);
    assert [] + [begin] == [begin] && After(e, [begin]) == World(map[key := 0], {}, [waiting]);
    AfterMore(e, [begin], Connected(0));
    assert [begin] + [Connected(0)] == [begin, Connected(0)];
    assert After(e, [begin, Connected(0)]) == World(map[key := 0], {}, [r]);
    AfterMore(e, [begin, Connected(0)], begin);
    assert [begin, Connected(0)] + [begin] == [begin, Connected(0), begin];
    assert After(e, [begin, Connected(0), begin]) == World(map[key := 1], {}, [r, waiting]);
    AfterMore(e, [begin, Connected(0), begin], Connected(1));
    assert [begin, Connected(0), begin] + [Connected(1)] == TwoUnder(key);
  }

  lemma {:induction false} AfterMore(e: Env, before: seq<Action>, a: Action)
    ensures var w := After(e, before); After(e, before + [a]) == if Enabled(w, a) then Apply(e, w, a) else w
  {
    assert (before + [a])[..|before|] == before;
  }
}
