/** When a run goes on, wraps up and ends, read from the transcripts alone. */
module AgentPace {
  import opened Values
  import opened Outcome
  import opened Transcripts
  import opened AgentSteps
  import opened AgentKeeping
  import opened AgentTelling

  /** How a run is going, read off its transcript: the failures in a row, the rounds in a row that ran nothing, whether
      the round under way has run something, and the finishes refused. */
  datatype Pace = Pace(failures: nat, stale: nat, round: Option<bool>, refused: nat)

  /** A round is over. */
  function Settled(p: Pace): Pace {
    match p.round
    case None => p
    case Some(ran) => p.(stale := if ran then 0 else p.stale + 1, round := None)
  }

  /** A message more: a success ends the failures, an error, an unknown action, one over its uses or its limit, and an
      answer that cannot be used are each a failure, and all else is neither. */
  function Going(p: Pace, m: Message): Pace {
    match m
    case Tool(_, _, said) =>
      if said.Words? then p.(failures := 0, round := Some(true))
      else if said.ErrorText? then p.(failures := p.failures + 1, round := Some(true))
      else if said.FinishRefused? then p.(refused := p.refused + 1)
      else if said.UnknownAction? || said.OverItsUses? || said.AtItsLimit? then p.(failures := p.failures + 1)
      else p
    case Assistant(_, calls) => if calls == [] then Settled(p) else Settled(p).(round := Some(false))
    case User(said) =>
      if said.CallAnAction? || said.FewerCalls? then Settled(p).(failures := p.failures + 1) else Settled(p)
    case System(_) => p
  }

  function PaceOf(ms: seq<Message>, from: nat): Pace {
    if |ms| <= from then Pace(0, 0, None, 0) else Going(PaceOf(ms[..|ms| - 1], from), ms[|ms| - 1])
  }

  lemma PaceMore(ms: seq<Message>, from: nat, m: Message)
    requires from <= |ms|
    ensures PaceOf(ms + [m], from) == Going(PaceOf(ms, from), m)
  {
    assert (ms + [m])[..|ms|] == ms;
  }

  lemma {:induction false} PaceAnswers(ms: seq<Message>, from: nat, calls: seq<Call>, said: Said)
    requires from <= |ms| && (said.NotRun? || said.OthersOverUses?)
    ensures PaceOf(ms + Answers(calls, said), from) == PaceOf(ms, from)
    decreases |calls|
  {
    if calls == [] {
      assert ms + Answers(calls, said) == ms;
    } else {
      var m := Tool(calls[0].id, calls[0].name, said);
      PaceMore(ms, from, m);
      PaceAnswers(ms + [m], from, calls[1..], said);
      FirstAnswer(ms, calls, said);
    }
  }

  lemma {:induction false} PaceClosing(ms: seq<Message>, from: nat, calls: seq<Call>, answered: set<string>)
    requires from <= |ms|
    ensures PaceOf(ms + Closing(calls, answered), from) == PaceOf(ms, from)
    decreases |calls|
  {
    if calls == [] {
      assert ms + Closing(calls, answered) == ms;
    } else {
      var front, c := calls[..|calls| - 1], calls[|calls| - 1];
      PaceClosing(ms, from, front, answered);
      if c.id in answered {
        assert Closing(calls, answered) == Closing(front, answered);
      } else {
        PaceMore(ms + Closing(front, answered), from, Tool(c.id, c.name, NotRun));
        LastClosing(ms, calls, answered);
      }
    }
  }

  /** In the middle of a round the counters say what the transcript does; three failures in a row wrap up. */
  predicate InRound(t: Turn, flow: Flow, from: nat) {
    !flow.End? ==>
      && from <= |t.messages| && PaceOf(t.messages, from) == Pace(t.failures, t.stale, Some(t.progressed), t.bounces)
      && (flow.Wrap? ==> t.failures >= 3) && t.bounces <= 2
  }

  /** And so they do between rounds. */
  predicate BetweenRounds(t: Turn, from: nat) {
    from <= |t.messages| && Settled(PaceOf(t.messages, from)) == Pace(t.failures, t.stale, None, t.bounces) &&
    t.bounces <= 2
  }

  lemma OnceAnswered(t: Turn, from: nat, call: Call, said: Said, rest: seq<Call>, restSaid: Said)
    requires InRound(t, Next, from) && (restSaid.NotRun? || restSaid.OthersOverUses?)
    ensures var ms, p := t.messages + [Tool(call.id, call.name, said)],
            Going(PaceOf(t.messages, from), Tool(call.id, call.name, said));
            PaceOf(ms, from) == p && PaceOf(ms + Answers(rest, restSaid), from) == p
  {
    PaceMore(t.messages, from, Tool(call.id, call.name, said));
    PaceAnswers(t.messages + [Tool(call.id, call.name, said)], from, rest, restSaid);
  }

  lemma FinishPaced(env: Env, t: Turn, call: Call, rest: seq<Call>, from: nat)
    requires InRound(t, Next, from)
    ensures var (t', flow) := FinishCall(env, t, call, rest); InRound(t', flow, from)
  {
    OnceAnswered(t, from, call, FinishRefused, rest, NotRun);
  }

  lemma OverUsedPaced(env: Env, t: Turn, call: Call, rest: seq<Call>, from: nat)
    requires InRound(t, Next, from) && Judge(env, t.book, call).OverUsed?
    ensures var (t', flow) := StepCall(env, t, call, rest); InRound(t', flow, from)
  {
    OnceAnswered(t, from, call, OverItsUses, rest, OthersOverUses);
  }

  /** A call told of what went before is no failure. */
  lemma RepeatPaced(env: Env, t: Turn, call: Call, rest: seq<Call>, from: nat)
    requires InRound(t, Next, from) && (Judge(env, t.book, call).Repeated? || Judge(env, t.book, call).AlreadyDone?)
    ensures var (t', flow) := StepCall(env, t, call, rest); InRound(t', flow, from)
  {
    var v := Judge(env, t.book, call);
    PaceMore(t.messages, from,
             Tool(call.id, call.name, if v.Repeated? then LookedUpBefore(v.before) else DoneBefore(v.before)));
  }

  /** One that cannot be run is. */
  lemma RefusalPaced(env: Env, t: Turn, call: Call, rest: seq<Call>, from: nat)
    requires InRound(t, Next, from) && (Judge(env, t.book, call).Unknown? || Judge(env, t.book, call).AtLimit?)
    ensures var (t', flow) := StepCall(env, t, call, rest); InRound(t', flow, from)
  {
    var v := Judge(env, t.book, call);
    PaceMore(t.messages, from, Tool(call.id, call.name, if v.Unknown? then UnknownAction else AtItsLimit));
  }

  lemma RunPaced(env: Env, t: Turn, call: Call, a: Action, rest: seq<Call>, from: nat)
    requires InRound(t, Next, from)
    ensures var (t', flow) := RunCall(env, t, call, a, rest); InRound(t', flow, from)
  {
    RunCallSays(env, t, call, a, rest);
    OnceAnswered(t, from, call, ReturnedBy(env, env.run(|t.book.log|, call)), rest, NotRun);
  }

  lemma StepPaced(env: Env, t: Turn, call: Call, rest: seq<Call>, from: nat)
    requires InRound(t, Next, from)
    ensures var (t', flow) := StepCall(env, t, call, rest); InRound(t', flow, from)
  {
    var v := Judge(env, t.book, call);
    if v.Admit? {
      var t1 := t.(book := Counting(t.book, call.name));
      RunPaced(env, t1, call, v.action, rest, from);
      assert StepCall(env, t, call, rest) == RunCall(env, t1, call, v.action, rest);
    } else if v.Finishing? {
      FinishPaced(env, t, call, rest, from);
    } else if v.OverUsed? {
      OverUsedPaced(env, t, call, rest, from);
    } else if v.Repeated? || v.AlreadyDone? {
      RepeatPaced(env, t, call, rest, from);
    } else {
      RefusalPaced(env, t, call, rest, from);
    }
  }

  /** The model is asked for more only while fewer than three failures came in a row, fewer than two rounds in a row ran
      nothing, and no more than two finishes were refused. */
  predicate OnTrack(ms: seq<Message>, from: nat) {
    var p := Settled(PaceOf(ms, from));
    p.failures < 3 && p.stale < 2 && p.refused <= 2
  }

  /** The model's answer at j ends the run: there is none, or it finishes first of all with what may be accepted. */
  predicate EndsThere(env: Env, log: seq<Event>, j: nat)
    requires j < |log| && log[j].Asked?
  {
    match env.model(j, log[j].transcript)
    case None => true
    case Some(reply) =>
      && 0 < |reply.calls| <= 10 && reply.calls[0].name == FINISH
      && (Held(env).Some? ==> FinishAccepted(reply.calls[0].args, Held(env).value, RecordsOf(env, log[..j])))
  }

  /** Every asking so far was on track, and none of the answers ends the run. */
  predicate WentOn(env: Env, log: seq<Event>, from: nat) {
    forall j {:trigger log[j]} :: 0 <= j < |log| && log[j].Asked? ==>
      OnTrack(log[j].transcript, from) && !EndsThere(env, log, j)
  }

  lemma WentOnGrows(env: Env, log: seq<Event>, e: Event, from: nat)
    requires WentOn(env, log, from)
    requires e.Asked? ==> OnTrack(e.transcript, from) && !EndsThere(env, log + [e], |log|)
    ensures WentOn(env, log + [e], from)
  {
    var more := log + [e];
    forall j | 0 <= j < |more| && more[j].Asked? ensures OnTrack(more[j].transcript, from) && !EndsThere(env, more, j) {
      if j < |log| { assert more[j] == log[j] && more[..j] == log[..j]; }
    }
  }

  /** The model was asked again only on track, after an answer that did not end the run. */
  ghost predicate AskedAgainRightly(env: Env, log: seq<Event>, from: nat) {
    forall j, k {:trigger log[j], log[k]} :: 0 <= j < k < |log| && log[j].Asked? && log[k].Asked? ==>
      OnTrack(log[j].transcript, from) && !EndsThere(env, log, j)
  }

  /** Why a run wraps up: three failures in a row, two rounds in a row that ran nothing, or all its steps used. */
  predicate WrapsUpRightly(env: Env, log: seq<Event>, from: nat) {
    && log != [] && log[|log| - 1].Asked?
    && var p := Settled(PaceOf(log[|log| - 1].transcript, from));
       p.failures >= 3 || p.stale >= 2 || (env.maxIterations > 0 && TimesAsked(log) == env.maxIterations + 1)
  }

  /** How a run ends that is not wrapped up: its model failed exactly when the last answer is none, the facts are told
      only once two finishes were refused, and a finish that is accepted is what is given. */
  ghost predicate EndsRightly(env: Env, result: LoopResult, log: seq<Event>, from: nat, m: nat) {
    && m < |log| && log[m].Asked? && (forall k :: m < k < |log| ==> log[k].Ran?) && OnTrack(log[m].transcript, from)
    && match env.model(m, log[m].transcript)
       case None => result.status == ModelFailed
       case Some(reply) =>
         && result.status == Complete
         && (result.content.Facts? ==> PaceOf(log[m].transcript, from).refused >= 2)
         && (EndsThere(env, log, m) ==> result.output == Some(reply.calls[0].args) && |log| == m + 1)
  }

  lemma WentOnBefore(env: Env, before: seq<Event>, log: seq<Event>, m: nat, from: nat)
    requires WentOn(env, before, from) && m == |before| && m < |log| && before <= log
    requires forall k :: m < k < |log| ==> log[k].Ran?
    ensures AskedAgainRightly(env, log, from)
  {
    forall j, k | 0 <= j < k < |log| && log[j].Asked? && log[k].Asked?
      ensures OnTrack(log[j].transcript, from) && !EndsThere(env, log, j)
    {
      assert before[j] == log[j] && before[..j] == log[..j];
    }
  }

  lemma WentOnThen(env: Env, before: seq<Event>, log: seq<Event>, from: nat)
    requires WentOn(env, before, from) && before <= log && |before| < |log| && log[|before|].Asked?
    requires forall k :: |before| < k < |log| ==> log[k].Ran?
    requires OnTrack(log[|before|].transcript, from) && !EndsThere(env, log, |before|)
    ensures WentOn(env, log, from)
  {
    forall j | 0 <= j < |log| && log[j].Asked? ensures OnTrack(log[j].transcript, from) && !EndsThere(env, log, j) {
      if j < |before| { assert before[j] == log[j] && before[..j] == log[..j]; }
    }
  }

  /** A finish that is accepted, first of all calls, ends the run with what it was called with. */
  lemma FinishFirst(env: Env, t: Turn, calls: seq<Call>)
    requires calls != [] && calls[0].name == FINISH
    requires Held(env).Some? ==> FinishAccepted(calls[0].args, Held(env).value, t.book.records)
    ensures var (t', flow) := StepAll(env, t, calls);
            flow.End? && flow.result.status == Complete && flow.result.output == Some(calls[0].args) &&
            t'.book == t.book
  {
  }

  lemma WrapUpPaced(env: Env, t: Turn, msgs: seq<Message>, from: nat)
    requires from <= |t.messages| && msgs == WithOpenAnswered(t.messages) + [User(WrapUpNow)]
    ensures Settled(PaceOf(msgs, from)) == Settled(PaceOf(t.messages, from))
  {
    var i, closed := LastAsking(t.messages), WithOpenAnswered(t.messages);
    if i >= 0 {
      PaceClosing(t.messages, from, t.messages[i].calls, AnsweredIn(t.messages[i + 1..]));
    } else {
      assert closed == t.messages;
    }
    PaceMore(closed, from, User(WrapUpNow));
  }

  lemma {:induction false} StepAllPaced(env: Env, t: Turn, calls: seq<Call>, from: nat)
    requires InRound(t, Next, from)
    ensures var (t', flow) := StepAll(env, t, calls); InRound(t', flow, from)
    decreases |calls|
  {
    if calls != [] {
      StepPaced(env, t, calls[0], calls[1..], from);
      var (t', flow) := StepCall(env, t, calls[0], calls[1..]);
      if flow == Next { StepAllPaced(env, t', calls[1..], from); }
    }
  }

  /** Handling calls only adds invocations to the log. */
  lemma {:induction false} StepAllRuns(env: Env, t: Turn, calls: seq<Call>)
    ensures var log := StepAll(env, t, calls).0.book.log;
            t.book.log <= log && forall k :: |t.book.log| <= k < |log| ==> log[k].Ran?
    decreases |calls|
  {
    if calls != [] {
      var (t', flow) := StepCall(env, t, calls[0], calls[1..]);
      assert t'.book.log == t.book.log
             || t'.book.log == t.book.log + [Ran(calls[0], env.run(|t.book.log|, calls[0]))];
      if flow == Next { StepAllRuns(env, t', calls[1..]); }
    }
  }

  lemma {:induction false} StepAllEnds(env: Env, t: Turn, calls: seq<Call>)
    ensures var (t', flow) := StepAll(env, t, calls);
            flow.End? ==> flow.result.status == Complete && (flow.result.content.Facts? ==> t.bounces >= 2)
    decreases |calls|
  {
    if calls != [] {
      var (t', flow) := StepCall(env, t, calls[0], calls[1..]);
      if flow == Next { StepAllEnds(env, t', calls[1..]); }
    }
  }
}
