/** The agent loop (domain/loop.go): a model that may answer anything is asked, again and again, which actions to run,
    until it finishes. Here are the wrapping up, the rounds and the whole run, and what a run's result then means. */
module AgentLoop {
  import opened Values
  import opened Outcome
  import opened Transcripts
  import opened AgentSteps
  import opened AgentKeeping
  import opened AgentTelling
  import opened AgentPace

  // ── Wrapping up (domain/loop.go:149-181) ────────────────────────────────────

  /** What the model is given to wrap up with is well formed, and asking it keeps what is kept. */
  lemma WrapUpAsks(env: Env, t: Turn, msgs: seq<Message>)
    requires Good(env, t.book) && TalkOf(t.messages).Talking?
    requires msgs == WithOpenAnswered(t.messages) + [User(WrapUpNow)]
    ensures Safe(env, t.book.log + [Asked(msgs)])
    ensures TimesAsked(t.book.log + [Asked(msgs)]) == TimesAsked(t.book.log) + 1
    ensures t.book.records == RecordsOf(env, t.book.log + [Asked(msgs)])
    ensures CalledFor(env, t.book.log) ==> CalledFor(env, t.book.log + [Asked(msgs)])
  {
    AnswerOpenCallsWellFormed(t.messages);
    TalkOfMore(WithOpenAnswered(t.messages), User(WrapUpNow));
    AskingKeeps(env, t.book, msgs);
    LogGrows(env, t.book.log, Asked(msgs));
    if CalledFor(env, t.book.log) { CalledForGrows(env, t.book.log, Asked(msgs)); }
  }

  /** Asked last of all, the model called finish, first, with words to say. */
  predicate FinishedWithWords(env: Env, log: seq<Event>) {
    && log != [] && log[|log| - 1].Asked?
    && match env.model(|log| - 1, log[|log| - 1].transcript)
       case None => false
       case Some(reply) =>
         reply.calls != [] && reply.calls[0].name == FINISH && Trim(StringField(reply.calls[0].args, "content")) != ""
  }

  /** A reply that was wrapped up is the model's last finish when it had words, and an error otherwise: the model was
      asked once more exactly when there is a finish to call, and told to wrap up. */
  ghost predicate WrappedRight(env: Env, messages: seq<Message>, result: LoopResult, before: seq<Event>,
                               log: seq<Event>) {
    if Find(env.actions, FINISH).None? then log == before && result.status == Error
    else
      && |log| == |before| + 1 && before <= log && log[|before|].Asked?
      && log[|before|].transcript == WithOpenAnswered(messages) + [User(WrapUpNow)]
      && if FinishedWithWords(env, log) then
           && result.status == Complete
           && result.output == Some(env.model(|before|, log[|before|].transcript).value.calls[0].args)
         else result.status == Error
  }

  /** Anything but a finish with words gives up. */
  function Ending(env: Env, resp: Option<Reply>, records: seq<ActionRecord>): LoopResult {
    var gaveUp := LoopResult(Error, Own("", []), None, records);
    if resp.None? || resp.value.calls == [] || resp.value.calls[0].name != FINISH then gaveUp
    else if Trim(StringField(resp.value.calls[0].args, "content")) == "" then gaveUp
    else Concluded(env, resp.value.calls[0].args, records)
  }

  lemma EndingRight(env: Env, messages: seq<Message>, before: seq<Event>, msgs: seq<Message>,
                    records: seq<ActionRecord>, log: seq<Event>)
    requires Find(env.actions, FINISH).Some? && msgs == WithOpenAnswered(messages) + [User(WrapUpNow)]
    requires log == before + [Asked(msgs)] && records == RecordsOf(env, log)
    ensures WrappedRight(env, messages, Ending(env, env.model(|before|, msgs), records), before, log)
    ensures Honest(env, Ending(env, env.model(|before|, msgs), records), log, true)
  {
    var resp := env.model(|before|, msgs);
    if resp.Some? && resp.value.calls != [] { ConcludedHonestly(env, resp.value.calls[0].args, log); }
  }

  /** One more call to the model, with only finish offered. */
  method WrapUp(env: Env, t: Turn, ghost start: seq<Message>) returns (result: LoopResult, log: seq<Event>)
    requires Good(env, t.book) && TalkOf(t.messages).Talking? && Telling(env, start, t.book, t.messages)
    ensures ToldAll(env, start, log) && WrappedRight(env, t.messages, result, t.book.log, log)
    ensures Safe(env, log) && Honest(env, result, log, true)
    ensures TimesAsked(log) <= TimesAsked(t.book.log) + 1
    ensures result.status == Complete || result.status == Error
    ensures t.book.log <= log && (CalledFor(env, t.book.log) ==> CalledFor(env, log))
  {
    log := t.book.log;
    result := LoopResult(Error, Own("", []), None, t.book.records);
    if Find(env.actions, FINISH).None? { return; }
    var answered := AnswerOpenCalls(t.messages);
    var msgs := answered + [User(WrapUpNow)];
    WrapUpAsks(env, t, msgs);
    WrapUpTells(env, start, t, msgs);
    EndingRight(env, t.messages, log, msgs, t.book.records, log + [Asked(msgs)]);
    result := Ending(env, env.model(|log|, msgs), t.book.records);
    log := log + [Asked(msgs)];
  }

  /** The words of a finish that wraps up, or the facts when it claims what the records do not bear. */
  function Concluded(env: Env, args: Args, records: seq<ActionRecord>): LoopResult {
    var held := Held(env);
    LoopResult(Complete,
               if held.Some? && !FinishAccepted(args, held.value, records)
               then Facts(held.value, records) else Own(StringField(args, "content"), []),
               Some(args), records)
  }

  lemma ConcludedHonestly(env: Env, args: Args, log: seq<Event>)
    ensures Honest(env, Concluded(env, args, RecordsOf(env, log)), log, true)
  {
  }

  // ── The run ─────────────────────────────────────────────────────────────────

  function Potential(env: Env, t: Turn): int {
    4 * UsesLeft(env.actions, t.book.counts) + (MAX_CONSECUTIVE_FAILURES - t.failures) + (MAX_STALE_STEPS - t.stale)
  }

  /** Where the calls of one response, made at m to a turn t0, have come to. */
  ghost predicate Midway(env: Env, t0: Turn, t: Turn, calls: seq<Call>, m: int) {
    && Costs(env, t0, t) && t0.book.log <= t.book.log && CalledFor(env, t.book.log)
    && forall c :: c in calls ==> MadeAt(env, t.book.log, m, c)
  }

  lemma OneMoreCall(env: Env, t0: Turn, t: Turn, t': Turn, calls: seq<Call>, m: int, call: Call)
    requires Midway(env, t0, t, calls, m) && call in calls
    requires Costs(env, t, t') && AtMostRuns(env, t.book.log, t'.book.log, call)
    ensures Midway(env, t0, t', calls, m)
  {
    HandlingCalledFor(env, t.book.log, t'.book.log, call, m);
  }

  lemma NextOf(calls: seq<Call>, idx: nat)
    requires idx < |calls|
    ensures [calls[idx]] + calls[idx + 1..] == calls[idx..]
  {
  }

  method HandleCalls(env: Env, t0: Turn, calls: seq<Call>, ghost m: int, ghost start: seq<Message>, ghost a: int)
    returns (t: Turn, flow: Flow)
    requires Good(env, t0.book) && Awaiting(t0.messages, calls) && t0.failures < MAX_CONSECUTIVE_FAILURES
    requires Midway(env, t0, t0, calls, m) && StepTold(env, start, t0, Next, a, calls)
    ensures Fit(env, t, flow, []) && Midway(env, t0, t, calls, m) && StepTold(env, start, t, flow, a, calls)
    ensures (t, flow) == StepAll(env, t0, calls)
  {
    t, flow := t0, Next;
    var idx := 0;
    assert calls[0..] == calls;
    while idx < |calls|
      invariant 0 <= idx <= |calls|
      invariant flow == Next && Fit(env, t, Next, calls[idx..]) && Midway(env, t0, t, calls, m)
      invariant StepTold(env, start, t, Next, a, calls)
      invariant StepAll(env, t0, calls) == StepAll(env, t, calls[idx..])
    {
      var call, rest := calls[idx], calls[idx + 1..];
      NextOf(calls, idx);
      StepOn(env, t, calls, idx);
      StepCallFits(env, t, call, rest);
      StepCallCosts(env, t, call, rest);
      StepCallAtMostRuns(env, t, call, rest);
      StepTells(env, start, t, call, rest, a, calls);
      var (t', flow') := StepCall(env, t, call, rest);
      OneMoreCall(env, t0, t, t', calls, m, call);
      t, flow := t', flow';
      if flow != Next { return; }
      idx := idx + 1;
    }
  }

  /** A response the loop cannot use: the model is told so, and it is a failure. */
  function Nudge(t: Turn, text: string, said: Said): Turn {
    t.(messages := t.messages + [Assistant(text, [])] + [User(said)], failures := t.failures + 1)
  }

  lemma NudgeKeeps(t: Turn, text: string, said: Said)
    requires WellFormed(t.messages)
    ensures WellFormed(Nudge(t, text, said).messages)
  {
    TalkOfMore(t.messages, Assistant(text, []));
    TalkOfMore(t.messages + [Assistant(text, [])], User(said));
  }

  /** A round that used nothing up, failed at nothing and made no progress is one stale step more. */
  function Round(t: Turn): Turn {
    t.(stale := if t.progressed then 0 else t.stale + 1)
  }

  lemma RoundCosts(env: Env, t0: Turn, t: Turn)
    requires Costs(env, t0, t) && !t0.progressed
    requires t0.failures < MAX_CONSECUTIVE_FAILURES && t0.stale < MAX_STALE_STEPS
    requires t.failures < MAX_CONSECUTIVE_FAILURES
    ensures Potential(env, Round(t)) < Potential(env, t0)
  {
  }

  /** The turn as the model is asked: its transcript is logged. */
  function Asking(t: Turn): Turn {
    t.(book := t.book.(log := t.book.log + [Asked(t.messages)]), progressed := false)
  }

  /** The turn with the model's answer added, its calls about to be handled. */
  lemma HearingReply(env: Env, t0: Turn, reply: Reply)
    requires CalledFor(env, t0.book.log) && WellFormed(t0.messages)
    requires env.model(|t0.book.log|, t0.messages) == Some(reply)
    ensures var t := Asking(t0);
            var t1 := t.(messages := t.messages + [Assistant(reply.text, reply.calls)]);
            Awaiting(t1.messages, reply.calls) && Midway(env, t1, t1, reply.calls, |t0.book.log|)
  {
    CalledForGrows(env, t0.book.log, Asked(t0.messages));
    TalkOfMore(t0.messages, Assistant(reply.text, reply.calls));
  }

  /** Once its calls are gone through, a round goes on to the next, wraps up or ends the run. */
  function RoundOver(t: Turn, flow: Flow): (Turn, Flow) {
    if flow.Next? || flow.Back? then (Round(t), Next) else (t, flow)
  }

  /** One time round the loop. */
  function RoundOf(env: Env, t0: Turn): (Turn, Flow) {
    var t := Asking(t0);
    match env.model(|t0.book.log|, t0.messages)
    case None => (t, End(LoopResult(ModelFailed, Own("", []), None, [])))
    case Some(reply) =>
      if reply.calls == [] || |reply.calls| > MAX_TOOL_CALLS_PER_ITER then
        var nudged := Nudge(t, reply.text, if reply.calls == [] then CallAnAction else FewerCalls);
        (nudged, if nudged.failures >= MAX_CONSECUTIVE_FAILURES then Wrap else Next)
      else
        var (t', flow) := StepAll(env, t.(messages := t.messages + [Assistant(reply.text, reply.calls)]), reply.calls);
        RoundOver(t', flow)
  }

  lemma RoundPaced(env: Env, t0: Turn, from: nat)
    requires BetweenRounds(t0, from)
    ensures var (t, flow) := RoundOf(env, t0);
            && (flow.Next? ==> BetweenRounds(t, from))
            && (flow.Wrap? ==> from <= |t.messages| && Settled(PaceOf(t.messages, from)).failures >= 3)
  {
    var resp := env.model(|t0.book.log|, t0.messages);
    if resp.Some? {
      var reply, t := resp.value, Asking(t0);
      if reply.calls == [] || |reply.calls| > MAX_TOOL_CALLS_PER_ITER {
        NudgePaced(t, reply.text, if reply.calls == [] then CallAnAction else FewerCalls, from);
      } else {
        PaceMore(t.messages, from, Assistant(reply.text, reply.calls));
        StepAllPaced(env, t.(messages := t.messages + [Assistant(reply.text, reply.calls)]), reply.calls, from);
      }
    }
  }

  lemma NudgePaced(t: Turn, text: string, said: Said, from: nat)
    requires BetweenRounds(t, from) && (said.CallAnAction? || said.FewerCalls?)
    ensures BetweenRounds(Nudge(t, text, said), from)
  {
    PaceMore(t.messages, from, Assistant(text, []));
    PaceMore(t.messages + [Assistant(text, [])], from, User(said));
  }

  lemma RoundRuns(env: Env, t0: Turn)
    ensures var log := RoundOf(env, t0).0.book.log;
            && t0.book.log + [Asked(t0.messages)] <= log
            && forall k :: |t0.book.log| < k < |log| ==> log[k].Ran?
  {
    var resp := env.model(|t0.book.log|, t0.messages);
    if resp.Some? {
      var reply, t := resp.value, Asking(t0);
      StepAllRuns(env, t.(messages := t.messages + [Assistant(reply.text, reply.calls)]), reply.calls);
    }
  }

  /** What ends a run ends it, and nothing else that is a finish. */
  lemma RoundEnds(env: Env, t0: Turn, from: nat)
    requires t0.book.records == RecordsOf(env, t0.book.log) && OnTrack(t0.messages, from) && BetweenRounds(t0, from)
    ensures var (t, flow) := RoundOf(env, t0);
            && |t0.book.log| < |t.book.log| && t.book.log[|t0.book.log|] == Asked(t0.messages)
            && (!flow.End? ==> !EndsThere(env, t.book.log, |t0.book.log|))
            && (flow.End? ==> EndsRightly(env, flow.result, t.book.log, from, |t0.book.log|))
  {
    var m := |t0.book.log|;
    var (t, flow) := RoundOf(env, t0);
    RoundRuns(env, t0);
    assert t.book.log[m] == Asked(t0.messages) && t.book.log[..m] == t0.book.log;
    if env.model(m, t0.messages).Some? {
      var reply := env.model(m, t0.messages).value;
      StepAllEnds(env, Asking(t0).(messages := t0.messages + [Assistant(reply.text, reply.calls)]), reply.calls);
    }
    if env.model(m, t0.messages).Some? && EndsThere(env, t.book.log, m) {
      var reply := env.model(m, t0.messages).value;
      FinishFirst(env, Asking(t0).(messages := t0.messages + [Assistant(reply.text, reply.calls)]), reply.calls);
    }
  }

  /** What one round keeps. */
  ghost predicate Rounded(env: Env, start: seq<Message>, t0: Turn, t: Turn, flow: Flow) {
    && t0.book.log + [Asked(t0.messages)] <= t.book.log && CalledFor(env, t.book.log)
    && Good(env, t.book) && TimesAsked(t.book.log) == TimesAsked(t0.book.log) + 1
    && ToldAll(env, start, t.book.log) && (!flow.End? ==> Telling(env, start, t.book, t.messages))
    && (flow.Next? || flow.Wrap? || flow.End?)
    && (flow.Next? ==>
          && WellFormed(t.messages) && Potential(env, t) < Potential(env, t0)
          && t.failures < MAX_CONSECUTIVE_FAILURES && t.stale <= MAX_STALE_STEPS)
    && (flow.Wrap? ==> TalkOf(t.messages).Talking?)
    && (flow.End? ==> Honest(env, flow.result, t.book.log, false) && flow.result.status in {Complete, ModelFailed})
  }

  /** Asking keeps what is kept, and what was told stays told. */
  lemma AskingOn(env: Env, start: seq<Message>, t0: Turn)
    requires Good(env, t0.book) && WellFormed(t0.messages) && CalledFor(env, t0.book.log)
    requires Telling(env, start, t0.book, t0.messages)
    ensures var b := Asking(t0).book;
            && Good(env, b) && CalledFor(env, b.log) && ToldAll(env, start, b.log)
            && TimesAsked(b.log) == TimesAsked(t0.book.log) + 1
  {
    AskingKeeps(env, t0.book, t0.messages);
    AskingTells(env, start, t0.book, t0.messages);
    CalledForGrows(env, t0.book.log, Asked(t0.messages));
  }

  lemma NoAnswer(env: Env, start: seq<Message>, t0: Turn)
    requires Good(env, t0.book) && WellFormed(t0.messages) && CalledFor(env, t0.book.log)
    requires Telling(env, start, t0.book, t0.messages)
    ensures Rounded(env, start, t0, Asking(t0), End(LoopResult(ModelFailed, Own("", []), None, [])))
  {
    AskingOn(env, start, t0);
  }

  /** An answer that cannot be used is told so, and is a failure. */
  lemma UnusableAnswer(env: Env, start: seq<Message>, t0: Turn, reply: Reply, said: Said)
    requires Good(env, t0.book) && WellFormed(t0.messages) && CalledFor(env, t0.book.log)
    requires Telling(env, start, t0.book, t0.messages) && t0.failures < MAX_CONSECUTIVE_FAILURES
    requires t0.stale < MAX_STALE_STEPS
    requires env.model(|t0.book.log|, t0.messages) == Some(reply)
    requires (reply.calls == [] || |reply.calls| > MAX_TOOL_CALLS_PER_ITER) && (said.CallAnAction? || said.FewerCalls?)
    ensures var t := Nudge(Asking(t0), reply.text, said);
            Rounded(env, start, t0, t, if t.failures >= MAX_CONSECUTIVE_FAILURES then Wrap else Next)
  {
    AskingKeeps(env, t0.book, t0.messages);
    HearingTells(env, start, t0.book, t0.messages, reply);
    CalledForGrows(env, t0.book.log, Asked(t0.messages));
    NudgeKeeps(Asking(t0), reply.text, said);
    NudgeTells(env, start, Asking(t0).book, t0.messages + [Assistant(reply.text, [])], said);
  }

  lemma FitOn(env: Env, t: Turn, flow: Flow)
    requires Fit(env, t, flow, []) && (flow.Next? || flow.Back?)
    ensures Good(env, t.book) && WellFormed(t.messages) && t.failures < MAX_CONSECUTIVE_FAILURES
  {
  }

  lemma HandledCosts(env: Env, t0: Turn, t: Turn)
    requires t0.failures < MAX_CONSECUTIVE_FAILURES && t0.stale < MAX_STALE_STEPS
    requires t.failures < MAX_CONSECUTIVE_FAILURES
    requires TimesAsked(Asking(t0).book.log) == TimesAsked(t0.book.log) + 1 && Costs(env, Asking(t0), t)
    requires Asking(t0).book.log <= t.book.log
    ensures Potential(env, Round(t)) < Potential(env, t0) && Round(t).stale <= MAX_STALE_STEPS
    ensures TimesAsked(t.book.log) == TimesAsked(t0.book.log) + 1 && t0.book.log + [Asked(t0.messages)] <= t.book.log
    ensures Round(t).book == t.book && Round(t).messages == t.messages && Round(t).failures == t.failures
  {
    RoundCosts(env, Asking(t0), t);
  }

  /** What the calls of an answer leave is what a round keeps. */
  lemma HandledOn(env: Env, start: seq<Message>, t0: Turn, t: Turn)
    requires t0.failures < MAX_CONSECUTIVE_FAILURES && t0.stale < MAX_STALE_STEPS
    requires TimesAsked(Asking(t0).book.log) == TimesAsked(t0.book.log) + 1
    requires Good(env, t.book) && WellFormed(t.messages) && t.failures < MAX_CONSECUTIVE_FAILURES
    requires Telling(env, start, t.book, t.messages)
    requires Costs(env, Asking(t0), t) && Asking(t0).book.log <= t.book.log && CalledFor(env, t.book.log)
    ensures Rounded(env, start, t0, Round(t), Next)
  {
    HandledCosts(env, t0, t);
  }

  lemma HandledLast(env: Env, start: seq<Message>, t0: Turn, reply: Reply, t: Turn, flow: Flow)
    requires TimesAsked(Asking(t0).book.log) == TimesAsked(t0.book.log) + 1 && (flow.Wrap? || flow.End?)
    requires Fit(env, t, flow, []) && StepTold(env, start, t, flow, |t0.messages|, reply.calls)
    requires Costs(env, Asking(t0), t) && Asking(t0).book.log <= t.book.log && CalledFor(env, t.book.log)
    ensures Rounded(env, start, t0, t, flow)
  {
  }

  lemma Handled(env: Env, start: seq<Message>, t0: Turn, reply: Reply, t: Turn, flow: Flow)
    requires t0.failures < MAX_CONSECUTIVE_FAILURES && t0.stale < MAX_STALE_STEPS
    requires TimesAsked(Asking(t0).book.log) == TimesAsked(t0.book.log) + 1
    requires Fit(env, t, flow, []) && StepTold(env, start, t, flow, |t0.messages|, reply.calls)
    requires Costs(env, Asking(t0), t) && Asking(t0).book.log <= t.book.log && CalledFor(env, t.book.log)
    ensures Rounded(env, start, t0, RoundOver(t, flow).0, RoundOver(t, flow).1)
  {
    if flow.Next? || flow.Back? {
      FitOn(env, t, flow);
      HandledOn(env, start, t0, t);
    } else {
      HandledLast(env, start, t0, reply, t, flow);
    }
  }

  /** The calls of an answer are carried out, and the round is over. */
  method HandleReply(env: Env, t0: Turn, reply: Reply, ghost start: seq<Message>) returns (t: Turn, flow: Flow)
    requires Good(env, t0.book) && WellFormed(t0.messages) && CalledFor(env, t0.book.log)
    requires Telling(env, start, t0.book, t0.messages)
    requires t0.failures < MAX_CONSECUTIVE_FAILURES && t0.stale < MAX_STALE_STEPS
    requires env.model(|t0.book.log|, t0.messages) == Some(reply)
    requires reply.calls != [] && |reply.calls| <= MAX_TOOL_CALLS_PER_ITER
    ensures Rounded(env, start, t0, t, flow) && (t, flow) == RoundOf(env, t0)
  {
    AskingKeeps(env, t0.book, t0.messages);
    HearingReply(env, t0, reply);
    HearingTells(env, start, t0.book, t0.messages, reply);
    t := Asking(t0).(messages := t0.messages + [Assistant(reply.text, reply.calls)]);
    t, flow := HandleCalls(env, t, reply.calls, |t0.book.log|, start, |t0.messages|);
    Handled(env, start, t0, reply, t, flow);
    var over := RoundOver(t, flow);
    t, flow := over.0, over.1;
  }

  /** One time round the loop: ask the model, and carry out what it answers. */
  method Iterate(env: Env, t0: Turn, ghost start: seq<Message>) returns (t: Turn, flow: Flow)
    requires Good(env, t0.book) && WellFormed(t0.messages) && CalledFor(env, t0.book.log)
    requires Telling(env, start, t0.book, t0.messages)
    requires t0.failures < MAX_CONSECUTIVE_FAILURES && t0.stale < MAX_STALE_STEPS
    ensures Rounded(env, start, t0, t, flow) && (t, flow) == RoundOf(env, t0)
  {
    var resp := env.model(|t0.book.log|, t0.messages);
    if resp.None? {
      NoAnswer(env, start, t0);
      return Asking(t0), End(LoopResult(ModelFailed, Own("", []), None, []));
    }
    var calls := resp.value.calls;
    if calls == [] || |calls| > MAX_TOOL_CALLS_PER_ITER {
      var said := if calls == [] then CallAnAction else FewerCalls;
      UnusableAnswer(env, start, t0, resp.value, said);
      t := Nudge(Asking(t0), resp.value.text, said);
      return t, if t.failures >= MAX_CONSECUTIVE_FAILURES then Wrap else Next;
    }
    t, flow := HandleReply(env, t0, resp.value, start);
  }

  /** What a round leaves when it does not end the run. */
  lemma RoundGoesOn(env: Env, t0: Turn, from: nat)
    requires BetweenRounds(t0, from) && WentOn(env, t0.book.log, from)
    requires t0.book.records == RecordsOf(env, t0.book.log) && t0.failures < 3 && t0.stale < 2
    ensures var (t, flow) := RoundOf(env, t0);
            && (flow.Next? ==> BetweenRounds(t, from))
            && (flow.Wrap? ==> from <= |t.messages| && Settled(PaceOf(t.messages, from)).failures >= 3)
            && (!flow.End? ==> WentOn(env, t.book.log, from))
            && (flow.End? ==> AskedAgainRightly(env, t.book.log, from)
                              && EndsRightly(env, flow.result, t.book.log, from, |t0.book.log|))
  {
    var (t, flow) := RoundOf(env, t0);
    RoundPaced(env, t0, from);
    RoundRuns(env, t0);
    RoundEnds(env, t0, from);
    if flow.End? {
      WentOnBefore(env, t0.book.log, t.book.log, |t0.book.log|, from);
    } else {
      WentOnThen(env, t0.book.log, t.book.log, from);
    }
  }

  /** A run is wrapped up for a reason. */
  lemma WrappedForAReason(env: Env, t: Turn, result: LoopResult, log: seq<Event>, from: nat)
    requires WentOn(env, t.book.log, from) && WrappedRight(env, t.messages, result, t.book.log, log)
    requires from <= |t.messages|
    requires var p := Settled(PaceOf(t.messages, from));
             p.failures >= 3 || p.stale >= 2 || (env.maxIterations > 0 && TimesAsked(t.book.log) == env.maxIterations)
    ensures AskedAgainRightly(env, log, from) && (Find(env.actions, FINISH).Some? ==> WrapsUpRightly(env, log, from))
  {
    if Find(env.actions, FINISH).Some? {
      var e := log[|t.book.log|];
      assert log == t.book.log + [e];
      WentOnBefore(env, t.book.log, log, |t.book.log|, from);
      WrapUpPaced(env, t, e.transcript, from);
      LogGrows(env, t.book.log, e);
    } else {
      assert forall j, k :: 0 <= j < k < |log| && log[j].Asked? && log[k].Asked? ==>
               OnTrack(log[j].transcript, from) && !EndsThere(env, log, j);
    }
  }

  /** Wrapping up, for a reason. */
  method WrapUpFor(env: Env, t: Turn, ghost start: seq<Message>) returns (result: LoopResult, log: seq<Event>)
    requires Good(env, t.book) && TalkOf(t.messages).Talking? && Telling(env, start, t.book, t.messages)
    requires CalledFor(env, t.book.log) && WentOn(env, t.book.log, |start|)
    requires var p := Settled(PaceOf(t.messages, |start|));
             p.failures >= 3 || p.stale >= 2 || (env.maxIterations > 0 && TimesAsked(t.book.log) == env.maxIterations)
    ensures WrappedRun(env, start, t, result, log)
  {
    result, log := WrapUp(env, t, start);
    WrappedForAReason(env, t, result, log, |start|);
  }

  ghost predicate WrappedRun(env: Env, start: seq<Message>, t: Turn, result: LoopResult, log: seq<Event>) {
    && Safe(env, log) && Honest(env, result, log, true) && CalledFor(env, log) && ToldAll(env, start, log)
    && t.book.log <= log && WrappedRight(env, t.messages, result, t.book.log, log)
    && TimesAsked(log) <= TimesAsked(t.book.log) + 1 && result.status in {Complete, Error}
    && AskedAgainRightly(env, log, |start|) && (Find(env.actions, FINISH).Some? ==> WrapsUpRightly(env, log, |start|))
  }

  /** Between rounds. */
  ghost predicate Running(env: Env, start: seq<Message>, t: Turn) {
    && Good(env, t.book) && WellFormed(t.messages) && Telling(env, start, t.book, t.messages) &&
       CalledFor(env, t.book.log)
    && t.failures < MAX_CONSECUTIVE_FAILURES && t.stale <= MAX_STALE_STEPS
    && BetweenRounds(t, |start|) && WentOn(env, t.book.log, |start|)
  }

  /** How a run that is over went, whatever ended it. */
  ghost predicate RunRight(env: Env, start: seq<Message>, result: LoopResult, log: seq<Event>, wrapped: bool) {
    && Safe(env, log) && Honest(env, result, log, wrapped) && CalledFor(env, log) && ToldAll(env, start, log)
    && AskedAgainRightly(env, log, |start|)
    && (wrapped ==> exists messages, before :: before <= log && WrappedRight(env, messages, result, before, log))
    && (wrapped && Find(env.actions, FINISH).Some? ==> WrapsUpRightly(env, log, |start|))
    && (!wrapped && result.status != MaxIteration ==> exists m :: EndsRightly(env, result, log, |start|, m))
  }

  lemma WrappedRunRight(env: Env, start: seq<Message>, t: Turn, result: LoopResult, log: seq<Event>)
    requires WrappedRun(env, start, t, result, log)
    ensures RunRight(env, start, result, log, true)
  {
  }

  lemma EndedRunRight(env: Env, start: seq<Message>, t0: Turn, t: Turn, flow: Flow)
    requires Rounded(env, start, t0, t, flow) && flow.End? && AskedAgainRightly(env, t.book.log, |start|)
    requires EndsRightly(env, flow.result, t.book.log, |start|, |t0.book.log|)
    ensures RunRight(env, start, flow.result, t.book.log, false)
  {
  }

  /** A round, and wrapping up when it has to be. */
  method OneRound(env: Env, t0: Turn, start: seq<Message>)
    returns (t: Turn, over: bool, result: LoopResult, log: seq<Event>, wrapped: bool)
    requires Running(env, start, t0) && t0.stale < MAX_STALE_STEPS
    ensures !over ==>
              && Running(env, start, t) && Potential(env, t) < Potential(env, t0)
              && TimesAsked(t.book.log) == TimesAsked(t0.book.log) + 1
              && t0.book.log + [Asked(t0.messages)] <= t.book.log
    ensures over ==>
              && RunRight(env, start, result, log, wrapped) && result.status != MaxIteration
              && TimesAsked(log) <= TimesAsked(t0.book.log) + 2 && t0.book.log + [Asked(t0.messages)] <= log
  {
    var flow;
    RoundGoesOn(env, t0, |start|);
    t, flow := Iterate(env, t0, start);
    over, result, log, wrapped := !flow.Next?, LoopResult(Error, Own("", []), None, []), t.book.log, flow.Wrap?;
    match flow {
      case Wrap =>
        result, log := WrapUpFor(env, t, start);
        WrappedRunRight(env, start, t, result, log);
      case End(r) =>
        EndedRunRight(env, start, t0, t, flow);
        result := r;
      case _ =>
    }
  }

  /** The loop of domain/loop.go:183-370. Whatever the model answers and whatever the actions return, the run ends, and
      what left it is safe and its ending honest. */
  method Run(env: Env, start: seq<Message>) returns (result: LoopResult, log: seq<Event>, wrapped: bool)
    requires WellFormed(start)
    ensures RunRight(env, start, result, log, wrapped)
    ensures log != [] && log[0] == Asked(start)
    ensures TimesAsked(log) <= 4 * MAX_SAME_ACTION_CALLS * |env.actions| + 6
    ensures env.maxIterations > 0 ==> TimesAsked(log) <= env.maxIterations + 1
    ensures result.status == MaxIteration ==> env.maxIterations > 0 && Find(env.actions, FINISH).None?
  {
    var t := Begin(start);
    var i := 0;
    while env.maxIterations == 0 || i < env.maxIterations
      invariant env.maxIterations > 0 ==> i <= env.maxIterations
      invariant Running(env, start, t) && TimesAsked(t.book.log) == i
      invariant if i == 0 then t == Begin(start) else t.book.log != [] && t.book.log[0] == Asked(start)
      invariant i + Potential(env, t) <= 4 * MAX_SAME_ACTION_CALLS * |env.actions| + 5
      decreases Potential(env, t)
    {
      if t.stale >= MAX_STALE_STEPS {
        result, log := WrapUpFor(env, t, start);
        WrappedRunRight(env, start, t, result, log);
        return result, log, true;
      }
      var over;
      t, over, result, log, wrapped := OneRound(env, t, start);
      if over { return; }
      i := i + 1;
    }
    if Find(env.actions, FINISH).Some? {
      result, log := WrapUpFor(env, t, start);
      WrappedRunRight(env, start, t, result, log);
      return result, log, true;
    }
    UsedAllItsSteps(env, start, t);
    return LoopResult(MaxIteration, Own("", []), None, []), t.book.log, false;
  }

  lemma UsedAllItsSteps(env: Env, start: seq<Message>, t: Turn)
    requires Running(env, start, t)
    ensures RunRight(env, start, LoopResult(MaxIteration, Own("", []), None, []), t.book.log, false)
  {
  }

  // ── What an accepted "done" says ────────────────────────────────────────────

  lemma {:induction false} RecordsAreWhatRan(env: Env, log: seq<Event>, rec: ActionRecord)
    requires rec in RecordsOf(env, log)
    ensures exists i :: 0 <= i < |log| && log[i].Ran? && RecordOf(env, log[i]) == [rec]
  {
    var front, e := log[..|log| - 1], log[|log| - 1];
    if rec in RecordsOf(env, front) {
      RecordsAreWhatRan(env, front, rec);
      var i :| 0 <= i < |front| && front[i].Ran? && RecordOf(env, front[i]) == [rec];
      assert log[i] == front[i];
    } else {
      assert log[|log| - 1].Ran?;
    }
  }

  /** A reply held to requirements that keeps the agent's own words and calls itself done: an action that was asked for
      was invoked in this very run, and what it returned says it did its job. */
  lemma DoneWasDone(env: Env, r: LoopResult, log: seq<Event>, wrapped: bool)
    requires Honest(env, r, log, wrapped) && r.status == Complete && r.output.Some? && Held(env).Some?
    requires r.content.Own? && StringField(r.output.value, "outcome") == OUTCOME_DONE
    ensures var req := Held(env).value;
            exists i :: && 0 <= i < |log| && log[i].Ran? && OutcomeOf(log[i].result).done
                        && var a := Find(env.actions, log[i].call.name);
                           if req.tools == [] then a.Some? && a.value.changes else log[i].call.name in req.tools
  {
    var req := Held(env).value;
    var rec :| rec in RecordsOf(env, log) && rec.done && Counts(req, rec);
    RecordsAreWhatRan(env, log, rec);
  }

  // ── What a person is told ───────────────────────────────────────────────────

  /** A change that went through in this run. */
  ghost predicate ChangeWent(env: Env, log: seq<Event>, i: int) {
    && 0 <= i < |log| && log[i].Ran? && OutcomeOf(log[i].result).done
    && Find(env.actions, log[i].call.name).Some? && Find(env.actions, log[i].call.name).value.changes
  }

  lemma {:induction false} ChangedExactly(env: Env, log: seq<Event>)
    ensures ChangedAnything(RecordsOf(env, log)) <==> exists i :: ChangeWent(env, log, i)
  {
    if log != [] {
      var front, last := log[..|log| - 1], |log| - 1;
      ChangedExactly(env, front);
      if i :| ChangeWent(env, front, i) { assert ChangeWent(env, log, i); }
      if i :| ChangeWent(env, log, i) { assert i < last ==> ChangeWent(env, front, i); }
      assert ChangeWent(env, log, last) <==> ChangedAnything(RecordOf(env, log[last]));
    }
  }

  /** The facts, as they are written out, deny a change exactly when none went through in the run; when one did that has
      words of its own, they give every receipt. */
  lemma ToldTheFacts(env: Env, r: LoopResult, log: seq<Event>, wrapped: bool)
    requires Honest(env, r, log, wrapped) && r.status == Complete && r.content.Facts?
    ensures HasPrefix(Render(r.content), "Nothing was changed") <==> !exists i :: ChangeWent(env, log, i)
    ensures (exists rec :: rec in r.actions && Receiptable(rec)) ==>
              Receipts(r.actions) != [] && Render(r.content) == WENT_THROUGH + Lines(Receipts(r.actions))
  {
    FactsMatchTheRecord(r.content.req, r.content.records);
    ChangedExactly(env, log);
  }

  /** A turn that ended done in the agent's own words adds a line for each change that went through, and for no other.
      */
  lemma ToldTheReceipts(env: Env, r: LoopResult, log: seq<Event>, line: string)
    requires Honest(env, r, log, false) && r.status == Complete && r.output.Some? && Held(env).Some? && r.content.Own?
    requires StringField(r.output.value, "outcome") == OUTCOME_DONE
    ensures Render(r.content) == StringField(r.output.value, "content") + Appended(r.content.receipts)
    ensures line in r.content.receipts
            <==> exists rec :: rec in RecordsOf(env, log) && Receiptable(rec) && line == ReceiptLine(rec)
  {
    ReceiptsAreTheChanges(RecordsOf(env, log), line);
  }
}
