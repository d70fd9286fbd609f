/** What the model is told: every transcript it is given tells the log so far, in order and as it was returned. */
module AgentTelling {
  import opened Values
  import opened Outcome
  import opened Transcripts
  import opened AgentSteps
  import opened AgentKeeping

  /** What a run has said so far, as the model must be told it: each of its answers, without the calls when they are too
      many, and what each invocation returned, or its error, as the answer to that very call. */
  function SaidAt(env: Env, i: nat, e: Event): seq<Message> {
    match e
    case Asked(ms) =>
      (match env.model(i, ms)
       case None => []
       case Some(reply) => [Assistant(reply.text, if |reply.calls| > 10 then [] else reply.calls)])
    case Ran(call, result) =>
      [Tool(call.id, call.name, ReturnedBy(env, result))]
  }

  function ReturnedBy(env: Env, r: Result): Said {
    if r.fault.NoFault? then Words(env.show(r.output)) else ErrorText(r.fault)
  }

  function SaidIn(env: Env, log: seq<Event>): seq<Message> {
    if log == [] then [] else SaidIn(env, log[..|log| - 1]) + SaidAt(env, |log| - 1, log[|log| - 1])
  }

  /** Answers of the model and results; the rest are refusals and notes of the loop. */
  predicate IsSaid(m: Message) {
    m.Assistant? || (m.Tool? && (m.said.Words? || m.said.ErrorText?))
  }

  /** The answers and results from there on. */
  function SaidFrom(ms: seq<Message>, from: nat): seq<Message> {
    if |ms| <= from then []
    else SaidFrom(ms[..|ms| - 1], from) + if IsSaid(ms[|ms| - 1]) then [ms[|ms| - 1]] else []
  }

  /** The tool message at k answers this call: it is one of the assistant message that its block of answers follows. */
  ghost predicate IsAnswerTo(ms: seq<Message>, k: int, c: Call)
    requires 0 <= k < |ms| && ms[k].Tool?
  {
    exists a :: Precedes(ms, a, k) && c in ms[a].calls && c.id == ms[k].callId && c.name == ms[k].name
  }

  ghost predicate Precedes(ms: seq<Message>, a: int, k: int)
    requires k < |ms|
  {
    0 <= a < k && ms[a].Assistant? && forall j :: a < j <= k ==> ms[j].Tool?
  }

  /** What a result is repeated as: a look-up's in full, a change's shortened. */
  function Retold(env: Env, r: Result, change: bool): string {
    if change then Shortened(env.show(r.output)) else env.show(r.output)
  }

  /** A call refused as a repeat is told what that very call returned when it went through. */
  ghost predicate ToldTheEarlier(env: Env, log: seq<Event>, ms: seq<Message>, k: int, text: string, change: bool)
    requires 0 <= k < |ms| && ms[k].Tool?
  {
    exists i, c {:trigger WentThrough(env, log, i, (c.name, c.args), change)} ::
      && IsAnswerTo(ms, k, c) && WentThrough(env, log, i, (c.name, c.args), change)
      && text == Retold(env, log[i].result, change)
  }

  ghost predicate RightlySaid(env: Env, log: seq<Event>, ms: seq<Message>, k: int)
    requires 0 <= k < |ms|
  {
    ms[k].Tool? ==>
      match ms[k].said
      case LookedUpBefore(text) => ToldTheEarlier(env, log, ms, k, text, false)
      case DoneBefore(text) => ToldTheEarlier(env, log, ms, k, text, true)
      case UnknownAction => Find(env.actions, ms[k].name).None?
      case FinishRefused => ms[k].name == FINISH
      case _ => true
  }

  /** What a transcript says after what happened so far: what it began with, and then every answer and every result, in
      order, and nothing else that is one. */
  ghost predicate Tells(env: Env, start: seq<Message>, log: seq<Event>, ms: seq<Message>) {
    && start <= ms && SaidFrom(ms, |start|) == SaidIn(env, log)
    && forall k {:trigger ms[k]} :: |start| <= k < |ms| ==> RightlySaid(env, log, ms, k)
  }

  /** So does every transcript the model was given. */
  ghost predicate ToldAll(env: Env, start: seq<Message>, log: seq<Event>) {
    forall j {:trigger log[j]} :: 0 <= j < |log| && log[j].Asked? ==> Tells(env, start, log[..j], log[j].transcript)
  }

  /** What is remembered of a call is what it returned. */
  ghost predicate Recalls(env: Env, b: Book) {
    && (forall key :: key in b.lookedUp ==> Recalled(env, b.log, key, b.lookedUp[key], false))
    && forall key :: key in b.doneChanges ==> Recalled(env, b.log, key, b.doneChanges[key], true)
  }

  ghost predicate Recalled(env: Env, log: seq<Event>, key: Key, text: string, change: bool) {
    exists i {:trigger WentThrough(env, log, i, key, change)} ::
      && WentThrough(env, log, i, key, change)
      && text == Retold(env, log[i].result, change)
  }

  ghost predicate Telling(env: Env, start: seq<Message>, b: Book, ms: seq<Message>) {
    Recalls(env, b) && ToldAll(env, start, b.log) && Tells(env, start, b.log, ms)
  }

  lemma RecalledGrows(env: Env, log: seq<Event>, e: Event, key: Key, text: string, change: bool)
    requires Recalled(env, log, key, text, change)
    ensures Recalled(env, log + [e], key, text, change)
  {
    var i :| WentThrough(env, log, i, key, change)
             && text == Retold(env, log[i].result, change);
    assert (log + [e])[i] == log[i];
    assert WentThrough(env, log + [e], i, key, change);
  }

  lemma RecallsGrows(env: Env, b: Book, e: Event)
    requires Recalls(env, b)
    ensures Recalls(env, b.(log := b.log + [e]))
  {
    forall key | key in b.lookedUp ensures Recalled(env, b.log + [e], key, b.lookedUp[key], false) {
      RecalledGrows(env, b.log, e, key, b.lookedUp[key], false);
    }
    forall key | key in b.doneChanges ensures Recalled(env, b.log + [e], key, b.doneChanges[key], true) {
      RecalledGrows(env, b.log, e, key, b.doneChanges[key], true);
    }
  }

  lemma NoteRecalls(env: Env, b: Book, call: Call, a: Action, r: Result)
    requires Recalls(env, b) && Find(env.actions, call.name) == Some(a)
    ensures Recalls(env, Note(env, b, call, a, r))
  {
    var b', key := Note(env, b, call, a, r), (call.name, call.args);
    RecallsGrows(env, b, Ran(call, r));
    assert b'.log[|b.log|] == Ran(call, r);
    forall k | k in b'.lookedUp ensures Recalled(env, b'.log, k, b'.lookedUp[k], false) {
      if k == key && a.readOnly && env.encodes(call.args) && OutcomeOf(r).done {
        assert WentThrough(env, b'.log, |b.log|, key, false);
      }
    }
    forall k | k in b'.doneChanges ensures Recalled(env, b'.log, k, b'.doneChanges[k], true) {
      if k == key && a.changes && env.encodes(call.args) && OutcomeOf(r).done {
        assert WentThrough(env, b'.log, |b.log|, key, true);
      }
    }
  }

  lemma SaidInMore(env: Env, log: seq<Event>, e: Event)
    ensures SaidIn(env, log + [e]) == SaidIn(env, log) + SaidAt(env, |log|, e)
  {
    assert (log + [e])[..|log|] == log;
  }

  lemma SaidFromMore(ms: seq<Message>, from: nat, m: Message)
    requires from <= |ms|
    ensures SaidFrom(ms + [m], from) == SaidFrom(ms, from) + if IsSaid(m) then [m] else []
  {
    assert (ms + [m])[..|ms|] == ms;
  }

  lemma StillAnswers(ms: seq<Message>, more: seq<Message>, k: int, c: Call)
    requires 0 <= k < |ms| && ms <= more && ms[k].Tool? && IsAnswerTo(ms, k, c)
    ensures IsAnswerTo(more, k, c)
  {
    var a :| Precedes(ms, a, k) && c in ms[a].calls && c.id == ms[k].callId && c.name == ms[k].name;
    assert Precedes(more, a, k);
  }

  lemma StillEarlier(env: Env, log: seq<Event>, log': seq<Event>, ms: seq<Message>, ms': seq<Message>, k: int,
                     text: string, change: bool)
    requires 0 <= k < |ms| && ms <= ms' && log <= log' && ms[k].Tool? && ToldTheEarlier(env, log, ms, k, text, change)
    ensures ToldTheEarlier(env, log', ms', k, text, change)
  {
    var i, c :| IsAnswerTo(ms, k, c) && WentThrough(env, log, i, (c.name, c.args), change)
      && text == Retold(env, log[i].result, change);
    StillAnswers(ms, ms', k, c);
    assert log'[i] == log[i];
    assert WentThrough(env, log', i, (c.name, c.args), change);
  }

  lemma StillRightly(env: Env, log: seq<Event>, log': seq<Event>, ms: seq<Message>, ms': seq<Message>, k: int)
    requires 0 <= k < |ms| && ms <= ms' && log <= log' && RightlySaid(env, log, ms, k)
    ensures RightlySaid(env, log', ms', k)
  {
    if ms[k].Tool? && ms[k].said.LookedUpBefore? { StillEarlier(env, log, log', ms, ms', k, ms[k].said.text, false); }
    if ms[k].Tool? && ms[k].said.DoneBefore? { StillEarlier(env, log, log', ms, ms', k, ms[k].said.text, true); }
  }

  /** A message more, that is no answer and no result, and says what it may. */
  lemma TellsMore(env: Env, start: seq<Message>, log: seq<Event>, ms: seq<Message>, m: Message)
    requires Tells(env, start, log, ms) && !IsSaid(m) && RightlySaid(env, log, ms + [m], |ms|)
    ensures Tells(env, start, log, ms + [m])
  {
    SaidFromMore(ms, |start|, m);
    forall k | |start| <= k < |ms| + 1 ensures RightlySaid(env, log, ms + [m], k) {
      if k < |ms| { StillRightly(env, log, log, ms, ms + [m], k); }
    }
  }

  /** Something happened, and is told. */
  lemma TellsWhatHappened(env: Env, start: seq<Message>, log: seq<Event>, ms: seq<Message>, e: Event, m: Message)
    requires Tells(env, start, log, ms) && SaidAt(env, |log|, e) == [m] && IsSaid(m)
    ensures Tells(env, start, log + [e], ms + [m])
  {
    SaidInMore(env, log, e);
    SaidFromMore(ms, |start|, m);
    forall k | |start| <= k < |ms| + 1 ensures RightlySaid(env, log + [e], ms + [m], k) {
      if k < |ms| { StillRightly(env, log, log + [e], ms, ms + [m], k); }
    }
  }

  lemma {:induction false} TellsAnswers(env: Env, start: seq<Message>, log: seq<Event>, ms: seq<Message>,
                                        calls: seq<Call>, said: Said)
    requires Tells(env, start, log, ms) && IsPlain(said)
    ensures Tells(env, start, log, ms + Answers(calls, said))
    decreases |calls|
  {
    if calls == [] {
      assert ms + Answers(calls, said) == ms;
    } else {
      var m := Tool(calls[0].id, calls[0].name, said);
      TellsMore(env, start, log, ms, m);
      TellsAnswers(env, start, log, ms + [m], calls[1..], said);
      FirstAnswer(ms, calls, said);
    }
  }

  lemma {:induction false} TellsClosing(env: Env, start: seq<Message>, log: seq<Event>, ms: seq<Message>,
                                        calls: seq<Call>, answered: set<string>)
    requires Tells(env, start, log, ms)
    ensures Tells(env, start, log, ms + Closing(calls, answered))
    decreases |calls|
  {
    if calls == [] {
      assert ms + Closing(calls, answered) == ms;
    } else {
      var front, c := calls[..|calls| - 1], calls[|calls| - 1];
      TellsClosing(env, start, log, ms, front, answered);
      if c.id in answered {
        assert Closing(calls, answered) == Closing(front, answered);
      } else {
        TellsMore(env, start, log, ms + Closing(front, answered), Tool(c.id, c.name, NotRun));
        LastClosing(ms, calls, answered);
      }
    }
  }

  lemma ToldAllGrows(env: Env, start: seq<Message>, log: seq<Event>, e: Event)
    requires ToldAll(env, start, log) && (e.Asked? ==> Tells(env, start, log, e.transcript))
    ensures ToldAll(env, start, log + [e])
  {
    var more := log + [e];
    forall j | 0 <= j < |more| && more[j].Asked? ensures Tells(env, start, more[..j], more[j].transcript) {
      if j < |log| { assert more[..j] == log[..j] && more[j] == log[j]; } else { assert more[..j] == log; }
    }
  }

  /** The transcript ends with the answers so far to the calls of its assistant message at a. */
  ghost predicate Answering(ms: seq<Message>, a: int, calls: seq<Call>) {
    0 <= a < |ms| && ms[a].Assistant? && ms[a].calls == calls && forall j :: a < j < |ms| ==> ms[j].Tool?
  }

  lemma AnswersThat(ms: seq<Message>, a: int, calls: seq<Call>, call: Call, said: Said)
    requires Answering(ms, a, calls) && call in calls
    ensures IsAnswerTo(ms + [Tool(call.id, call.name, said)], |ms|, call)
    ensures Answering(ms + [Tool(call.id, call.name, said)], a, calls)
  {
    assert Precedes(ms + [Tool(call.id, call.name, said)], a, |ms|);
  }

  lemma RecalledIsEarlier(env: Env, log: seq<Event>, ms: seq<Message>, k: int, call: Call, text: string, change: bool)
    requires 0 <= k < |ms| && ms[k].Tool? && IsAnswerTo(ms, k, call)
    requires Recalled(env, log, (call.name, call.args), text, change)
    ensures ToldTheEarlier(env, log, ms, k, text, change)
  {
    var key := (call.name, call.args);
    var i :| WentThrough(env, log, i, key, change) && text == Retold(env, log[i].result, change);
    assert WentThrough(env, log, i, (call.name, call.args), change);
  }

  /** A repeat is answered with what the call returned. */
  lemma TellsTheEarlier(env: Env, start: seq<Message>, b: Book, ms: seq<Message>, a: int, calls: seq<Call>, call: Call,
                        text: string, change: bool)
    requires Tells(env, start, b.log, ms) && Answering(ms, a, calls) && call in calls
    requires Recalled(env, b.log, (call.name, call.args), text, change)
    ensures var said := if change then DoneBefore(text) else LookedUpBefore(text);
            Tells(env, start, b.log, ms + [Tool(call.id, call.name, said)])
  {
    var m := Tool(call.id, call.name, if change then DoneBefore(text) else LookedUpBefore(text));
    AnswersThat(ms, a, calls, call, m.said);
    RecalledIsEarlier(env, b.log, ms + [m], |ms|, call, text, change);
    TellsMore(env, start, b.log, ms, m);
  }

  /** Answers of the same words to every call stand in the same block. */
  lemma {:induction false} AnswersStand(ms: seq<Message>, a: int, asked: seq<Call>, calls: seq<Call>, said: Said)
    requires Answering(ms, a, asked)
    ensures Answering(ms + Answers(calls, said), a, asked)
    decreases |calls|
  {
    if calls == [] {
      assert ms + Answers(calls, said) == ms;
    } else {
      AnswersStand(ms + [Tool(calls[0].id, calls[0].name, said)], a, asked, calls[1..], said);
      FirstAnswer(ms, calls, said);
    }
  }

  /** What one call leaves still tells what happened, unless it ends the run. */
  ghost predicate StepTold(env: Env, start: seq<Message>, t: Turn, flow: Flow, a: int, calls: seq<Call>) {
    && Recalls(env, t.book) && ToldAll(env, start, t.book.log)
    && (!flow.End? ==> Tells(env, start, t.book.log, t.messages) && Answering(t.messages, a, calls))
  }

  lemma FinishTells(env: Env, start: seq<Message>, t: Turn, call: Call, rest: seq<Call>, a: int, calls: seq<Call>)
    requires Telling(env, start, t.book, t.messages) && Answering(t.messages, a, calls) && call in calls
    requires call.name == FINISH
    ensures var (t', flow) := FinishCall(env, t, call, rest); StepTold(env, start, t', flow, a, calls)
  {
    TellsMore(env, start, t.book.log, t.messages, Tool(call.id, call.name, FinishRefused));
    AnswersThat(t.messages, a, calls, call, FinishRefused);
    TellsAnswers(env, start, t.book.log, t.messages + [Tool(call.id, call.name, FinishRefused)], rest, NotRun);
    AnswersStand(t.messages + [Tool(call.id, call.name, FinishRefused)], a, calls, rest, NotRun);
  }

  lemma RunCallSays(env: Env, t: Turn, call: Call, action: Action, rest: seq<Call>)
    ensures var r := env.run(|t.book.log|, call);
            var (t', flow) := RunCall(env, t, call, action, rest);
            && t'.book == Note(env, t.book, call, action, r) && t'.book.log == t.book.log + [Ran(call, r)]
            && (!flow.End? ==> t'.messages == t.messages + [Tool(call.id, call.name, ReturnedBy(env, r))])
  {
  }

  lemma RunTells(env: Env, start: seq<Message>, t: Turn, call: Call, action: Action, rest: seq<Call>, a: int,
                 calls: seq<Call>)
    requires Telling(env, start, t.book, t.messages) && Answering(t.messages, a, calls) && call in calls
    requires Find(env.actions, call.name) == Some(action)
    ensures var (t', flow) := RunCall(env, t, call, action, rest); StepTold(env, start, t', flow, a, calls)
  {
    var r := env.run(|t.book.log|, call);
    RunCallSays(env, t, call, action, rest);
    NoteRecalls(env, t.book, call, action, r);
    ToldAllGrows(env, start, t.book.log, Ran(call, r));
    TellsWhatHappened(env, start, t.book.log, t.messages, Ran(call, r), Tool(call.id, call.name, ReturnedBy(env, r)));
    AnswersThat(t.messages, a, calls, call, ReturnedBy(env, r));
  }

  lemma PlainRefusalTells(env: Env, start: seq<Message>, b: Book, ms: seq<Message>, call: Call, said: Said, a: int,
                          calls: seq<Call>)
    requires Telling(env, start, b, ms) && Answering(ms, a, calls) && call in calls
    requires IsPlain(said) || (said.UnknownAction? && Find(env.actions, call.name).None?)
    ensures var ms' := ms + [Tool(call.id, call.name, said)]; Tells(env, start, b.log, ms') && Answering(ms', a, calls)
  {
    TellsMore(env, start, b.log, ms, Tool(call.id, call.name, said));
    AnswersThat(ms, a, calls, call, said);
  }

  lemma OverUsedTells(env: Env, start: seq<Message>, b: Book, ms: seq<Message>, call: Call, rest: seq<Call>, a: int,
                      calls: seq<Call>)
    requires Telling(env, start, b, ms) && Answering(ms, a, calls) && call in calls
    ensures var ms' := ms + [Tool(call.id, call.name, OverItsUses)] + Answers(rest, OthersOverUses);
            Tells(env, start, b.log, ms') && Answering(ms', a, calls)
  {
    PlainRefusalTells(env, start, b, ms, call, OverItsUses, a, calls);
    TellsAnswers(env, start, b.log, ms + [Tool(call.id, call.name, OverItsUses)], rest, OthersOverUses);
    AnswersStand(ms + [Tool(call.id, call.name, OverItsUses)], a, calls, rest, OthersOverUses);
  }

  lemma RefusalTells(env: Env, start: seq<Message>, t: Turn, call: Call, rest: seq<Call>, a: int, calls: seq<Call>)
    requires Telling(env, start, t.book, t.messages) && Answering(t.messages, a, calls) && call in calls
    requires !Judge(env, t.book, call).Finishing? && !Judge(env, t.book, call).Admit?
    ensures var (t', flow) := StepCall(env, t, call, rest); StepTold(env, start, t', flow, a, calls)
  {
    match Judge(env, t.book, call)
    case Unknown => PlainRefusalTells(env, start, t.book, t.messages, call, UnknownAction, a, calls);
    case Repeated(before) =>
      TellsTheEarlier(env, start, t.book, t.messages, a, calls, call, before, false);
      AnswersThat(t.messages, a, calls, call, LookedUpBefore(before));
    case OverUsed => OverUsedTells(env, start, t.book, t.messages, call, rest, a, calls);
    case AtLimit => PlainRefusalTells(env, start, t.book, t.messages, call, AtItsLimit, a, calls);
    case AlreadyDone(before) =>
      TellsTheEarlier(env, start, t.book, t.messages, a, calls, call, before, true);
      AnswersThat(t.messages, a, calls, call, DoneBefore(before));
  }

  lemma StepTells(env: Env, start: seq<Message>, t: Turn, call: Call, rest: seq<Call>, a: int, calls: seq<Call>)
    requires Telling(env, start, t.book, t.messages) && Answering(t.messages, a, calls) && call in calls
    ensures var (t', flow) := StepCall(env, t, call, rest); StepTold(env, start, t', flow, a, calls)
  {
    var v := Judge(env, t.book, call);
    if v.Finishing? {
      FinishTells(env, start, t, call, rest, a, calls);
    } else if v.Admit? {
      var t1 := t.(book := Counting(t.book, call.name));
      RunTells(env, start, t1, call, v.action, rest, a, calls);
      assert StepCall(env, t, call, rest) == RunCall(env, t1, call, v.action, rest);
    } else {
      RefusalTells(env, start, t, call, rest, a, calls);
    }
  }

  lemma {:induction false} SaidOnce(env: Env, log: seq<Event>, i: nat)
    requires i < |log|
    ensures forall m :: m in SaidAt(env, i, log[i]) ==> m in SaidIn(env, log)
  {
    if i < |log| - 1 { SaidOnce(env, log[..|log| - 1], i); }
  }

  lemma {:induction false} SaidSomewhere(ms: seq<Message>, from: nat, m: Message) returns (k: int)
    requires m in SaidFrom(ms, from)
    ensures from <= k < |ms| && ms[k] == m
  {
    k := |ms| - 1;
    if m in SaidFrom(ms[..k], from) { k := SaidSomewhere(ms[..k], from, m); }
  }

  /** Whatever an invocation returned is in every transcript the model is given after it, as the answer to that call. */
  lemma ResultIsTold(env: Env, start: seq<Message>, log: seq<Event>, i: nat, j: nat) returns (k: int)
    requires ToldAll(env, start, log) && i < j < |log| && log[i].Ran? && log[j].Asked?
    ensures |start| <= k < |log[j].transcript|
    ensures log[j].transcript[k] == Tool(log[i].call.id, log[i].call.name,
                                         if log[i].result.fault.NoFault? then Words(env.show(log[i].result.output))
                                         else ErrorText(log[i].result.fault))
  {
    assert Tells(env, start, log[..j], log[j].transcript);
    SaidOnce(env, log[..j], i);
    var m := Tool(log[i].call.id, log[i].call.name, ReturnedBy(env, log[i].result));
    assert m in SaidAt(env, i, log[i]);
    k := SaidSomewhere(log[j].transcript, |start|, m);
  }

  lemma WrapUpTells(env: Env, start: seq<Message>, t: Turn, msgs: seq<Message>)
    requires Telling(env, start, t.book, t.messages) && msgs == WithOpenAnswered(t.messages) + [User(WrapUpNow)]
    ensures ToldAll(env, start, t.book.log + [Asked(msgs)])
  {
    var i, closed := LastAsking(t.messages), WithOpenAnswered(t.messages);
    if i >= 0 {
      TellsClosing(env, start, t.book.log, t.messages, t.messages[i].calls, AnsweredIn(t.messages[i + 1..]));
    } else {
      assert closed == t.messages;
    }
    TellsMore(env, start, t.book.log, closed, User(WrapUpNow));
    ToldAllGrows(env, start, t.book.log, Asked(msgs));
  }

  /** The model's answer is put back to it, without its calls when they are too many. */
  lemma HearingTells(env: Env, start: seq<Message>, b: Book, ms: seq<Message>, reply: Reply)
    requires Telling(env, start, b, ms) && env.model(|b.log|, ms) == Some(reply)
    ensures Telling(env, start, b.(log := b.log + [Asked(ms)]),
                    ms + [Assistant(reply.text, if |reply.calls| > 10 then [] else reply.calls)])
  {
    AskingTells(env, start, b, ms);
    TellsWhatHappened(env, start, b.log, ms, Asked(ms),
                      Assistant(reply.text, if |reply.calls| > 10 then [] else reply.calls));
  }

  lemma AskingTells(env: Env, start: seq<Message>, b: Book, ms: seq<Message>)
    requires Telling(env, start, b, ms)
    ensures Recalls(env, b.(log := b.log + [Asked(ms)])) && ToldAll(env, start, b.log + [Asked(ms)])
  {
    RecallsGrows(env, b, Asked(ms));
    ToldAllGrows(env, start, b.log, Asked(ms));
  }

  lemma NudgeTells(env: Env, start: seq<Message>, b: Book, ms: seq<Message>, said: Said)
    requires Telling(env, start, b, ms)
    ensures Telling(env, start, b, ms + [User(said)])
  {
    TellsMore(env, start, b.log, ms, User(said));
  }
}
