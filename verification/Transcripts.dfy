/** The transcript of an agent's run (domain/loop.go): what is said to the model, when a transcript is well formed, and
    how the calls a turn left open are answered before wrapping up. */
module Transcripts {
  import opened Values
  import opened Outcome

  // ── What is said ────────────────────────────────────────────────────────────

  datatype Call = Call(id: string, name: string, args: Args)

  /** What a tool message or a note of the loop says; the wording itself is left out. */
  datatype Said =
    | Words(text: string)
    | ErrorText(fault: Fault)
    | Done | FinishRefused | UnknownAction | OverItsUses | OthersOverUses | AtItsLimit | NotAnswered
    | NotRun | CallAnAction | FewerCalls | WrapUpNow
    | LookedUpBefore(text: string) | DoneBefore(text: string)

  datatype Message =
    | System(said: Said)
    | User(said: Said)
    | Assistant(text: string, calls: seq<Call>)
    | Tool(callId: string, name: string, said: Said)

  function Ids(calls: seq<Call>): set<string> {
    set c | c in calls :: c.id
  }

  /** Where a conversation stands: the calls of the assistant message being answered, and those still open. */
  datatype Talk = Broken | Talking(asked: set<string>, open: set<string>)

  function Hear(t: Talk, m: Message): Talk {
    if t.Broken? then Broken
    else match m
      case Tool(id, _, _) => if id in t.asked then Talking(t.asked, t.open - {id}) else Broken
      case Assistant(_, calls) => if t.open == {} then Talking(Ids(calls), Ids(calls)) else Broken
      case _ => if t.open == {} then Talking({}, {}) else Broken
  }

  function TalkOf(ms: seq<Message>): Talk {
    if ms == [] then Talking({}, {}) else Hear(TalkOf(ms[..|ms| - 1]), ms[|ms| - 1])
  }

  /** Where a conversation stands after more of it. */
  function Listen(t: Talk, more: seq<Message>): Talk {
    if more == [] then t else Hear(Listen(t, more[..|more| - 1]), more[|more| - 1])
  }

  lemma {:induction false} TalkOfParts(ms: seq<Message>, more: seq<Message>)
    ensures TalkOf(ms + more) == Listen(TalkOf(ms), more)
    decreases |more|
  {
    if more == [] {
      assert ms + more == ms;
    } else {
      var n := |more| - 1;
      assert (ms + more)[..|ms| + n] == ms + more[..n];
      TalkOfParts(ms, more[..n]);
    }
  }

  predicate WellFormed(ms: seq<Message>) {
    TalkOf(ms).Talking? && TalkOf(ms).open == {}
  }

  lemma {:induction false} TalkOfMore(ms: seq<Message>, m: Message)
    ensures TalkOf(ms + [m]) == Hear(TalkOf(ms), m)
  {
    assert (ms + [m])[..|ms|] == ms;
  }

  /** The calls of the assistant message at i that nothing in the tool messages right after it, up to n, answers. */
  ghost predicate AnsweredBy(ms: seq<Message>, i: int, id: string, n: int)
    requires 0 <= i < n <= |ms|
  {
    exists k :: i < k < n && ms[k].Tool? && ms[k].callId == id && forall j :: i < j <= k ==> ms[j].Tool?
  }

  lemma {:induction false} OpenIsUnanswered(ms: seq<Message>, i: int, id: string)
    requires TalkOf(ms).Talking? && 0 <= i < |ms| && ms[i].Assistant? && id in Ids(ms[i].calls)
    ensures AnsweredBy(ms, i, id, |ms|) || (id in TalkOf(ms).open && forall j :: i < j < |ms| ==> ms[j].Tool?)
  {
    var front, last := ms[..|ms| - 1], ms[|ms| - 1];
    if i < |front| {
      OpenIsUnanswered(front, i, id);
      if AnsweredBy(front, i, id, |front|) {
        var k :| i < k < |front| && front[k].Tool? && front[k].callId == id && forall j :: i < j <= k ==>
                   front[j].Tool?;
        assert ms[k] == front[k] && forall j :: i < j <= k ==> ms[j] == front[j];
      } else {
        assert forall j :: i < j < |front| ==> ms[j] == front[j];
        assert last.Tool?;
      }
    }
  }

  /** What well-formed means: every call of every assistant message is answered in the block of tool messages that
      directly follows it, so before the next assistant message. */
  lemma WellFormedAnswersEveryCall(ms: seq<Message>, i: int, c: Call)
    requires WellFormed(ms) && 0 <= i < |ms| && ms[i].Assistant? && c in ms[i].calls
    ensures exists k :: i < k < |ms| && ms[k].Tool? && ms[k].callId == c.id && forall j :: i < j <= k ==> ms[j].Tool?
  {
    OpenIsUnanswered(ms, i, c.id);
  }

  function Answers(calls: seq<Call>, said: Said): seq<Message> {
    if calls == [] then [] else [Tool(calls[0].id, calls[0].name, said)] + Answers(calls[1..], said)
  }

  // ── Answering one call after another ────────────────────────────────────────

  /** The calls still to be gone through include every open one. */
  ghost predicate Awaiting(ms: seq<Message>, todo: seq<Call>) {
    TalkOf(ms).Talking? && TalkOf(ms).open <= Ids(todo) <= TalkOf(ms).asked
  }

  /** Answering the next call leaves the rest to be answered; answering the rest too leaves nothing open. */
  lemma {:induction false} AnswersFit(ms: seq<Message>, call: Call, rest: seq<Call>, said: Said, restSaid: Said)
    requires Awaiting(ms, [call] + rest)
    ensures var ms' := ms + [Tool(call.id, call.name, said)];
            Awaiting(ms', rest) && WellFormed(ms' + Answers(rest, restSaid))
    decreases |rest|
  {
    var ms' := ms + [Tool(call.id, call.name, said)];
    TalkOfMore(ms, Tool(call.id, call.name, said));
    assert Ids([call] + rest) == {call.id} + Ids(rest);
    if rest == [] {
      assert ms' + Answers(rest, restSaid) == ms';
    } else {
      assert [rest[0]] + rest[1..] == rest;
      AnswersFit(ms', rest[0], rest[1..], restSaid, restSaid);
      assert ms' + Answers(rest, restSaid) == ms' + [Tool(rest[0].id, rest[0].name, restSaid)] +
               Answers(rest[1..], restSaid);
    }
  }

  lemma FirstAnswer(ms: seq<Message>, calls: seq<Call>, said: Said)
    requires calls != []
    ensures ms + Answers(calls, said) == ms + [Tool(calls[0].id, calls[0].name, said)] + Answers(calls[1..], said)
  {
  }

  predicate IsPlain(said: Said) {
    said.Done? || said.OverItsUses? || said.OthersOverUses? || said.AtItsLimit? || said.NotAnswered? || said.NotRun?
  }

  lemma LastClosing(ms: seq<Message>, calls: seq<Call>, answered: set<string>)
    requires calls != [] && calls[|calls| - 1].id !in answered
    ensures var c := calls[|calls| - 1];
            ms + Closing(calls, answered) == ms + Closing(calls[..|calls| - 1], answered) + [Tool(c.id, c.name, NotRun)]
  {
  }

  // ── Wrapping up (domain/loop.go:375-401) ────────────────────────────────────

  predicate Asks(m: Message) {
    m.Assistant? && m.calls != []
  }

  /** The last assistant message with calls, -1 when there is none. */
  function LastAsking(ms: seq<Message>): (i: int)
    ensures -1 <= i < |ms| && (i >= 0 ==> Asks(ms[i]))
  {
    if ms == [] then -1 else if Asks(ms[|ms| - 1]) then |ms| - 1 else LastAsking(ms[..|ms| - 1])
  }

  function AnsweredIn(ms: seq<Message>): set<string> {
    if ms == [] then {}
    else AnsweredIn(ms[..|ms| - 1]) + if ms[|ms| - 1].Tool? then {ms[|ms| - 1].callId} else {}
  }

  /** An answer for each of the calls that has none. */
  function Closing(calls: seq<Call>, answered: set<string>): seq<Message> {
    if calls == [] then []
    else
      var c := calls[|calls| - 1];
      Closing(calls[..|calls| - 1], answered) + if c.id in answered then [] else [Tool(c.id, c.name, NotRun)]
  }

  function WithOpenAnswered(ms: seq<Message>): seq<Message> {
    ms + AnswersMissing(ms, LastAsking(ms))
  }

  function AnswersMissing(ms: seq<Message>, i: int): seq<Message>
    requires -1 <= i < |ms| && (i >= 0 ==> Asks(ms[i]))
  {
    if i < 0 then [] else Closing(ms[i].calls, AnsweredIn(ms[i + 1..]))
  }

  method AnswerOpenCalls(ms: seq<Message>) returns (out: seq<Message>)
    ensures out == WithOpenAnswered(ms)
  {
    var last := FindLastAsking(ms);
    if last < 0 {
      assert ms + [] == ms;
      return ms;
    }
    var answered := FindAnswered(ms[last + 1..]);
    var calls := ms[last].calls;
    out := ms;
    for k := 0 to |calls|
      invariant out == ms + Closing(calls[..k], answered)
    {
      assert calls[..k + 1][..k] == calls[..k];
      if calls[k].id !in answered { out := out + [Tool(calls[k].id, calls[k].name, NotRun)]; }
    }
    assert calls[..|calls|] == calls;
  }

  method FindLastAsking(ms: seq<Message>) returns (last: int)
    ensures last == LastAsking(ms)
  {
    last := |ms| - 1;
    assert ms[..last + 1] == ms;
    while last >= 0 && !Asks(ms[last])
      invariant -1 <= last < |ms|
      invariant LastAsking(ms) == LastAsking(ms[..last + 1])
    {
      assert ms[..last + 1][..last] == ms[..last];
      last := last - 1;
    }
  }

  method FindAnswered(ms: seq<Message>) returns (answered: set<string>)
    ensures answered == AnsweredIn(ms)
  {
    answered := {};
    for k := 0 to |ms|
      invariant answered == AnsweredIn(ms[..k])
    {
      assert ms[..k + 1][..k] == ms[..k];
      if ms[k].Tool? { answered := answered + {ms[k].callId}; }
    }
    assert ms[..|ms|] == ms;
  }

  /** The open calls of a transcript are the calls of its last asking message that no later tool message answers. */
  lemma {:induction false} OpenAreUnanswered(ms: seq<Message>)
    requires TalkOf(ms).Talking?
    ensures LastAsking(ms) < 0 ==> TalkOf(ms).open == {}
    ensures LastAsking(ms) >= 0 ==>
              TalkOf(ms).open == Ids(ms[LastAsking(ms)].calls) - AnsweredIn(ms[LastAsking(ms) + 1..])
    ensures TalkOf(ms).open <= TalkOf(ms).asked
  {
    if ms != [] {
      var front, m, i := ms[..|ms| - 1], ms[|ms| - 1], LastAsking(ms);
      OpenAreUnanswered(front);
      if 0 <= i < |front| {
        assert ms[i + 1..][..|ms| - i - 2] == front[i + 1..];
      }
    }
  }

  lemma {:induction false} ClosingCloses(t: Talk, calls: seq<Call>, answered: set<string>)
    requires t.Talking? && forall c :: c in calls ==> c.id in t.asked || c.id in answered
    ensures var u := Listen(t, Closing(calls, answered));
            && u.Talking? && u.asked == t.asked && u.open <= t.open
            && forall c :: c in calls && c.id in u.open ==> c.id in answered
    decreases |calls|
  {
    if calls != [] {
      var front, c := calls[..|calls| - 1], calls[|calls| - 1];
      assert calls == front + [c];
      ClosingCloses(t, front, answered);
      var so, m := Closing(front, answered), Tool(c.id, c.name, NotRun);
      if c.id in answered {
        assert Closing(calls, answered) == so;
      } else {
        assert Closing(calls, answered) == so + [m] && (so + [m])[..|so|] == so;
      }
    }
  }

  /** Open calls are among those asked last that have no answer: once each of these has one, none is open. */
  lemma NoneLeftOpen(calls: seq<Call>, answered: set<string>, after: set<string>)
    requires after <= Ids(calls) - answered
    requires forall c :: c in calls && c.id in after ==> c.id in answered
    ensures after == {}
  {
    forall id | id in Ids(calls) - answered ensures id !in after {
      var c :| c in calls && c.id == id;
    }
  }

  lemma EveryCallClosed(t: Talk, calls: seq<Call>, answered: set<string>)
    requires t.Talking? && t.open == Ids(calls) - answered <= t.asked
    ensures Listen(t, Closing(calls, answered)).Talking? && Listen(t, Closing(calls, answered)).open == {}
  {
    forall c | c in calls ensures c.id in t.asked || c.id in answered { assert c.id in Ids(calls); }
    ClosingCloses(t, calls, answered);
    NoneLeftOpen(calls, answered, Listen(t, Closing(calls, answered)).open);
  }

  lemma ListensOn(t: Talk, more: seq<Message>, calls: seq<Call>, answered: set<string>)
    requires t.Talking? && t.open == Ids(calls) - answered <= t.asked && more == Closing(calls, answered)
    ensures Listen(t, more).Talking? && Listen(t, more).open == {}
  {
    EveryCallClosed(t, calls, answered);
  }

  lemma MissingAnswersClose(ms: seq<Message>, i: int)
    requires TalkOf(ms).Talking? && i == LastAsking(ms)
    ensures Listen(TalkOf(ms), AnswersMissing(ms, i)).Talking? && Listen(TalkOf(ms), AnswersMissing(ms, i)).open == {}
  {
    var t := TalkOf(ms);
    OpenAreUnanswered(ms);
    if i >= 0 { ListensOn(t, AnswersMissing(ms, i), ms[i].calls, AnsweredIn(ms[i + 1..])); }
  }

  /** However a reply was cut short, answering its open calls leaves a transcript that can be given to the model. */
  lemma AnswerOpenCallsWellFormed(ms: seq<Message>)
    requires TalkOf(ms).Talking?
    ensures WellFormed(WithOpenAnswered(ms))
  {
    MissingAnswersClose(ms, LastAsking(ms));
    TalkOfParts(ms, AnswersMissing(ms, LastAsking(ms)));
  }
}
