/** What the agent loop (domain/loop.go) is given, what it keeps from call to call, and what it makes of one call of a
    response. The model, the actions and the encoding of arguments are arbitrary functions of the moment they are used
    at, so what is proved holds of every model and of everything an action may return. */
module AgentSteps {
  import opened Values
  import opened Outcome
  import opened Transcripts

  const FINISH := "finish"
  const MAX_CONSECUTIVE_FAILURES := 3
  const MAX_SAME_ACTION_CALLS := 15
  const MAX_TOOL_CALLS_PER_ITER := 10
  const MAX_STALE_STEPS := 2
  const MAX_FINISH_BOUNCES := 2

  // ── What the loop is given, and what it keeps ───────────────────────────────

  datatype Action = Action(name: string, readOnly: bool, changes: bool, maxCalls: nat, asksOutcome: bool)

  datatype Reply = Reply(text: string, calls: seq<Call>)

  /** model is asked at a moment, with a transcript; None is every provider failing. run is what an action returns.
      encodes says whether json.Marshal takes the arguments; the text it gives is taken to tell arguments apart. */
  datatype Env = Env(
    actions: seq<Action>,
    maxIterations: nat,
    required: Option<Requirements>,
    model: (nat, seq<Message>) -> Option<Reply>,
    run: (nat, Call) -> Result,
    encodes: Args -> bool,
    show: Value -> string)

  /** actionsByName: a later action of the same name replaces an earlier one. */
  function Find(actions: seq<Action>, name: string): (a: Option<Action>)
    ensures a.Some? ==> a.value in actions && a.value.name == name
    ensures a.None? <==> forall x :: x in actions ==> x.name != name
  {
    if actions == [] then None
    else if actions[|actions| - 1].name == name then Some(actions[|actions| - 1])
    else Find(actions[..|actions| - 1], name)
  }

  /** Only a loop whose finish asks for an outcome is held to the requirements. */
  function Held(env: Env): Option<Requirements> {
    var fin := Find(env.actions, FINISH);
    if env.required.Some? && env.required.value.Active() && fin.Some? && fin.value.asksOutcome then env.required
    else None
  }

  /** Of several actions of a name the last is meant. */
  lemma {:induction false} FindIsLast(actions: seq<Action>, name: string) returns (i: int)
    requires Find(actions, name).Some?
    ensures 0 <= i < |actions| && actions[i] == Find(actions, name).value && actions[i].name == name
    ensures forall j :: i < j < |actions| ==> actions[j].name != name
  {
    i := |actions| - 1;
    if actions[i].name != name { i := FindIsLast(actions[..i], name); }
  }

  /** A run is held to what it was asked for exactly when something was, and its finish asks for an outcome. */
  lemma HeldExactly(env: Env, req: Requirements)
    ensures Held(env) == Some(req) <==>
              && env.required == Some(req) && (req.tools != [] || req.anyChange)
              && Find(env.actions, "finish").Some? && Find(env.actions, "finish").value.asksOutcome
  {
  }

  type Key = (string, Args)

  /** What leaves the loop, in order. */
  datatype Event = Asked(transcript: seq<Message>) | Ran(call: Call, result: Result)

  /** What the loop keeps about the calls it has handled. */
  datatype Book = Book(
    counts: map<string, nat>,
    records: seq<ActionRecord>,
    doneChanges: map<Key, string>,
    lookedUp: map<Key, string>,
    log: seq<Event>)

  datatype Turn = Turn(
    messages: seq<Message>,
    book: Book,
    failures: nat,
    stale: nat,
    bounces: nat,
    progressed: bool)

  datatype Status = Complete | MaxIteration | Error | ModelFailed

  /** What a reply says: the agent's own words with the receipts added to them, or the platform's facts. */
  datatype Content = Own(text: string, receipts: seq<string>) | Facts(req: Requirements, records: seq<ActionRecord>)

  function Render(c: Content): string {
    match c
    case Own(text, receipts) => text + Appended(receipts)
    case Facts(req, records) => NothingChangedMessage(req, records)
  }

  function Appended(lines: seq<string>): string {
    if lines == [] then "" else "\n\n" + lines[0] + Appended(lines[1..])
  }

  datatype LoopResult = LoopResult(status: Status, content: Content, output: Option<Args>, actions: seq<ActionRecord>)

  /** What happens after a call: the next call of the response, back to the model, wrapping up, or the end. */
  datatype Flow = Next | Back | Wrap | End(result: LoopResult)

  function Begin(start: seq<Message>): Turn {
    Turn(start, Book(map[], [], map[], map[], []), 0, 0, 0, false)
  }

  function CountOf(counts: map<string, nat>, name: string): nat {
    if name in counts then counts[name] else 0
  }

  // ── One call of a response (domain/loop.go:226-357) ─────────────────────────

  function Answer(t: Turn, call: Call, said: Said): Turn {
    t.(messages := t.messages + [Tool(call.id, call.name, said)])
  }

  function AnswerAll(t: Turn, calls: seq<Call>, said: Said): Turn {
    t.(messages := t.messages + Answers(calls, said))
  }

  function OneMoreFailure(t: Turn, otherwise: Flow): (Turn, Flow) {
    (t.(failures := t.failures + 1), if t.failures + 1 >= MAX_CONSECUTIVE_FAILURES then Wrap else otherwise)
  }

  function OwnWords(held: Option<Requirements>, args: Args, records: seq<ActionRecord>): Content {
    Own(StringField(args, "content"),
        if held.Some? && StringField(args, "outcome") == OUTCOME_DONE then Receipts(records) else [])
  }

  function FinishCall(env: Env, t: Turn, call: Call, rest: seq<Call>): (Turn, Flow) {
    var held := Held(env);
    if held.None? || FinishAccepted(call.args, held.value, t.book.records) then
      (Answer(t, call, Done),
       End(LoopResult(Complete, OwnWords(held, call.args, t.book.records), Some(call.args), t.book.records)))
    else
      var t := t.(bounces := t.bounces + 1);
      if t.bounces > MAX_FINISH_BOUNCES then
        (Answer(t, call, Done),
         End(LoopResult(Complete, Facts(held.value, t.book.records), Some(call.args), t.book.records)))
      else
        (AnswerAll(Answer(t, call, FinishRefused), rest, NotRun), Back)
  }

  /** truncateRunes, to 300. */
  function Shortened(s: string): (r: string)
    ensures |s| <= 300 ==> r == s
    ensures |s| > 300 ==> |r| == 301 && r[..300] == s[..300] && r[300] == '…'
  {
    if |s| > 300 then s[..300] + "…" else s
  }

  /** What is written down when an action has run. */
  function Note(env: Env, b: Book, call: Call, a: Action, r: Result): Book {
    var j, key := OutcomeOf(r), (call.name, call.args);
    b.(log := b.log + [Ran(call, r)],
       records := b.records + [ActionRecord(call.name, a.changes, j.done, j.message, j.why)],
       doneChanges := if a.changes && env.encodes(call.args) && j.done
                      then b.doneChanges[key := Shortened(env.show(r.output))] else b.doneChanges,
       lookedUp := if a.readOnly && env.encodes(call.args) && j.done
                   then b.lookedUp[key := env.show(r.output)] else b.lookedUp)
  }

  /** Invoking the action, and what its result does to the turn. An action that returned an error was not done
      (OutcomeOf), so it is in neither memory. */
  function RunCall(env: Env, t: Turn, call: Call, a: Action, rest: seq<Call>): (Turn, Flow) {
    var r := env.run(|t.book.log|, call);
    var t := t.(book := Note(env, t.book, call, a, r), progressed := true);
    if r.fault.Superseded? && !ChangedAnything(t.book.records) then
      (AnswerAll(Answer(t, call, NotAnswered), rest, NotRun),
       End(LoopResult(Complete, Own("", []), None, t.book.records)))
    else if !r.fault.NoFault? then
      OneMoreFailure(Answer(t, call, ErrorText(r.fault)), Next)
    else
      (Answer(t.(failures := 0), call, Words(env.show(r.output))), Next)
  }

  /** A use of an action counts even when the call is then refused. */
  function Counting(b: Book, name: string): Book {
    b.(counts := b.counts[name := CountOf(b.counts, name) + 1])
  }

  /** What the guards make of a call, in the order they are asked. */
  datatype Verdict =
    | Finishing | Unknown | Repeated(before: string)
    | OverUsed | AtLimit | AlreadyDone(before: string) | Admit(action: Action)

  function Judge(env: Env, b: Book, call: Call): Verdict {
    if call.name == FINISH then Finishing
    else
      var found, key := Find(env.actions, call.name), (call.name, call.args);
      if found.None? then Unknown
      else if found.value.readOnly && env.encodes(call.args) && key in b.lookedUp then Repeated(b.lookedUp[key])
      else
        var a, uses := found.value, CountOf(b.counts, call.name) + 1;
        if uses > MAX_SAME_ACTION_CALLS then OverUsed
        else if !a.readOnly && a.maxCalls > 0 && uses > a.maxCalls then AtLimit
        else if a.changes && env.encodes(call.args) && key in b.doneChanges then AlreadyDone(b.doneChanges[key])
        else Admit(a)
  }

  function StepCall(env: Env, t: Turn, call: Call, rest: seq<Call>): (Turn, Flow) {
    match Judge(env, t.book, call)
    case Finishing => FinishCall(env, t, call, rest)
    case Unknown => OneMoreFailure(Answer(t, call, UnknownAction), Next)
    case Repeated(before) => (Answer(t, call, LookedUpBefore(before)), Next)
    case OverUsed =>
      var t := t.(book := Counting(t.book, call.name));
      OneMoreFailure(AnswerAll(Answer(t, call, OverItsUses), rest, OthersOverUses), Back)
    case AtLimit =>
      var t := t.(book := Counting(t.book, call.name));
      OneMoreFailure(Answer(t, call, AtItsLimit), Next)
    case AlreadyDone(before) =>
      (Answer(t.(book := Counting(t.book, call.name)), call, DoneBefore(before)), Next)
    case Admit(a) => RunCall(env, t.(book := Counting(t.book, call.name)), call, a, rest)
  }

  /** The calls of one response, in order, until one sends the loop back to the model or ends it. */
  function StepAll(env: Env, t: Turn, calls: seq<Call>): (Turn, Flow)
    decreases |calls|
  {
    if calls == [] then (t, Next)
    else
      var (t', flow) := StepCall(env, t, calls[0], calls[1..]);
      if flow != Next then (t', flow) else StepAll(env, t', calls[1..])
  }

  lemma StepOn(env: Env, t: Turn, calls: seq<Call>, idx: nat)
    requires idx < |calls|
    ensures var (t', flow) := StepCall(env, t, calls[idx], calls[idx + 1..]);
            StepAll(env, t, calls[idx..]) == if flow != Next then (t', flow) else StepAll(env, t', calls[idx + 1..])
  {
    assert calls[idx..][1..] == calls[idx + 1..];
  }
}
