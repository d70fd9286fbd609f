/** What every call of a run keeps, whatever becomes of it: the log stays safe, the book remembers what ran, the endings
    are honest, and each call costs something. */
module AgentKeeping {
  import opened Values
  import opened Outcome
  import opened Transcripts
  import opened AgentSteps

  // ── What is kept after every call ───────────────────────────────────────────

  /** The call logged at i went through, and it is one that must not be made again. */
  ghost predicate WentThrough(env: Env, log: seq<Event>, i: int, key: Key, change: bool) {
    && 0 <= i < |log| && log[i].Ran? && (log[i].call.name, log[i].call.args) == key && env.encodes(key.1)
    && OutcomeOf(log[i].result).done
    && Find(env.actions, key.0).Some?
    && (if change then Find(env.actions, key.0).value.changes else Find(env.actions, key.0).value.readOnly)
  }

  /** The two memories hold exactly what went through. */
  ghost predicate Remembers(env: Env, b: Book) {
    && (forall key :: key in b.doneChanges <==> exists i :: WentThrough(env, b.log, i, key, true))
    && (forall key :: key in b.lookedUp <==> exists i :: WentThrough(env, b.log, i, key, false))
  }

  /** A change or a look-up that went through is never run again with the same name and arguments. */
  ghost predicate NoRepeats(env: Env, log: seq<Event>) {
    forall i, j, change, key :: i < j < |log| && WentThrough(env, log, i, key, change) && log[j].Ran? ==>
      (log[j].call.name, log[j].call.args) != key
  }

  function TimesRan(log: seq<Event>, name: string): nat {
    if log == [] then 0
    else TimesRan(log[..|log| - 1], name)
         + if log[|log| - 1].Ran? && log[|log| - 1].call.name == name then 1 else 0
  }

  function TimesAsked(log: seq<Event>): nat {
    if log == [] then 0 else TimesAsked(log[..|log| - 1]) + if log[|log| - 1].Asked? then 1 else 0
  }

  function Limit(env: Env, name: string): nat {
    var a := Find(env.actions, name);
    if a.Some? && !a.value.readOnly && 0 < a.value.maxCalls < MAX_SAME_ACTION_CALLS
    then a.value.maxCalls else MAX_SAME_ACTION_CALLS
  }

  ghost predicate WithinLimits(env: Env, log: seq<Event>) {
    forall name {:trigger TimesRan(log, name)} :: TimesRan(log, name) <= Limit(env, name)
  }

  ghost predicate Counted(b: Book) {
    forall name {:trigger TimesRan(b.log, name)} :: TimesRan(b.log, name) <= CountOf(b.counts, name)
  }

  function RecordOf(env: Env, e: Event): seq<ActionRecord> {
    match e
    case Asked(_) => []
    case Ran(call, result) =>
      var a, j := Find(env.actions, call.name), OutcomeOf(result);
      [ActionRecord(call.name, a.Some? && a.value.changes, j.done, j.message, j.why)]
  }

  /** What really happened, read off what left the loop. */
  function RecordsOf(env: Env, log: seq<Event>): seq<ActionRecord> {
    if log == [] then [] else RecordsOf(env, log[..|log| - 1]) + RecordOf(env, log[|log| - 1])
  }

  /** Every transcript the model was given answers every call of every assistant message in it. */
  ghost predicate AskedWellFormed(log: seq<Event>) {
    forall e :: e in log && e.Asked? ==> WellFormed(e.transcript)
  }

  /** The safety of what left the loop. */
  ghost predicate Safe(env: Env, log: seq<Event>) {
    AskedWellFormed(log) && NoRepeats(env, log) && WithinLimits(env, log)
  }

  ghost predicate Good(env: Env, b: Book) {
    && Safe(env, b.log) && Remembers(env, b) && Counted(b)
    && b.records == RecordsOf(env, b.log)
  }

  lemma {:induction false} LogGrows(env: Env, log: seq<Event>, e: Event)
    ensures RecordsOf(env, log + [e]) == RecordsOf(env, log) + RecordOf(env, e)
    ensures TimesAsked(log + [e]) == TimesAsked(log) + if e.Asked? then 1 else 0
    ensures forall name :: TimesRan(log + [e], name) == TimesRan(log, name) +
              if e.Ran? && e.call.name == name then 1 else 0
    ensures forall i, key, change :: i < |log| ==>
      (WentThrough(env, log + [e], i, key, change) <==> WentThrough(env, log, i, key, change))
  {
    assert (log + [e])[..|log|] == log;
  }

  // ── One call keeps everything ───────────────────────────────────────────────

  lemma NoRepeatsGrows(env: Env, log: seq<Event>, e: Event)
    requires NoRepeats(env, log)
    requires e.Ran? ==> forall i, change :: !WentThrough(env, log, i, (e.call.name, e.call.args), change)
    ensures NoRepeats(env, log + [e])
  {
    var more := log + [e];
    forall i, j, change, key | i < j < |more| && WentThrough(env, more, i, key, change) && more[j].Ran?
      ensures (more[j].call.name, more[j].call.args) != key
    {
      assert WentThrough(env, log, i, key, change);
      if j < |log| { assert more[j] == log[j]; }
    }
  }

  /** A memory that takes in a call's key exactly when the call went through still holds exactly what went through. */
  lemma MemoryGrows(env: Env, log: seq<Event>, e: Event, memory: set<Key>, memory': set<Key>, change: bool)
    requires e.Ran?
    requires forall key :: key in memory <==> exists i :: WentThrough(env, log, i, key, change)
    requires var k := (e.call.name, e.call.args);
             memory' == if WentThrough(env, log + [e], |log|, k, change) then memory + {k} else memory
    ensures forall key :: key in memory' <==> exists i :: WentThrough(env, log + [e], i, key, change)
  {
    forall key
      ensures key in memory' <==> exists i :: WentThrough(env, log + [e], i, key, change)
    {
      if key in memory {
        var i :| WentThrough(env, log, i, key, change);
        assert WentThrough(env, log + [e], i, key, change);
      }
      if i :| WentThrough(env, log + [e], i, key, change) && i < |log| {
        assert WentThrough(env, log, i, key, change);
      }
    }
  }

  /** What the memories let through has not gone through before. */
  lemma NotYetMade(env: Env, b: Book, call: Call, a: Action)
    requires Remembers(env, b) && Find(env.actions, call.name) == Some(a)
    requires a.changes && env.encodes(call.args) ==> (call.name, call.args) !in b.doneChanges
    requires a.readOnly && env.encodes(call.args) ==> (call.name, call.args) !in b.lookedUp
    ensures forall i, change :: !WentThrough(env, b.log, i, (call.name, call.args), change)
  {
    var key := (call.name, call.args);
    assert forall i :: WentThrough(env, b.log, i, key, true) ==> key in b.doneChanges;
    assert forall i :: WentThrough(env, b.log, i, key, false) ==> key in b.lookedUp;
  }

  lemma NoteKeepsSafe(env: Env, log: seq<Event>, call: Call, r: Result)
    requires Safe(env, log) && TimesRan(log, call.name) < Limit(env, call.name)
    requires forall i, change :: !WentThrough(env, log, i, (call.name, call.args), change)
    ensures Safe(env, log + [Ran(call, r)])
  {
    NoRepeatsGrows(env, log, Ran(call, r));
    LogGrows(env, log, Ran(call, r));
  }

  lemma NoteKeepsMemory(env: Env, b: Book, call: Call, a: Action, r: Result)
    requires Remembers(env, b) && Find(env.actions, call.name) == Some(a)
    ensures Remembers(env, Note(env, b, call, a, r))
  {
    var b' := Note(env, b, call, a, r);
    MemoryGrows(env, b.log, Ran(call, r), b.doneChanges.Keys, b'.doneChanges.Keys, true);
    MemoryGrows(env, b.log, Ran(call, r), b.lookedUp.Keys, b'.lookedUp.Keys, false);
  }

  /** Running an action that the guards let through keeps the book. */
  lemma NoteKeeps(env: Env, b: Book, call: Call, a: Action, r: Result)
    requires Good(env, b) && Find(env.actions, call.name) == Some(a)
    requires TimesRan(b.log, call.name) < CountOf(b.counts, call.name)
    requires TimesRan(b.log, call.name) < Limit(env, call.name)
    requires a.changes && env.encodes(call.args) ==> (call.name, call.args) !in b.doneChanges
    requires a.readOnly && env.encodes(call.args) ==> (call.name, call.args) !in b.lookedUp
    ensures Good(env, Note(env, b, call, a, r))
  {
    NotYetMade(env, b, call, a);
    NoteKeepsSafe(env, b.log, call, r);
    NoteKeepsMemory(env, b, call, a, r);
    LogGrows(env, b.log, Ran(call, r));
  }

  // ── Honest endings ──────────────────────────────────────────────────────────

  /** A completed run says what its ending gives it to say: nothing when the person wrote again and nothing was changed;
      under requirements the platform's facts, or the agent's own words with an outcome they bear (an honest "not done",
      or "done" when a required action really succeeded), with the receipts when the turn itself ended done and without
      them when it was wrapped up; otherwise just the agent's words. */
  ghost predicate Honest(env: Env, r: LoopResult, log: seq<Event>, wrapped: bool) {
    var records, held := RecordsOf(env, log), Held(env);
    && (r.status.Complete? || r.status.Error? ==> r.actions == records)
    && (r.status.Complete? && r.output.None? ==> r.content == Own("", []) && !ChangedAnything(records))
    && (r.status.Complete? && r.output.Some? ==>
          || (held.Some? && !FinishAccepted(r.output.value, held.value, records) &&
              r.content == Facts(held.value, records))
          || (&& (held.Some? ==> FinishAccepted(r.output.value, held.value, records))
              && r.content == EndingWords(held, r.output.value, records, wrapped)))
  }

  /** The agent's own words, with what an ending adds to them. */
  function EndingWords(held: Option<Requirements>, args: Args, records: seq<ActionRecord>, wrapped: bool): Content {
    if wrapped then Own(StringField(args, "content"), []) else OwnWords(held, args, records)
  }

  /** What one call leaves: a good book, and a transcript fit for what comes next. */
  ghost predicate Fit(env: Env, t: Turn, flow: Flow, rest: seq<Call>) {
    && Good(env, t.book)
    && (flow.Next? ==> Awaiting(t.messages, rest) && t.failures < MAX_CONSECUTIVE_FAILURES)
    && (flow.Back? ==> WellFormed(t.messages) && t.failures < MAX_CONSECUTIVE_FAILURES)
    && (flow.Wrap? ==> TalkOf(t.messages).Talking?)
    && (flow.End? ==> flow.result.status == Complete && Honest(env, flow.result, t.book.log, false))
  }

  lemma FinishCallFits(env: Env, t: Turn, call: Call, rest: seq<Call>)
    requires Good(env, t.book) && Awaiting(t.messages, [call] + rest) && t.failures < MAX_CONSECUTIVE_FAILURES
    ensures var (t', flow) := FinishCall(env, t, call, rest); Fit(env, t', flow, rest)
  {
    AnswersFit(t.messages, call, rest, FinishRefused, NotRun);
  }

  /** What is left when the action has run: its answer, and that of the rest when the person wrote again. */
  lemma RunCallFits(env: Env, t: Turn, call: Call, a: Action, rest: seq<Call>)
    requires Good(env, Note(env, t.book, call, a, env.run(|t.book.log|, call)))
    requires Awaiting(t.messages, [call] + rest) && t.failures < MAX_CONSECUTIVE_FAILURES
    ensures var (t', flow) := RunCall(env, t, call, a, rest); Fit(env, t', flow, rest)
  {
    var r := env.run(|t.book.log|, call);
    var b := Note(env, t.book, call, a, r);
    if r.fault.Superseded? && !ChangedAnything(b.records) {
      SupersededFits(env, t, call, rest, b);
    } else if !r.fault.NoFault? {
      AnswersFit(t.messages, call, rest, ErrorText(r.fault), NotRun);
    } else {
      AnswersFit(t.messages, call, rest, Words(env.show(r.output)), NotRun);
    }
  }

  lemma SupersededFits(env: Env, t: Turn, call: Call, rest: seq<Call>, b: Book)
    requires Good(env, b) && !ChangedAnything(b.records)
    ensures var u := AnswerAll(Answer(t.(book := b, progressed := true), call, NotAnswered), rest, NotRun);
            Fit(env, u, End(LoopResult(Complete, Own("", []), None, b.records)), rest)
  {
  }

  lemma CountingKeeps(env: Env, b: Book, name: string)
    requires Good(env, b)
    ensures Good(env, Counting(b, name)) && TimesRan(b.log, name) < CountOf(Counting(b, name).counts, name)
  {
    assert TimesRan(b.log, name) <= CountOf(b.counts, name);
  }

  lemma RefusalFits(env: Env, t: Turn, call: Call, rest: seq<Call>)
    requires Good(env, t.book) && Awaiting(t.messages, [call] + rest) && t.failures < MAX_CONSECUTIVE_FAILURES
    requires !Judge(env, t.book, call).Finishing? && !Judge(env, t.book, call).Admit?
    ensures var (t', flow) := StepCall(env, t, call, rest); Fit(env, t', flow, rest)
  {
    CountingKeeps(env, t.book, call.name);
    match Judge(env, t.book, call)
    case Unknown => AnswersFit(t.messages, call, rest, UnknownAction, NotRun);
    case Repeated(before) => AnswersFit(t.messages, call, rest, LookedUpBefore(before), NotRun);
    case OverUsed => AnswersFit(t.messages, call, rest, OverItsUses, OthersOverUses);
    case AtLimit => AnswersFit(t.messages, call, rest, AtItsLimit, NotRun);
    case AlreadyDone(before) => AnswersFit(t.messages, call, rest, DoneBefore(before), NotRun);
  }

  lemma AdmitFits(env: Env, t: Turn, call: Call, rest: seq<Call>)
    requires Good(env, t.book) && Awaiting(t.messages, [call] + rest) && t.failures < MAX_CONSECUTIVE_FAILURES
    requires Judge(env, t.book, call).Admit?
    ensures var (t', flow) := StepCall(env, t, call, rest); Fit(env, t', flow, rest)
  {
    var a, t1 := Judge(env, t.book, call).action, t.(book := Counting(t.book, call.name));
    CountingKeeps(env, t.book, call.name);
    NoteKeeps(env, t1.book, call, a, env.run(|t1.book.log|, call));
    RunCallFits(env, t1, call, a, rest);
    assert StepCall(env, t, call, rest) == RunCall(env, t1, call, a, rest);
  }

  lemma StepCallFits(env: Env, t: Turn, call: Call, rest: seq<Call>)
    requires Good(env, t.book) && Awaiting(t.messages, [call] + rest) && t.failures < MAX_CONSECUTIVE_FAILURES
    ensures var (t', flow) := StepCall(env, t, call, rest); Fit(env, t', flow, rest)
  {
    var v := Judge(env, t.book, call);
    if v.Finishing? {
      FinishCallFits(env, t, call, rest);
    } else if v.Admit? {
      AdmitFits(env, t, call, rest);
    } else {
      RefusalFits(env, t, call, rest);
    }
  }

  // ── The guards, said of what happened ───────────────────────────────────────

  /** The calls that are run: of a known action, with a use left, that have not already gone through. */
  ghost predicate Admitted(env: Env, b: Book, call: Call) {
    var found, key := Find(env.actions, call.name), (call.name, call.args);
    && call.name != FINISH && found.Some?
    && CountOf(b.counts, call.name) < Limit(env, call.name)
    && !(found.value.readOnly && exists i :: WentThrough(env, b.log, i, key, false))
    && !(found.value.changes && exists i :: WentThrough(env, b.log, i, key, true))
  }

  lemma {:induction false} AdmitsExactly(env: Env, b: Book, call: Call)
    requires Remembers(env, b)
    ensures Judge(env, b, call).Admit? <==> Admitted(env, b, call)
  {
    var found, key := Find(env.actions, call.name), (call.name, call.args);
    if found.Some? && found.value.readOnly && env.encodes(call.args) {
      assert key in b.lookedUp <==> exists i :: WentThrough(env, b.log, i, key, false);
    }
    if found.Some? && found.value.changes && env.encodes(call.args) {
      assert key in b.doneChanges <==> exists i :: WentThrough(env, b.log, i, key, true);
    }
  }

  /** An action is invoked exactly when its call is admitted, and then once, with that very call. */
  lemma {:induction false} RunsExactlyTheAdmitted(env: Env, t: Turn, call: Call, rest: seq<Call>)
    requires Remembers(env, t.book)
    ensures StepCall(env, t, call, rest).0.book.log
            == t.book.log + if Admitted(env, t.book, call) then [Ran(call, env.run(|t.book.log|, call))] else []
  {
    AdmitsExactly(env, t.book, call);
  }

  // ── Nothing runs that was not called for ────────────────────────────────────

  /** The call is one the model made when it was last asked, at moment m. */
  ghost predicate MadeAt(env: Env, log: seq<Event>, m: int, call: Call) {
    && 0 <= m < |log| && log[m].Asked? && (forall k :: m < k < |log| ==> log[k].Ran?)
    && env.model(m, log[m].transcript).Some? && call in env.model(m, log[m].transcript).value.calls
  }

  /** Every invocation is a call of the model's latest answer, with its arguments, and is logged with what it returned.
      */
  ghost predicate CalledFor(env: Env, log: seq<Event>) {
    forall i :: 0 <= i < |log| && log[i].Ran? ==>
      log[i].result == env.run(i, log[i].call) && exists m :: MadeAt(env, log[..i], m, log[i].call)
  }

  lemma CalledForGrows(env: Env, log: seq<Event>, e: Event)
    requires CalledFor(env, log)
    requires e.Ran? ==> e.result == env.run(|log|, e.call) && exists m :: MadeAt(env, log, m, e.call)
    ensures CalledFor(env, log + [e])
  {
    var more := log + [e];
    assert more[..|log|] == log;
    forall i | 0 <= i < |log| && more[i].Ran?
      ensures more[i].result == env.run(i, more[i].call) && exists m :: MadeAt(env, more[..i], m, more[i].call)
    {
      assert more[i] == log[i] && more[..i] == log[..i];
    }
  }

  ghost predicate AtMostRuns(env: Env, log: seq<Event>, log': seq<Event>, call: Call) {
    log' == log || log' == log + [Ran(call, env.run(|log|, call))]
  }

  lemma StepCallAtMostRuns(env: Env, t: Turn, call: Call, rest: seq<Call>)
    requires Remembers(env, t.book)
    ensures AtMostRuns(env, t.book.log, StepCall(env, t, call, rest).0.book.log, call)
  {
    RunsExactlyTheAdmitted(env, t, call, rest);
  }

  /** Handling one of the calls made at m keeps all that, for the calls that follow too. */
  lemma HandlingCalledFor(env: Env, log: seq<Event>, log': seq<Event>, call: Call, m: int)
    requires CalledFor(env, log) && MadeAt(env, log, m, call) && AtMostRuns(env, log, log', call)
    ensures log <= log'
    ensures CalledFor(env, log') && forall c :: MadeAt(env, log, m, c) ==> MadeAt(env, log', m, c)
  {
    CalledForGrows(env, log, Ran(call, env.run(|log|, call)));
  }

  // ── Why a run ends ──────────────────────────────────────────────────────────

  function UsesLeftOf(counts: map<string, nat>, name: string): nat {
    if CountOf(counts, name) < MAX_SAME_ACTION_CALLS then MAX_SAME_ACTION_CALLS - CountOf(counts, name) else 0
  }

  function UsesLeft(actions: seq<Action>, counts: map<string, nat>): (n: nat)
    ensures n <= MAX_SAME_ACTION_CALLS * |actions|
  {
    if actions == [] then 0
    else UsesLeft(actions[..|actions| - 1], counts) + UsesLeftOf(counts, actions[|actions| - 1].name)
  }

  lemma {:induction false} OneUseLess(actions: seq<Action>, counts: map<string, nat>, name: string)
    ensures var counts' := counts[name := CountOf(counts, name) + 1];
            && UsesLeft(actions, counts') <= UsesLeft(actions, counts)
            && (Find(actions, name).Some? && CountOf(counts, name) < MAX_SAME_ACTION_CALLS ==>
                  UsesLeft(actions, counts') < UsesLeft(actions, counts))
  {
    if actions != [] { OneUseLess(actions[..|actions| - 1], counts, name); }
  }

  /** A call uses something up, or fails, or changes nothing that keeps the run going. */
  ghost predicate Costs(env: Env, t: Turn, t': Turn) {
    var before, after := UsesLeft(env.actions, t.book.counts), UsesLeft(env.actions, t'.book.counts);
    && t'.stale == t.stale && TimesAsked(t'.book.log) == TimesAsked(t.book.log)
    && (after < before || (after == before && t'.failures >= t.failures && t'.progressed == t.progressed))
  }

  lemma RunCallCosts(env: Env, t: Turn, call: Call, a: Action, rest: seq<Call>)
    ensures RunCall(env, t, call, a, rest).0.book.counts == t.book.counts
    ensures RunCall(env, t, call, a, rest).0.stale == t.stale
    ensures TimesAsked(RunCall(env, t, call, a, rest).0.book.log) == TimesAsked(t.book.log)
  {
    LogGrows(env, t.book.log, Ran(call, env.run(|t.book.log|, call)));
  }

  /** Refusing a call takes nothing back. */
  lemma RefusalCosts(env: Env, t: Turn, call: Call, rest: seq<Call>)
    requires !Judge(env, t.book, call).Admit?
    ensures Costs(env, t, StepCall(env, t, call, rest).0)
  {
    OneUseLess(env.actions, t.book.counts, call.name);
    RefusalLeaves(env, t, call, rest);
  }

  lemma RefusalLeaves(env: Env, t: Turn, call: Call, rest: seq<Call>)
    requires !Judge(env, t.book, call).Admit?
    ensures var t' := StepCall(env, t, call, rest).0;
            && (t'.book == t.book || t'.book == Counting(t.book, call.name))
            && t'.stale == t.stale && t'.failures >= t.failures && t'.progressed == t.progressed
  {
  }

  lemma AdmittedCosts(env: Env, t: Turn, call: Call, rest: seq<Call>)
    requires Judge(env, t.book, call).Admit?
    ensures Costs(env, t, StepCall(env, t, call, rest).0)
  {
    var a, t1 := Judge(env, t.book, call).action, t.(book := Counting(t.book, call.name));
    assert StepCall(env, t, call, rest) == RunCall(env, t1, call, a, rest);
    RunCallCosts(env, t1, call, a, rest);
    OneUseLess(env.actions, t.book.counts, call.name);
  }

  lemma StepCallCosts(env: Env, t: Turn, call: Call, rest: seq<Call>)
    ensures Costs(env, t, StepCall(env, t, call, rest).0)
  {
    if Judge(env, t.book, call).Admit? { AdmittedCosts(env, t, call, rest); } else { RefusalCosts(env, t, call, rest); }
  }

  lemma AskingKeepsMemory(env: Env, log: seq<Event>, e: Event, memory: set<Key>, change: bool)
    requires e.Asked?
    requires forall key :: key in memory <==> exists i :: WentThrough(env, log, i, key, change)
    ensures forall key :: key in memory <==> exists i :: WentThrough(env, log + [e], i, key, change)
  {
    forall key
      ensures key in memory <==> exists i :: WentThrough(env, log + [e], i, key, change)
    {
      if key in memory {
        var i :| WentThrough(env, log, i, key, change);
        assert WentThrough(env, log + [e], i, key, change);
      }
      if i :| WentThrough(env, log + [e], i, key, change) {
        assert WentThrough(env, log, i, key, change);
      }
    }
  }

  /** Asking the model with a well-formed transcript keeps the book. */
  lemma AskingKeeps(env: Env, b: Book, ms: seq<Message>)
    requires Good(env, b) && WellFormed(ms)
    ensures var b' := b.(log := b.log + [Asked(ms)]);
            && Good(env, b') && TimesAsked(b'.log) == TimesAsked(b.log) + 1
            && RecordsOf(env, b'.log) == RecordsOf(env, b.log)
  {
    var e := Asked(ms);
    NoRepeatsGrows(env, b.log, e);
    AskingKeepsMemory(env, b.log, e, b.doneChanges.Keys, true);
    AskingKeepsMemory(env, b.log, e, b.lookedUp.Keys, false);
    LogGrows(env, b.log, e);
  }
}
