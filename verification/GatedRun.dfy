/** A run of calls through the gates: what every call that reached a service had behind it. */
module GatedRun {
  import opened Values
  import opened Outcome
  import opened InputContract
  import opened GateRules
  import opened Gates

  datatype Gate = Turned(result: Result) | Through(input: Args)

  function Prepare(s: Setup, n: nat, a: Ability, input: Args): Gate {
    if !a.prepares then Through(input)
    else match s.world.prepare(n, a.tool, input)
      case Unaltered => Through(input)
      case Replaced(other) => Through(other)
      case CannotPrepare(error) => Turned(Failure(error))
  }

  /** From the rules in: what is asked for or refused before anyone approves. */
  function BeforeApproval(s: Setup, done: set<string>, n: nat, a: Ability, input: Args): Gate {
    if !KeepsAll(s.f, s.w.wording, a.rules, input) then Turned(REFUSED)
    else if a.needsLocalTime && s.world.asksTimezone(n) then Turned(TIMEZONE_PENDING)
    else if a.requiresApproval && OnceKey(s, a, input) in done then Turned(ALREADY_DONE)
    else Through(input)
  }

  /** What a call comes to once its values are pinned, checked and prepared. */
  function Readied(s: Setup, n: nat, a: Ability, raw: Args): Gate {
    match CheckInput(s.f, a.schema, Pinned(a.rules, raw))
    case Bad(_) => Turned(Failure("invalid input"))
    case Ok(clean) => Prepare(s, n, a, clean)
  }

  /** Everything outside the approvals. */
  function Admit(s: Setup, journal: seq<Entry>, done: set<string>, n: nat, a: Ability, raw: Args): Gate {
    if !AllMet(s, journal, a, raw) then Turned(REFUSED)
    else match Readied(s, n, a, raw)
      case Turned(result) => Turned(result)
      case Through(input) => BeforeApproval(s, done, n, a, input)
  }

  function CallThrough(s: Setup, journal: seq<Entry>, done: set<string>, n: nat, b: nat, raw: Args): Call
    requires b in s.abilities
  {
    match Admit(s, journal, done, n, s.abilities[b], raw)
    case Turned(result) => Call(b, raw, [], None, result)
    case Through(input) =>
      var stage := Approved(s, n, s.abilities[b], input);
      Call(b, raw, stage.asks, stage.sent, stage.result)
  }

  // ── The run ─────────────────────────────────────────────────────────────────

  /** What the run's journal holds after these calls. */
  function JournalOf(s: Setup, calls: seq<Call>): seq<Entry> {
    if calls == [] then []
    else
      var last := calls[|calls| - 1];
      JournalOf(s, calls[..|calls| - 1])
      + if Journaled(s, last) && last.ability in s.abilities
        then [Entry(s.abilities[last.ability].tool, last.sent.value.input)] else []
  }

  /** The things an ability that asks first was already done for. */
  function DoneFor(s: Setup, calls: seq<Call>, b: nat): set<string>
    requires b in s.abilities
  {
    set c | c in calls && c.ability == b && WentThrough(c) :: OnceKey(s, s.abilities[b], c.sent.value.input)
  }

  function DoneIn(done: map<nat, set<string>>, b: nat): set<string> {
    if b in done then done[b] else {}
  }

  /** The guards say what the calls say. */
  predicate Guards(s: Setup, done: map<nat, set<string>>, calls: seq<Call>) {
    forall b :: b in s.abilities && s.abilities[b].requiresApproval ==> DoneIn(done, b) == DoneFor(s, calls, b)
  }

  /** What was asked on the way to the service: each approval that was wanted, granted on a prompt of this input. */
  function Needed(s: Setup, a: Ability, input: Args): seq<Ask> {
    var ask := Ask(s.w.prompt(a.tool, input), Granted);
    (if AbilityWants(s.ctx, a) then [ask] else []) + (if PersonWants(s.ctx, a) then [ask] else [])
  }

  /** A call like this one, for the same thing, went through before. */
  predicate WentBefore(s: Setup, before: seq<Call>, call: Call)
    requires call.ability in s.abilities
  {
    var a := s.abilities[call.ability];
    var ready := Readied(s, |before|, a, call.raw);
    a.requiresApproval && ready.Through? && OnceKey(s, a, ready.input) in DoneFor(s, before, call.ability)
  }

  /** Whose connection a service is called with: the person's own when they have one, else the one they made just now
      when one is needed and they could be asked, else none. */
  function RefUsed(s: Setup, n: nat, a: Ability): string {
    if a.identity.None? then ""
    else if a.identity.value in s.ctx.refs && s.ctx.refs[a.identity.value] != "" then s.ctx.refs[a.identity.value]
    else if a.sharedKey || !s.ctx.canConnect || !s.ctx.inConversation then ""
    else match s.world.connect(n)
      case SignedIn(ref) => ref
      case NoSignIn(_) => ""
  }

  /** Call number n of a run gave the service exactly what is on record, and what the service said came back. */
  predicate ServedAsRecorded(s: Setup, n: nat, call: Call)
    requires call.ability in s.abilities && call.sent.Some?
  {
    var a, sent := s.abilities[call.ability], call.sent.value;
    sent.result == s.world.serve(n, a.tool, RefUsed(s, n, a), sent.input) && call.result == sent.result
  }

  /** What an earlier part of the run and the call itself show of a call that reached the service, and of one the model
      is told was done. */
  predicate GoodCall(s: Setup, before: seq<Call>, call: Call) {
    && call.ability in s.abilities
    && (call.sent.Some? ==>
          var a, input := s.abilities[call.ability], call.sent.value.input;
          && ServedAsRecorded(s, |before|, call)
          && KeepsAll(s.f, s.w.wording, a.rules, input)
          && call.asks == Needed(s, a, input)
          && AllMet(s, JournalOf(s, before), a, call.raw)
          && (a.requiresApproval ==> OnceKey(s, a, input) !in DoneFor(s, before, call.ability))
          && (!a.prepares ==> CheckInput(s.f, a.schema, Pinned(a.rules, call.raw)) == Ok(input)))
    && (OutcomeOf(call.result).done ==> WentThrough(call) || WentBefore(s, before, call))
  }

  predicate GoodRun(s: Setup, calls: seq<Call>) {
    calls != [] ==> GoodRun(s, calls[..|calls| - 1]) && GoodCall(s, calls[..|calls| - 1], calls[|calls| - 1])
  }

  class Run {
    const s: Setup
    var journal: seq<Entry>
    var done: map<nat, set<string>>
    var calls: seq<Call>

    constructor (s: Setup)
      ensures this.s == s && journal == [] && done == map[] && calls == [] && Valid()
    {
      this.s := s;
      journal, done, calls := [], map[], [];
    }

    function Done(b: nat): set<string>
      reads this
    {
      DoneIn(done, b)
    }

    ghost predicate Valid()
      reads this
    {
      Consistent() && GoodRun(s, calls)
    }

    /** The journal and the guards say what the calls say. */
    ghost predicate Consistent()
      reads this
    {
      journal == JournalOf(s, calls) && Guards(s, done, calls)
    }

    /** RunJournal.Has. */
    method Has(tool: string, same: seq<string>, input: Args) returns (found: bool)
      ensures found <==> Ran(s, journal, tool, same, input)
    {
      for i := 0 to |journal|
        invariant forall k :: 0 <= k < i ==> !(journal[k].tool == tool && AllSame(s, same, journal[k].input, input))
      {
        if journal[i].tool != tool { continue; }
        var all := true;
        for k := 0 to |same|
          invariant all <==>
                      forall m :: 0 <= m < k ==>
                        SameInput(s.f, s.w, Get(journal[i].input, same[m]), Get(input, same[m]))
        {
          if !SameInput(s.f, s.w, Get(journal[i].input, same[k]), Get(input, same[k])) { all := false; }
        }
        SameAtEach(s, same, journal[i].input, input);
        if all { return true; }
      }
      return false;
    }

    method HasAny(tools: seq<string>) returns (found: bool)
      ensures found <==> exists tool :: tool in tools && Ran(s, journal, tool, [], map[])
    {
      for i := 0 to |tools|
        invariant forall k :: 0 <= k < i ==> !Ran(s, journal, tools[k], [], map[])
      {
        found := Has(tools[i], [], map[]);
        if found { return true; }
      }
      return false;
    }

    /** The wait WrapPrerequisites makes an ability do. */
    method Waits(a: Ability, raw: Args) returns (waits: bool)
      ensures waits <==> !AllMet(s, journal, a, raw)
    {
      for i := 0 to |a.prerequisites|
        invariant forall k :: 0 <= k < i ==> Met(s, journal, a.prerequisites[k], raw)
      {
        var met := false;
        match a.prerequisites[i] {
          case First(tool, same) => met := Has(tool, same, raw);
          case AnyOf(tools) =>
            met := s.ctx.unattended;
            if !met { met := HasAny(tools); }
            AnyValues(s, journal, raw);
        }
        assert met <==> Met(s, journal, a.prerequisites[i], raw);
        if !met { return true; }
      }
      return false;
    }

    method Admitted(a: Ability, raw: Args, done: set<string>) returns (gate: Gate)
      ensures gate == Admit(s, journal, done, |calls|, a, raw)
    {
      var waits := Waits(a, raw);
      if waits { return Turned(REFUSED); }
      var pinned := ApplyPins(a.rules, raw);
      var clean, problems := CheckObject(s.f, a.schema, pinned);
      if problems != {} { return Turned(Failure("invalid input")); }
      gate := Prepare(s, |calls|, a, clean);
      if gate.Turned? { return gate; }
      var broken := Breaks(s.f, s.w.wording, a.rules, gate.input);
      if broken.Some? { return Turned(REFUSED); }
      if a.needsLocalTime && s.world.asksTimezone(|calls|) { return Turned(TIMEZONE_PENDING); }
      if a.requiresApproval && OnceKey(s, a, gate.input) in done { return Turned(ALREADY_DONE); }
    }

    /** What a call leaves behind: the journal notes what ran, and the once-only guard what went through. */
    method Note(call: Call)
      requires Consistent() && call.ability in s.abilities
      modifies this
      ensures Consistent() && calls == old(calls) + [call]
    {
      OneMoreCall(s, calls, call);
      GuardsOn(s, done, calls, call);
      var a := s.abilities[call.ability];
      if WentThrough(call) {
        var input := call.sent.value.input;
        if !SaysItFailed(s, call.sent.value.result.output) { journal := journal + [Entry(a.tool, input)]; }
        if a.requiresApproval { done := done[call.ability := Done(call.ability) + {OnceKey(s, a, input)}]; }
      }
      calls := calls + [call];
    }

    /** A call, from the outermost gate in. The guard looks at what came back, which is done only when the service was
        sent something: StageFacts. */
    method Invoke(b: nat, raw: Args) returns (result: Result)
      requires Valid() && b in s.abilities
      modifies this
      ensures Valid()
      ensures calls == old(calls) + [CallThrough(s, old(journal), old(Done(b)), |old(calls)|, b, raw)]
      ensures result == calls[|calls| - 1].result
    {
      var gate := Admitted(s.abilities[b], raw, Done(b));
      var call := Call(b, raw, [], None, REFUSED);
      match gate {
        case Turned(r) => call := call.(result := r);
        case Through(input) =>
          var stage := Approved(s, |calls|, s.abilities[b], input);
          call := Call(b, raw, stage.asks, stage.sent, stage.result);
      }
      IsGood(s, calls, journal, Done(b), b, raw);
      GoodOn(s, calls, call);
      Note(call);
      result := call.result;
    }
  }

  /** The service was called once with this very input, and what it said is what the gates give back. */
  predicate SentWith(s: Setup, n: nat, a: Ability, input: Args, stage: Stage) {
    && stage.sent == Some(Sent(input, stage.result))
    && stage.result == s.world.serve(n, a.tool, RefUsed(s, n, a), input)
  }

  /** What the gates let through is what the service was sent, and what it said is what comes back; what they stopped
      counts as not done. */
  lemma StageFacts(s: Setup, n: nat, a: Ability, input: Args)
    ensures var stage := Approved(s, n, a, input);
            if stage.sent.Some? then
              SentWith(s, n, a, input, stage) && stage.asks == Needed(s, a, input)
            else !OutcomeOf(stage.result).done
  {
    SignInFacts(s, n, a, input);
    PersonFacts(s, n, a, input);
  }

  lemma SignInFacts(s: Setup, n: nat, a: Ability, input: Args)
    ensures var stage := SignIn(s, n, a, input);
            && stage.asks == []
            && if stage.sent.Some? then SentWith(s, n, a, input, stage) else !OutcomeOf(stage.result).done
  {
  }

  lemma PersonFacts(s: Setup, n: nat, a: Ability, input: Args)
    ensures var stage := PersonApproves(s, n, a, input);
            if stage.sent.Some? then
              && SentWith(s, n, a, input, stage)
              && stage.asks == if PersonWants(s.ctx, a) then [Ask(s.w.prompt(a.tool, input), Granted)] else []
            else !OutcomeOf(stage.result).done
  {
    SignInFacts(s, n, a, input);
  }

  lemma OneMoreCall(s: Setup, calls: seq<Call>, call: Call)
    requires call.ability in s.abilities
    ensures JournalOf(s, calls + [call]) ==
            JournalOf(s, calls) +
              if Journaled(s, call) then [Entry(s.abilities[call.ability].tool, call.sent.value.input)] else []
    ensures forall b :: b in s.abilities ==>
              DoneFor(s, calls + [call], b) ==
              DoneFor(s, calls, b) +
                if b == call.ability && WentThrough(call) then {OnceKey(s, s.abilities[b], call.sent.value.input)}
                else {}
  {
    assert (calls + [call])[..|calls|] == calls;
  }

  /** What the guards remember once a call is over. */
  function Remembered(s: Setup, done: map<nat, set<string>>, call: Call): map<nat, set<string>>
    requires call.ability in s.abilities
  {
    var a := s.abilities[call.ability];
    if WentThrough(call) && a.requiresApproval then
      done[call.ability := DoneIn(done, call.ability) + {OnceKey(s, a, call.sent.value.input)}]
    else done
  }

  lemma GuardsOn(s: Setup, done: map<nat, set<string>>, calls: seq<Call>, call: Call)
    requires call.ability in s.abilities && Guards(s, done, calls)
    ensures Guards(s, Remembered(s, done, call), calls + [call])
  {
    OneMoreCall(s, calls, call);
  }

  lemma SameAtEach(s: Setup, same: seq<string>, a: Args, b: Args)
    ensures AllSame(s, same, a, b) <==>
              forall m :: 0 <= m < |same| ==> SameInput(s.f, s.w, Get(a, same[m]), Get(b, same[m]))
  {
    if forall m :: 0 <= m < |same| ==> SameInput(s.f, s.w, Get(a, same[m]), Get(b, same[m])) {
      forall name | name in same ensures SameInput(s.f, s.w, Get(a, name), Get(b, name)) {
        var m :| 0 <= m < |same| && same[m] == name;
      }
    }
  }

  lemma AnyValues(s: Setup, journal: seq<Entry>, raw: Args)
    ensures forall tool :: Ran(s, journal, tool, [], raw) <==> Ran(s, journal, tool, [], map[])
  {
    forall a: Args, b: Args ensures AllSame(s, [], a, b) {}
  }

  lemma IsGood(s: Setup, before: seq<Call>, journal: seq<Entry>, done: set<string>, b: nat, raw: Args)
    requires b in s.abilities && journal == JournalOf(s, before)
    requires s.abilities[b].requiresApproval ==> done == DoneFor(s, before, b)
    ensures GoodCall(s, before, CallThrough(s, journal, done, |before|, b, raw))
  {
    var gate := Admit(s, journal, done, |before|, s.abilities[b], raw);
    if gate.Through? { StageFacts(s, |before|, s.abilities[b], gate.input); }
  }

  lemma GoodOn(s: Setup, before: seq<Call>, call: Call)
    requires GoodRun(s, before) && GoodCall(s, before, call)
    ensures GoodRun(s, before + [call])
  {
    assert (before + [call])[..|before|] == before;
  }
}
