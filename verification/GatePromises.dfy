/** What holds of every call that reached a service, in every run through the gates. */
module GatePromises {
  import opened Values
  import opened Outcome
  import opened InputContract
  import opened InputPromises
  import opened GateRules
  import opened Gates
  import opened GatedRun
  import RuleSets

  /** Each call of a run was good when it was made. */
  lemma {:induction false} EachCallGood(s: Setup, calls: seq<Call>, k: nat)
    requires GoodRun(s, calls) && k < |calls|
    ensures GoodCall(s, calls[..k], calls[k])
  {
    var n := |calls| - 1;
    if k < n {
      EachCallGood(s, calls[..n], k);
      assert calls[..n][..k] == calls[..k];
    }
  }

  /** What was sent breaks no rule, and each approval that was wanted was granted on a prompt of that same input. */
  lemma {:induction false} NothingUnchecked(s: Setup, calls: seq<Call>, k: nat)
    requires GoodRun(s, calls) && k < |calls| && calls[k].sent.Some?
    ensures calls[k].ability in s.abilities
    ensures var a, input := s.abilities[calls[k].ability], calls[k].sent.value.input;
            && (forall r :: r in a.rules ==> Keeps(s.f, s.w.wording, r, input))
            && (a.requiresApproval && !AgreedInAdvance(s.ctx, a) ==>
                Ask(s.w.prompt(a.tool, input), Granted) in calls[k].asks)
            && (!a.readOnly && a.tool in s.ctx.approvals && !AgreedInAdvance(s.ctx, a) ==>
                  Ask(s.w.prompt(a.tool, input), Granted) in calls[k].asks)
            && (AbilityWants(s.ctx, a) && PersonWants(s.ctx, a) ==> |calls[k].asks| == 2)
  {
    EachCallGood(s, calls, k);
  }

  /** The service was given exactly what is on record, for the ability's own tool and the person's own connection, and
      what it said is what the model was told. */
  lemma {:induction false} ServedWhatIsSent(s: Setup, calls: seq<Call>, k: nat)
    requires GoodRun(s, calls) && k < |calls| && calls[k].sent.Some?
    ensures calls[k].ability in s.abilities
    ensures var a := s.abilities[calls[k].ability];
            && calls[k].sent.value.result == s.world.serve(k, a.tool, RefUsed(s, k, a), calls[k].sent.value.input)
            && calls[k].result == calls[k].sent.value.result
  {
    EachCallGood(s, calls, k);
  }

  // ── Once only ───────────────────────────────────────────────────────────────

  /** An ability that asks first goes through once at most for each thing it acts on. */
  lemma {:induction false} OncePerKey(s: Setup, calls: seq<Call>, i: nat, j: nat)
    requires GoodRun(s, calls) && i < j < |calls| && WentThrough(calls[i]) && calls[j].sent.Some?
    requires calls[i].ability == calls[j].ability && calls[j].ability in s.abilities
    requires s.abilities[calls[j].ability].requiresApproval
    ensures var a := s.abilities[calls[j].ability];
            OnceKey(s, a, calls[i].sent.value.input) != OnceKey(s, a, calls[j].sent.value.input)
  {
    EachCallGood(s, calls, j);
    assert calls[i] in calls[..j];
  }

  /** What the model is told was done was done: by this call, or by an earlier one for the same thing. */
  lemma ToldDoneWasDone(s: Setup, calls: seq<Call>, k: nat) returns (i: nat)
    requires GoodRun(s, calls) && k < |calls| && OutcomeOf(calls[k].result).done
    ensures i <= k && calls[k].ability in s.abilities && calls[i].ability == calls[k].ability && WentThrough(calls[i])
    ensures i < k ==>
              var a := s.abilities[calls[k].ability];
              var ready := Readied(s, k, a, calls[k].raw);
              a.requiresApproval && ready.Through? &&
              OnceKey(s, a, calls[i].sent.value.input) == OnceKey(s, a, ready.input)
  {
    EachCallGood(s, calls, k);
    i := k;
    if !WentThrough(calls[k]) {
      var a := s.abilities[calls[k].ability];
      var key := OnceKey(s, a, Readied(s, k, a, calls[k].raw).input);
      assert key in DoneFor(s, calls[..k], calls[k].ability);
      var c :| c in calls[..k] && c.ability == calls[k].ability && WentThrough(c) &&
               OnceKey(s, a, c.sent.value.input) == key;
      i :| 0 <= i < k && calls[i] == c;
    }
  }

  // ── What must come first ────────────────────────────────────────────────────

  lemma {:induction false} JournalFromCalls(s: Setup, calls: seq<Call>, e: Entry) returns (i: nat)
    requires e in JournalOf(s, calls)
    ensures i < |calls| && Journaled(s, calls[i]) && calls[i].ability in s.abilities
    ensures e == Entry(s.abilities[calls[i].ability].tool, calls[i].sent.value.input)
  {
    var n := |calls| - 1;
    if e in JournalOf(s, calls[..n]) { i := JournalFromCalls(s, calls[..n], e); } else { i := n; }
  }

  /** Whatever must come first came first: it went through earlier in this run, for the values of the call. */
  lemma FirstRanBefore(s: Setup, calls: seq<Call>, k: nat, tool: string, same: seq<string>) returns (i: nat)
    requires GoodRun(s, calls) && k < |calls| && calls[k].sent.Some? && calls[k].ability in s.abilities
    requires First(tool, same) in s.abilities[calls[k].ability].prerequisites
    ensures i < k && Journaled(s, calls[i]) && calls[i].ability in s.abilities
    ensures s.abilities[calls[i].ability].tool == tool
    ensures AllSame(s, same, calls[i].sent.value.input, calls[k].raw)
  {
    EachCallGood(s, calls, k);
    assert Met(s, JournalOf(s, calls[..k]), First(tool, same), calls[k].raw);
    var e :| e in JournalOf(s, calls[..k]) && e.tool == tool && AllSame(s, same, e.input, calls[k].raw);
    i := JournalFromCalls(s, calls[..k], e);
  }

  ghost predicate FoldsAlike(fold: (string, string) -> bool) {
    && (forall a: string :: fold(a, a)) && (forall a: string, b: string :: fold(a, b) ==> fold(b, a))
    && forall a: string, b: string, c: string :: fold(a, b) && fold(b, c) ==> fold(a, c)
  }

  /** A value whose JSON says whether it is text, a number or neither; NaN has none. */
  ghost predicate Plain(s: Setup, v: Value) {
    && v != NonFinite("NaN")
    && forall other: Value :: !v.Null? && !other.Null? && s.w.encode(other) == s.w.encode(v) ==>
         (other.Text? <==> v.Text?) && (IsNumber(s.f, other) <==> IsNumber(s.f, v))
  }

  ghost predicate AllPlain(s: Setup, same: seq<string>, input: Args) {
    forall name {:trigger Get(input, name)} :: name in same ==> Plain(s, Get(input, name))
  }

  lemma SameAsItself(s: Setup, same: seq<string>, input: Args)
    requires FoldsAlike(s.w.wording.sameFold) && AllPlain(s, same, input)
    ensures AllSame(s, same, input, input)
  {
  }

  lemma SameInTurn(s: Setup, same: seq<string>, a: Args, b: Args, c: Args)
    requires FoldsAlike(s.w.wording.sameFold) && AllPlain(s, same, b)
    requires AllSame(s, same, a, b) && AllSame(s, same, b, c)
    ensures AllSame(s, same, a, c)
  {
    forall name | name in same ensures SameInput(s.f, s.w, Get(a, name), Get(c, name)) {
      assert Plain(s, Get(b, name)) && SameInput(s.f, s.w, Get(a, name), Get(b, name));
      assert SameInput(s.f, s.w, Get(b, name), Get(c, name));
    }
  }

  lemma SameBack(s: Setup, same: seq<string>, a: Args, b: Args)
    requires FoldsAlike(s.w.wording.sameFold) && AllSame(s, same, a, b)
    ensures AllSame(s, same, b, a)
  {
  }

  lemma RanOnce(s: Setup, tool: string, same: seq<string>, other: Args, input: Args)
    ensures Ran(s, [Entry(tool, other)], tool, same, input) <==> AllSame(s, same, other, input)
  {
    var e := Entry(tool, other);
    assert e in [e];
  }

  lemma RanFor(s: Setup, journal: seq<Entry>, tool: string, same: seq<string>, a: Args, b: Args)
    requires FoldsAlike(s.w.wording.sameFold) && AllPlain(s, same, a)
    requires AllSame(s, same, a, b) && Ran(s, journal, tool, same, a)
    ensures Ran(s, journal, tool, same, b)
  {
    var e :| e in journal && e.tool == tool && AllSame(s, same, e.input, a);
    SameInTurn(s, same, e.input, a, b);
  }

  /** The wait is for the values the call gives, before anything is pinned, converted or prepared. Whatever ran before,
      it is a wait for the values that are sent exactly when those are the same. */
  lemma WaitsForWhatIsSentExactly(s: Setup, tool: string, same: seq<string>, raw: Args, sent: Args)
    requires FoldsAlike(s.w.wording.sameFold) && AllPlain(s, same, raw)
    ensures (forall journal :: Ran(s, journal, tool, same, raw) ==> Ran(s, journal, tool, same, sent))
            <==> AllSame(s, same, raw, sent)
  {
    if forall journal :: Ran(s, journal, tool, same, raw) ==> Ran(s, journal, tool, same, sent) {
      SameAsItself(s, same, raw);
      RanOnce(s, tool, same, raw, raw);
      RanOnce(s, tool, same, raw, sent);
    }
    if AllSame(s, same, raw, sent) {
      forall journal | Ran(s, journal, tool, same, raw) ensures Ran(s, journal, tool, same, sent) {
        RanFor(s, journal, tool, same, raw, sent);
      }
    }
  }

  /** And exactly then does it turn back no call whose sent values were seen to. */
  lemma WaitsOnlyForWhatIsSentExactly(s: Setup, tool: string, same: seq<string>, raw: Args, sent: Args)
    requires FoldsAlike(s.w.wording.sameFold) && AllPlain(s, same, raw) && AllPlain(s, same, sent)
    ensures (forall journal :: Ran(s, journal, tool, same, sent) ==> Ran(s, journal, tool, same, raw))
            <==> AllSame(s, same, raw, sent)
    ensures (forall journal :: Ran(s, journal, tool, same, raw) <==> Ran(s, journal, tool, same, sent))
            <==> AllSame(s, same, raw, sent)
  {
    WaitsForWhatIsSentExactly(s, tool, same, raw, sent);
    WaitsForWhatIsSentExactly(s, tool, same, sent, raw);
    if AllSame(s, same, raw, sent) { SameBack(s, same, raw, sent); }
    if AllSame(s, same, sent, raw) { SameBack(s, same, sent, raw); }
  }

  /** Where they are the same, what must come first went through earlier in the run for the very values sent. */
  lemma FirstRanForWhatIsSent(s: Setup, calls: seq<Call>, k: nat, tool: string, same: seq<string>) returns (i: nat)
    requires GoodRun(s, calls) && k < |calls| && calls[k].sent.Some? && calls[k].ability in s.abilities
    requires First(tool, same) in s.abilities[calls[k].ability].prerequisites
    requires FoldsAlike(s.w.wording.sameFold) && AllPlain(s, same, calls[k].raw)
    requires AllSame(s, same, calls[k].raw, calls[k].sent.value.input)
    ensures i < k && Journaled(s, calls[i]) && calls[i].ability in s.abilities
    ensures s.abilities[calls[i].ability].tool == tool
    ensures AllSame(s, same, calls[i].sent.value.input, calls[k].sent.value.input)
  {
    i := FirstRanBefore(s, calls, k, tool, same);
    SameInTurn(s, same, calls[i].sent.value.input, calls[k].raw, calls[k].sent.value.input);
  }

  // ── An ability with a fixed input that something must come first for ────────

  const PAIR := Schema(String, map[], None, [], [])

  const TRADE := Ability(
    "trade", "trade", Schema(Object, map["pair" := PAIR], None, [], []), [Rule("trade", "pair", Fixed(Text("B")))],
    [First("open_trades", ["pair"])], false, false, [], false, false, None, false)

  function ForPair(pair: string): Args {
    map["pair" := Text(pair)]
  }

  lemma TradeIsReadied(s: Setup, n: nat, raw: Args)
    requires raw.Keys <= {"pair"}
    ensures Readied(s, n, TRADE, raw) == Through(ForPair("B")) && KeepsAll(s.f, s.w.wording, TRADE.rules, ForPair("B"))
  {
    var input := ForPair("B");
    assert TRADE.rules[..0] == [];
    assert Pinned(TRADE.rules, raw) == raw["pair" := Text("B")] == input;
    assert Conforms(PAIR, Text("B"));
    ConformingInput(s.f, TRADE.schema, input);
  }

  lemma PairsApart(s: Setup)
    requires FoldsAlike(s.w.wording.sameFold) && !s.w.wording.sameFold("A", "B")
    ensures !SameInput(s.f, s.w, Text("A"), Text("B")) && !SameInput(s.f, s.w, Text("B"), Text("A"))
    ensures SameInput(s.f, s.w, Text("A"), Text("A"))
  {
    assert Trim("A") == "A" by { assert TrimLeft("A") == "A"; }
    assert Trim("B") == "B" by { assert TrimLeft("B") == "B"; }
  }

  lemma PairsCompared(s: Setup, a: Args, b: Args)
    ensures AllSame(s, ["pair"], a, b) <==> SameInput(s.f, s.w, Get(a, "pair"), Get(b, "pair"))
  {
    assert "pair" in ["pair"];
  }

  lemma TradeWaitsFor(s: Setup, checked: string, raw: Args)
    ensures AllMet(s, [Entry("open_trades", ForPair(checked))], TRADE, raw)
            <==> SameInput(s.f, s.w, Text(checked), Get(raw, "pair"))
  {
    var journal, p := [Entry("open_trades", ForPair(checked))], First("open_trades", ["pair"]);
    assert TRADE.prerequisites == [p];
    assert p in TRADE.prerequisites;
    RanOnce(s, "open_trades", ["pair"], ForPair(checked), raw);
    PairsCompared(s, ForPair(checked), raw);
  }

  /** The pair is fixed at B, the call says A, the check ran for A alone, and B is what is traded. */
  lemma CheckedForAnotherPair(s: Setup, n: nat, b: nat)
    requires b in s.abilities && s.abilities[b] == TRADE && "trade" !in s.ctx.approvals
    requires FoldsAlike(s.w.wording.sameFold) && !s.w.wording.sameFold("A", "B")
    ensures var call := CallThrough(s, [Entry("open_trades", ForPair("A"))], {}, n, b, ForPair("A"));
            call.sent.Some? && call.sent.value.input == ForPair("B")
    ensures !Ran(s, [Entry("open_trades", ForPair("A"))], "open_trades", ["pair"], ForPair("B"))
  {
    PairsApart(s);
    TradeWaitsFor(s, "A", ForPair("A"));
    TradeIsReadied(s, n, ForPair("A"));
    RanOnce(s, "open_trades", ["pair"], ForPair("A"), ForPair("B"));
    PairsCompared(s, ForPair("A"), ForPair("B"));
  }

  /** The check ran for B, which is what would be traded: the call is turned back, whether it says A or, as a fixed
      input is not shown to the model, nothing. */
  lemma CheckedAndTurnedBack(s: Setup, n: nat, b: nat)
    requires b in s.abilities && s.abilities[b] == TRADE
    requires FoldsAlike(s.w.wording.sameFold) && !s.w.wording.sameFold("A", "B")
    ensures CallThrough(s, [Entry("open_trades", ForPair("B"))], {}, n, b, ForPair("A")).result == REFUSED
    ensures CallThrough(s, [Entry("open_trades", ForPair("B"))], {}, n, b, map[]).result == REFUSED
    ensures Readied(s, n, TRADE, ForPair("A")) == Readied(s, n, TRADE, map[]) == Through(ForPair("B"))
  {
    PairsApart(s);
    TradeWaitsFor(s, "B", ForPair("A"));
    TradeWaitsFor(s, "B", map[]);
    TradeIsReadied(s, n, ForPair("A"));
    TradeIsReadied(s, n, map[]);
  }

  /** A call that leaves out a value it waits for is turned back whatever ran with that value, fixed or not. */
  lemma LeftOutIsNotFound(s: Setup, journal: seq<Entry>, tool: string, same: seq<string>, raw: Args, name: string)
    requires name in same && Get(raw, name).Null?
    requires forall e :: e in journal && e.tool == tool ==> !Get(e.input, name).Null?
    ensures !Ran(s, journal, tool, same, raw)
  {
  }

  // ── The schema and the pins ─────────────────────────────────────────────────

  /** A pinned value is one its input can take: what NormalizeRule sees to (RuleSets.PinFits). */
  predicate PinsFit(schema: Schema, rules: seq<Rule>) {
    forall r :: r in rules && r.kind.Fixed? ==>
      !r.kind.value.Null? && (r.input in schema.properties ==> Conforms(schema.properties[r.input], r.kind.value))
  }

  /** The input check changes nothing that conforms already. */
  lemma CheckedKeeps(f: Formats, schema: Schema, input: Args, r: Rule)
    requires CheckInput(f, schema, input).Ok? && r.kind.Fixed? && Carries(input, r) && !r.kind.value.Null?
    requires r.input in schema.properties ==> Conforms(schema.properties[r.input], r.kind.value)
    ensures Carries(CheckInput(f, schema, input).value, r)
  {
    var kept := CheckInput(f, schema, input).value;
    assert kept[r.input] == Converted(f, schema, input, r.input);
    if r.input in schema.properties { Unchanged(f, schema.properties[r.input], r.kind.value); }
  }

  /** Without a prepare step, what is sent conforms to the schema and carries every fixed value. */
  lemma SentConformsAndCarries(s: Setup, calls: seq<Call>, k: nat, agent: seq<Rule>, skill: seq<Rule>)
    requires GoodRun(s, calls) && k < |calls| && calls[k].sent.Some? && calls[k].ability in s.abilities
    requires var a := s.abilities[calls[k].ability];
             !a.prepares && a.rules == agent + skill && PinsFit(a.schema, a.rules)
    requires OnePinEach(agent) && OnePinEach(skill) && PinsAgree(agent, skill)
    ensures var a, input := s.abilities[calls[k].ability], calls[k].sent.value.input;
            ObjectConforms(a.schema, input) && CarriesFixed(a.rules, input)
  {
    EachCallGood(s, calls, k);
    var a, raw := s.abilities[calls[k].ability], calls[k].raw;
    var pinned := Pinned(a.rules, raw);
    AcceptedInput(s.f, a.schema, pinned);
    FixedCarriedExactly(agent, skill);
    assert a.rules == agent + skill && CarriesFixed(agent + skill, Pinned(agent + skill, raw));
    forall r | r in a.rules ensures Carries(calls[k].sent.value.input, r) {
      assert Carries(pinned, r);
      if r.kind.Fixed? { CheckedKeeps(s.f, a.schema, pinned, r); }
    }
  }

  /** The rules an ability is held to, when the agent's and the capability's were each taken. */
  ghost predicate HeldTo(s: Setup, tools: map<string, RuleSets.Details>, a: Ability, agent: seq<RuleSets.RawRule>,
                         skill: seq<RuleSets.RawRule>)
  {
    && a.tool in tools && tools[a.tool].properties == a.schema.properties
    && RuleSets.Taken(s.f, s.w.wording, agent, tools) && RuleSets.Taken(s.f, s.w.wording, skill, tools)
    && a.rules == OfSet(s, tools, a, agent) + OfSet(s, tools, a, skill)
  }

  function OfSet(s: Setup, tools: map<string, RuleSets.Details>, a: Ability, raw: seq<RuleSets.RawRule>): seq<Rule>
    requires RuleSets.AllFit(s.f, s.w.wording, raw, tools)
  {
    RuleSets.RulesFor(RuleSets.Canon(s.f, s.w.wording, raw, tools), a.tool)
  }

  lemma TakenPinsFit(s: Setup, tools: map<string, RuleSets.Details>, a: Ability, raw: seq<RuleSets.RawRule>)
    requires a.tool in tools && tools[a.tool].properties == a.schema.properties
    requires RuleSets.Taken(s.f, s.w.wording, raw, tools)
    ensures PinsFit(a.schema, OfSet(s, tools, a, raw)) && OnePinEach(OfSet(s, tools, a, raw))
  {
    var rules := RuleSets.Canon(s.f, s.w.wording, raw, tools);
    RuleSets.OnePinOfEach(rules, a.tool);
    forall r | r in OfSet(s, tools, a, raw) && r.kind.Fixed?
      ensures !r.kind.value.Null?
      ensures (r.input in a.schema.properties ==> Conforms(a.schema.properties[r.input], r.kind.value))
    {
      var i :| 0 <= i < |rules| && rules[i] == r;
      RuleSets.PinFits(s.f, s.w.wording, raw[i], tools);
    }
  }

  /** Under rules that were taken, what is sent without a prepare step conforms and carries every fixed value, when the
      two sets agree on what both pin. */
  lemma AcceptedRulesAreCarried(s: Setup, calls: seq<Call>, k: nat, tools: map<string, RuleSets.Details>,
                                agent: seq<RuleSets.RawRule>, skill: seq<RuleSets.RawRule>)
    requires GoodRun(s, calls) && k < |calls| && calls[k].sent.Some? && calls[k].ability in s.abilities
    requires var a := s.abilities[calls[k].ability];
             && !a.prepares && HeldTo(s, tools, a, agent, skill)
             && PinsAgree(OfSet(s, tools, a, agent), OfSet(s, tools, a, skill))
    ensures var a, input := s.abilities[calls[k].ability], calls[k].sent.value.input;
            ObjectConforms(a.schema, input) && CarriesFixed(a.rules, input)
  {
    var a := s.abilities[calls[k].ability];
    TakenPinsFit(s, tools, a, agent);
    TakenPinsFit(s, tools, a, skill);
    SentConformsAndCarries(s, calls, k, OfSet(s, tools, a, agent), OfSet(s, tools, a, skill));
  }

  // ── Exactly which calls reach the service ───────────────────────────────────

  predicate GrantedBy(s: Setup, n: nat, own: bool, a: Ability, input: Args) {
    s.ctx.canAsk && s.ctx.inConversation && s.world.approve(n, own, s.w.prompt(a.tool, input)).Granted?
  }

  /** The person is signed in already, signs in now, or there is nobody to ask. */
  predicate CanSignIn(s: Setup, n: nat, a: Ability) {
    || a.identity.None? || a.sharedKey || Ref(s.ctx, a) != "" || !s.ctx.canConnect || !s.ctx.inConversation
    || (s.world.connect(n).SignedIn? && s.world.connect(n).ref != "")
  }

  /** A call reaches the service exactly when nothing it waits for is missing, its input can be made to conform and be
      prepared, what comes of it keeps every rule and was not done before, and everyone asked agrees. */
  lemma ReachesTheServiceExactly(s: Setup, journal: seq<Entry>, done: set<string>, n: nat, b: nat, raw: Args,
                                 input: Args)
    requires b in s.abilities
    ensures var a := s.abilities[b];
            var call := CallThrough(s, journal, done, n, b, raw);
            (call.sent.Some? && call.sent.value.input == input) <==>
            && AllMet(s, journal, a, raw)
            && CheckInput(s.f, a.schema, Pinned(a.rules, raw)).Ok?
            && Prepare(s, n, a, CheckInput(s.f, a.schema, Pinned(a.rules, raw)).value) == Through(input)
            && KeepsAll(s.f, s.w.wording, a.rules, input)
            && !(a.needsLocalTime && s.world.asksTimezone(n))
            && !(a.requiresApproval && OnceKey(s, a, input) in done)
            && (AbilityWants(s.ctx, a) ==> GrantedBy(s, n, true, a, input))
            && (PersonWants(s.ctx, a) ==> GrantedBy(s, n, false, a, input))
            && CanSignIn(s, n, a)
  {
    var a := s.abilities[b];
    var gate := Admit(s, journal, done, n, a, raw);
    if gate.Through? { SentExactly(s, n, a, gate.input); }
  }

  lemma SentExactly(s: Setup, n: nat, a: Ability, input: Args)
    ensures Approved(s, n, a, input).sent.Some? <==>
            && (AbilityWants(s.ctx, a) ==> GrantedBy(s, n, true, a, input))
            && (PersonWants(s.ctx, a) ==> GrantedBy(s, n, false, a, input))
            && CanSignIn(s, n, a)
    ensures Approved(s, n, a, input).sent.Some? ==> Approved(s, n, a, input).sent.value.input == input
  {
  }
}
