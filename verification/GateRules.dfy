/** domain/tool_rule.go: the rules a creator sets on how an agent may use an ability. */
module GateRules {
  import opened Values
  import opened InputContract

  /** fmt.Sprint and strings.EqualFold. */
  datatype Wording = Wording(shown: Value -> string, sameFold: (string, string) -> bool)

  datatype Limit =
    | Max(limit: real)
    | Min(limit: real)
    | OneOf(values: seq<Value>)
    | NoneOf(values: seq<Value>)
    | MaxProduct(other: string, limit: real)
    | Fixed(value: Value)
    | Default(value: Value)

  datatype Rule = Rule(tool: string, input: string, kind: Limit)

  // ── Values ──────────────────────────────────────────────────────────────────

  /** toNumber: as the input check reads a number, but for json.Number. */
  function ToNumber(f: Formats, v: Value): Option<real> {
    if v.Numeral? then None else NumberOf(f, v)
  }

  predicate SameValue(f: Formats, w: Wording, a: Value, b: Value) {
    if ToNumber(f, a).Some? && ToNumber(f, b).Some? then ToNumber(f, a) == ToNumber(f, b)
    else if a.Flag? then a == b
    else w.sameFold(Trim(w.shown(a)), Trim(w.shown(b)))
  }

  method ValueIn(f: Formats, w: Wording, items: seq<Value>, v: Value) returns (found: bool)
    ensures found <==> exists k :: 0 <= k < |items| && SameValue(f, w, items[k], v)
  {
    for i := 0 to |items|
      invariant forall k :: 0 <= k < i ==> !SameValue(f, w, items[k], v)
    {
      if SameValue(f, w, items[i], v) { return true; }
    }
    return false;
  }

  function Abs(r: real): real {
    if r < 0.0 then -r else r
  }

  /** How far a product may come over its limit. */
  function Slack(limit: real): real {
    0.000000001 * if Abs(limit) > 1.0 then Abs(limit) else 1.0
  }

  function Get(input: Args, name: string): Value {
    if name in input then input[name] else Null
  }

  // ── Limits ──────────────────────────────────────────────────────────────────

  /** A call keeps a rule. What is not given, or null, breaks no limit on it alone; a product needs both numbers. */
  predicate Keeps(f: Formats, w: Wording, r: Rule, input: Args) {
    var v := Get(input, r.input);
    match r.kind
    case Max(limit) => ToNumber(f, v).Some? ==> ToNumber(f, v).value <= limit
    case Min(limit) => ToNumber(f, v).Some? ==> ToNumber(f, v).value >= limit
    case OneOf(values) => v.Null? || exists k :: 0 <= k < |values| && SameValue(f, w, values[k], v)
    case NoneOf(values) => v.Null? || !exists k :: 0 <= k < |values| && SameValue(f, w, values[k], v)
    case MaxProduct(other, limit) =>
      var a, b := ToNumber(f, v), ToNumber(f, Get(input, other));
      a.Some? && b.Some? && a.value * b.value <= limit + Slack(limit)
    case Fixed(_) => true
    case Default(_) => true
  }

  predicate KeepsAll(f: Formats, w: Wording, rules: seq<Rule>, input: Args) {
    forall r :: r in rules ==> Keeps(f, w, r, input)
  }

  predicate BreaksProduct(f: Formats, r: Rule, input: Args)
    requires r.kind.MaxProduct?
  {
    var a, b := ToNumber(f, Get(input, r.input)), ToNumber(f, Get(input, r.kind.other));
    a.None? || b.None? || a.value * b.value - r.kind.limit > Slack(r.kind.limit)
  }

  /** breaks: the first rule a call breaks. */
  method Breaks(f: Formats, w: Wording, rules: seq<Rule>, input: Args) returns (broken: Option<nat>)
    ensures broken.None? <==> KeepsAll(f, w, rules, input)
    ensures broken.Some? ==> broken.value < |rules| && !Keeps(f, w, rules[broken.value], input)
                             && KeepsAll(f, w, rules[..broken.value], input)
  {
    for i := 0 to |rules|
      invariant KeepsAll(f, w, rules[..i], input)
    {
      var r := rules[i];
      var breaks := false;
      if r.kind.MaxProduct? {
        breaks := BreaksProduct(f, r, input);
      } else if r.input in input && !input[r.input].Null? {
        var v := input[r.input];
        match r.kind
        case Max(limit) =>
          var n := ToNumber(f, v);
          breaks := n.Some? && n.value > limit;
        case Min(limit) =>
          var n := ToNumber(f, v);
          breaks := n.Some? && n.value < limit;
        case OneOf(values) =>
          var found := ValueIn(f, w, values, v);
          breaks := !found;
        case NoneOf(values) =>
          breaks := ValueIn(f, w, values, v);
        case Fixed(_) =>
        case Default(_) =>
      }
      assert breaks <==> !Keeps(f, w, r, input);
      if breaks { return Some(i); }
      assert rules[..i + 1] == rules[..i] + [r];
    }
    assert rules[..|rules|] == rules;
    return None;
  }

  // ── Fixed and default values ────────────────────────────────────────────────

  /** v == nil || v == "". */
  predicate Blank(input: Args, name: string) {
    Get(input, name).Null? || Get(input, name) == Text("")
  }

  function Pin(r: Rule, input: Args): Args {
    match r.kind
    case Fixed(v) => input[r.input := v]
    case Default(v) => if Blank(input, r.input) then input[r.input := v] else input
    case Max(_) => input
    case Min(_) => input
    case OneOf(_) => input
    case NoneOf(_) => input
    case MaxProduct(_, _) => input
  }

  predicate IsPin(r: Rule) {
    r.kind.Fixed? || r.kind.Default?
  }

  function Pinned(rules: seq<Rule>, input: Args): Args {
    if rules == [] then input else Pin(rules[|rules| - 1], Pinned(rules[..|rules| - 1], input))
  }

  method ApplyPins(rules: seq<Rule>, input: Args) returns (out: Args)
    ensures out == Pinned(rules, input)
  {
    var pinned := false;
    for i := 0 to |rules|
      invariant pinned <==> exists k :: 0 <= k < i && IsPin(rules[k])
    {
      if IsPin(rules[i]) { pinned := true; }
    }
    if !pinned {
      NothingPinned(rules, input);
      return input;
    }
    out := input;
    for i := 0 to |rules|
      invariant out == Pinned(rules[..i], input)
    {
      assert rules[..i + 1][..i] == rules[..i];
      match rules[i].kind
      case Fixed(v) => out := out[rules[i].input := v];
      case Default(v) => if Blank(out, rules[i].input) { out := out[rules[i].input := v]; }
      case Max(_) =>
      case Min(_) =>
      case OneOf(_) =>
      case NoneOf(_) =>
      case MaxProduct(_, _) =>
    }
    assert rules[..|rules|] == rules;
  }

  lemma {:induction false} NothingPinned(rules: seq<Rule>, input: Args)
    requires forall k :: 0 <= k < |rules| ==> !IsPin(rules[k])
    ensures Pinned(rules, input) == input
  {
    if rules != [] { NothingPinned(rules[..|rules| - 1], input); }
  }

  /** An input that no rule pins is as the call gave it. */
  lemma {:induction false} UnpinnedStays(rules: seq<Rule>, input: Args, name: string)
    requires forall k :: 0 <= k < |rules| && IsPin(rules[k]) ==> rules[k].input != name
    ensures name in Pinned(rules, input) <==> name in input
    ensures name in input ==> Pinned(rules, input)[name] == input[name]
  {
    if rules != [] { UnpinnedStays(rules[..|rules| - 1], input, name); }
  }

  predicate Carries(input: Args, r: Rule) {
    r.kind.Fixed? ==> r.input in input && input[r.input] == r.kind.value
  }

  predicate CarriesFixed(rules: seq<Rule>, input: Args) {
    forall r {:trigger Carries(input, r)} :: r in rules ==> Carries(input, r)
  }

  /** One set of rules pins each input once at most: what NormalizeRules sees to. */
  predicate OnePinEach(rules: seq<Rule>) {
    forall i, j :: 0 <= i < j < |rules| && IsPin(rules[i]) && IsPin(rules[j]) ==> rules[i].input != rules[j].input
  }

  /** A later pin on the same input does not change what an earlier one fixed. */
  predicate Agrees(early: Rule, late: Rule) {
    early.kind.Fixed? && IsPin(late) && late.input == early.input ==>
      late.kind.value == early.kind.value
      || (late.kind.Default? && !early.kind.value.Null? && early.kind.value != Text(""))
  }

  /** The agent's rules for an ability with those of the capability behind them: what the agent fixed stays fixed. */
  predicate PinsAgree(agent: seq<Rule>, skill: seq<Rule>) {
    forall early, late :: early in agent && late in skill ==> Agrees(early, late)
  }

  /** With one pin for each input, the pinned value of an input is what its pin makes of the call's own. */
  lemma {:induction false} PinnedOnce(rules: seq<Rule>, input: Args, k: nat)
    requires OnePinEach(rules) && k < |rules| && IsPin(rules[k])
    ensures rules[k].input in Pinned(rules, input)
    ensures var name, kind := rules[k].input, rules[k].kind;
            Pinned(rules, input)[name] ==
            if kind.Fixed? || name !in input || input[name] == Null || input[name] == Text("") then kind.value
            else input[name]
  {
    var n := |rules| - 1;
    if k < n {
      PinnedOnce(rules[..n], input, k);
    } else {
      UnpinnedStays(rules[..n], input, rules[k].input);
    }
  }

  lemma {:induction false} PinnedInTurn(first: seq<Rule>, after: seq<Rule>, input: Args)
    ensures Pinned(first + after, input) == Pinned(after, Pinned(first, input))
    decreases |after|
  {
    if after == [] {
      assert first + after == first;
    } else {
      var n := |after| - 1;
      assert (first + after)[..|first| + n] == first + after[..n];
      PinnedInTurn(first, after[..n], input);
    }
  }

  lemma FixedByTheSkill(agent: seq<Rule>, skill: seq<Rule>, input: Args, r: Rule)
    requires OnePinEach(skill) && r in skill
    ensures Carries(Pinned(agent + skill, input), r)
  {
    PinnedInTurn(agent, skill, input);
    var k :| 0 <= k < |skill| && skill[k] == r;
    if r.kind.Fixed? { PinnedOnce(skill, Pinned(agent, input), k); }
  }

  lemma FixedByTheAgent(agent: seq<Rule>, skill: seq<Rule>, input: Args, r: Rule)
    requires OnePinEach(agent) && OnePinEach(skill) && PinsAgree(agent, skill) && r in agent
    ensures Carries(Pinned(agent + skill, input), r)
  {
    PinnedInTurn(agent, skill, input);
    var i :| 0 <= i < |agent| && agent[i] == r;
    if r.kind.Fixed? {
      var mid := Pinned(agent, input);
      PinnedOnce(agent, input, i);
      if k :| 0 <= k < |skill| && IsPin(skill[k]) && skill[k].input == r.input {
        assert Agrees(r, skill[k]);
        PinnedOnce(skill, mid, k);
      } else {
        UnpinnedStays(skill, mid, r.input);
      }
    }
  }

  /** A pin of the capability that does not agree with what the agent fixed takes its place. */
  lemma FixedIsLost(agent: seq<Rule>, skill: seq<Rule>, early: Rule, late: Rule, input: Args)
    requires OnePinEach(agent) && OnePinEach(skill) && early in agent && late in skill && !Agrees(early, late)
    ensures !Carries(Pinned(agent + skill, input), early)
  {
    PinnedInTurn(agent, skill, input);
    var i :| 0 <= i < |agent| && agent[i] == early;
    var k :| 0 <= k < |skill| && skill[k] == late;
    PinnedOnce(agent, input, i);
    PinnedOnce(skill, Pinned(agent, input), k);
  }

  /** Every fixed value is carried, whatever the call gives, exactly when the two sets of pins agree. */
  lemma FixedCarriedExactly(agent: seq<Rule>, skill: seq<Rule>)
    requires OnePinEach(agent) && OnePinEach(skill)
    ensures PinsAgree(agent, skill) <==> forall input :: CarriesFixed(agent + skill, Pinned(agent + skill, input))
  {
    if PinsAgree(agent, skill) {
      forall input ensures CarriesFixed(agent + skill, Pinned(agent + skill, input)) {
        forall r | r in agent + skill ensures Carries(Pinned(agent + skill, input), r) {
          if r in skill { FixedByTheSkill(agent, skill, input, r); } else { FixedByTheAgent(agent, skill, input, r); }
        }
      }
    } else {
      var early, late :| early in agent && late in skill && !Agrees(early, late);
      FixedIsLost(agent, skill, early, late, map[]);
      assert early in agent + skill;
      assert !CarriesFixed(agent + skill, Pinned(agent + skill, map[]));
    }
  }

  /** The agent fixes an amount at 1, the capability at 2: what is sent carries 2. */
  lemma TwoFixedAmounts()
    ensures var agent, skill := [Rule("pay", "amount", Fixed(Float(1.0)))], [Rule("pay", "amount", Fixed(Float(2.0)))];
            OnePinEach(agent) && OnePinEach(skill) && !CarriesFixed(agent + skill, Pinned(agent + skill, map[]))
  {
    var agent, skill := [Rule("pay", "amount", Fixed(Float(1.0)))], [Rule("pay", "amount", Fixed(Float(2.0)))];
    assert !Agrees(agent[0], skill[0]);
    FixedIsLost(agent, skill, agent[0], skill[0], map[]);
    assert agent[0] in agent + skill;
  }
}
