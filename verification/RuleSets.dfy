/** domain/tool_rule.go: a creator's rules are taken, in canonical form, only when they can all hold. */
module RuleSets {
  import opened Values
  import opened InputContract
  import opened InputPromises
  import opened GateRules

  const MAX_RULE_VALUES := 50
  const MAX_RULES_PER_TOOL := 20

  datatype RuleKind = IsMax | IsMin | IsOneOf | IsNoneOf | IsMaxProduct | IsFixed | IsDefault | IsUnknown

  /** A rule as the creator gave it. Its message is only looked at for its length. */
  datatype RawRule = RawRule(tool: string, input: string, other: string, kind: RuleKind, value: Value,
                             messageTooLong: bool)

  /** The details of an ability a limit may be set on: what the model gives, and what the prepare step works out. */
  datatype Details = Details(properties: map<string, Schema>, prepared: map<string, Schema>)

  function Detail(d: Details, name: string): Option<Schema> {
    if name in d.properties then Some(d.properties[name])
    else if name in d.prepared then Some(d.prepared[name]) else None
  }

  predicate IsNumeric(s: Schema) {
    s.kind == Number || s.kind == Integer
  }

  predicate IsScalar(s: Schema) {
    s.kind == String || s.kind == Boolean || IsNumeric(s)
  }

  function CheckRuleValue(f: Formats, prop: Schema, v: Value): Option<Value> {
    if !IsScalar(prop) then None
    else match Check(f, prop, v) case Ok(cv) => Some(cv) case Bad(_) => None
  }

  predicate EnumHas(f: Formats, w: Wording, options: seq<string>, v: Value) {
    exists k :: 0 <= k < |options| && SameValue(f, w, Text(options[k]), v)
  }

  predicate IsAnOption(f: Formats, w: Wording, prop: Schema, v: Value) {
    prop.options == [] || EnumHas(f, w, prop.options, v)
  }

  /** The values of a list, each in the input's own type; none when one of them cannot be. */
  function Canonical(f: Formats, w: Wording, prop: Schema, values: seq<Value>, only: bool): Option<seq<Value>> {
    if values == [] then Some([])
    else
      var last := |values| - 1;
      var rest, cv := Canonical(f, w, prop, values[..last], only), CheckRuleValue(f, prop, values[last]);
      if rest.None? || cv.None? || (only && !IsAnOption(f, w, prop, cv.value)) then None
      else Some(rest.value + [cv.value])
  }

  function ListOf(v: Value): Option<seq<Value>> {
    match v
    case List(items) => Some(items)
    case Slice(elems) => if forall e :: e in elems ==> e.Text? then Some(elems) else None
    case Null | Text(_) | Flag(_) | Float(_) | Single(_) | NonFinite(_) | Whole(_) | Numeral(_) | Obj(_) => None
  }

  /** NormalizeRule. */
  function NormalizeRule(f: Formats, w: Wording, r: RawRule, tools: map<string, Details>): Option<Rule> {
    if r.tool !in tools || r.messageTooLong then None
    else
      var input := Trim(r.input);
      match Detail(tools[r.tool], input)
      case None => None
      case Some(prop) => match LimitOf(f, w, r, tools[r.tool], input, prop)
        case None => None
        case Some(kind) => Some(Rule(r.tool, input, kind))
  }

  function LimitOf(f: Formats, w: Wording, r: RawRule, d: Details, input: string, prop: Schema): Option<Limit> {
    match r.kind
    case IsMaxProduct => ProductOf(f, d, input, prop, Trim(r.other), ToNumber(f, r.value))
    case IsMax => if IsNumeric(prop) && ToNumber(f, r.value).Some? then Some(Max(ToNumber(f, r.value).value)) else None
    case IsMin => if IsNumeric(prop) && ToNumber(f, r.value).Some? then Some(Min(ToNumber(f, r.value).value)) else None
    case IsOneOf => (match ValuesOf(f, w, r, prop, true) case None => None case Some(vs) => Some(OneOf(vs)))
    case IsNoneOf => (match ValuesOf(f, w, r, prop, false) case None => None case Some(vs) => Some(NoneOf(vs)))
    case IsFixed => (match PinOf(f, w, r, prop) case None => None case Some(v) => Some(Fixed(v)))
    case IsDefault => (match PinOf(f, w, r, prop) case None => None case Some(v) => Some(Default(v)))
    case IsUnknown => None
  }

  function ProductOf(f: Formats, d: Details, input: string, prop: Schema, other: string,
                     n: Option<real>): Option<Limit> {
    if Detail(d, other).None? || other == input || !IsNumeric(prop) || !IsNumeric(Detail(d, other).value) then None
    else if n.Some? && n.value > 0.0 then Some(MaxProduct(other, n.value)) else None
  }

  function ValuesOf(f: Formats, w: Wording, r: RawRule, prop: Schema, only: bool): Option<seq<Value>> {
    var list := ListOf(r.value);
    if list.None? || list.value == [] || |list.value| > MAX_RULE_VALUES then None
    else Canonical(f, w, prop, list.value, only)
  }

  function PinOf(f: Formats, w: Wording, r: RawRule, prop: Schema): Option<Value> {
    var cv := CheckRuleValue(f, prop, r.value);
    if cv.None? || !IsAnOption(f, w, prop, cv.value) then None else cv
  }

  // ── Rules that can all hold ─────────────────────────────────────────────────

  /** Two rules that say the same kind of thing of the same detail. */
  predicate Clash(a: Rule, b: Rule) {
    && a.tool == b.tool
    && match a.kind
       case Max(_) => b.kind.Max? && b.input == a.input
       case Min(_) => b.kind.Min? && b.input == a.input
       case Fixed(_) => IsPin(b) && b.input == a.input
       case Default(_) => IsPin(b) && b.input == a.input
       case MaxProduct(other, _) =>
         b.kind.MaxProduct? &&
         ((b.input == a.input && b.kind.other == other) || (b.input == other && b.kind.other == a.input))
       case OneOf(_) => false
       case NoneOf(_) => false
  }

  predicate Apart(rules: seq<Rule>) {
    forall i, j :: 0 <= i < j < |rules| ==> !Clash(rules[i], rules[j])
  }

  function Count(rules: seq<Rule>, tool: string): nat {
    if rules == [] then 0
    else Count(rules[..|rules| - 1], tool) + if rules[|rules| - 1].tool == tool then 1 else 0
  }

  ghost predicate NotTooMany(rules: seq<Rule>) {
    forall tool :: Count(rules, tool) <= MAX_RULES_PER_TOOL
  }

  /** No smallest allowed is bigger than the largest allowed. */
  predicate InOrder(rules: seq<Rule>) {
    forall a, b :: a in rules && b in rules && a.kind.Max? && b.kind.Min? && a.tool == b.tool && a.input == b.input ==>
      b.kind.limit <= a.kind.limit
  }

  ghost predicate Coherent(rules: seq<Rule>) {
    Apart(rules) && NotTooMany(rules) && InOrder(rules)
  }

  predicate AllFit(f: Formats, w: Wording, raw: seq<RawRule>, tools: map<string, Details>) {
    forall i :: 0 <= i < |raw| ==> NormalizeRule(f, w, raw[i], tools).Some?
  }

  function Canon(f: Formats, w: Wording, raw: seq<RawRule>, tools: map<string, Details>): (rules: seq<Rule>)
    requires AllFit(f, w, raw, tools)
    ensures |rules| == |raw|
    ensures forall i :: 0 <= i < |raw| ==> Some(rules[i]) == NormalizeRule(f, w, raw[i], tools)
  {
    if raw == [] then []
    else Canon(f, w, raw[..|raw| - 1], tools) + [NormalizeRule(f, w, raw[|raw| - 1], tools).value]
  }

  /** What NormalizeRules takes. */
  ghost predicate Taken(f: Formats, w: Wording, raw: seq<RawRule>, tools: map<string, Details>) {
    AllFit(f, w, raw, tools) && Coherent(Canon(f, w, raw, tools))
  }

  // ── The set as it is built ──────────────────────────────────────────────────

  datatype Slot = Slot(tool: string, input: string)

  function SlotOf(r: Rule): Slot {
    Slot(r.tool, r.input)
  }

  datatype Pair = Pair(tool: string, a: string, b: string)

  /** What was seen of the rules so far. */
  datatype Seen = Seen(
    perTool: map<string, nat>, pinned: set<Slot>, products: set<Pair>, maxes: map<Slot, real>, mins: map<Slot, real>)

  function PerTool(seen: Seen, tool: string): nat {
    if tool in seen.perTool then seen.perTool[tool] else 0
  }

  predicate Dup(seen: Seen, n: Rule) {
    match n.kind
    case Fixed(_) => SlotOf(n) in seen.pinned
    case Default(_) => SlotOf(n) in seen.pinned
    case MaxProduct(other, _) => Pair(n.tool, n.input, other) in seen.products ||
                                 Pair(n.tool, other, n.input) in seen.products
    case Max(_) => SlotOf(n) in seen.maxes
    case Min(_) => SlotOf(n) in seen.mins
    case OneOf(_) => false
    case NoneOf(_) => false
  }

  function Note(seen: Seen, n: Rule): Seen {
    var counted := seen.(perTool := seen.perTool[n.tool := PerTool(seen, n.tool) + 1]);
    match n.kind
    case Fixed(_) => counted.(pinned := seen.pinned + {SlotOf(n)})
    case Default(_) => counted.(pinned := seen.pinned + {SlotOf(n)})
    case MaxProduct(other, _) => counted.(products := seen.products + {Pair(n.tool, n.input, other)})
    case Max(limit) => counted.(maxes := seen.maxes[SlotOf(n) := limit])
    case Min(limit) => counted.(mins := seen.mins[SlotOf(n) := limit])
    case OneOf(_) => counted
    case NoneOf(_) => counted
  }

  /** seen is what there is to see of these rules. */
  ghost predicate Describes(seen: Seen, rules: seq<Rule>) {
    && (forall tool :: PerTool(seen, tool) == Count(rules, tool))
    && PinsSeen(seen.pinned, rules) && ProductsSeen(seen.products, rules)
    && Holds(seen.maxes, rules, true) && Holds(seen.mins, rules, false)
  }

  ghost predicate PinsSeen(pinned: set<Slot>, rules: seq<Rule>) {
    forall s :: s in pinned <==> exists r :: r in rules && IsPin(r) && SlotOf(r) == s
  }

  ghost predicate ProductsSeen(products: set<Pair>, rules: seq<Rule>) {
    forall p :: p in products <==>
      exists r :: r in rules && r.kind.MaxProduct? && Pair(r.tool, r.input, r.kind.other) == p
  }

  predicate IsLimit(r: Rule, max: bool) {
    if max then r.kind.Max? else r.kind.Min?
  }

  /** The limits of one kind, each under its slot. */
  ghost predicate Holds(limits: map<Slot, real>, rules: seq<Rule>, max: bool) {
    && (forall s :: s in limits ==>
        exists r :: r in rules && IsLimit(r, max) && SlotOf(r) == s && r.kind.limit == limits[s])
    && forall r :: r in rules && IsLimit(r, max) ==> SlotOf(r) in limits && limits[SlotOf(r)] == r.kind.limit
  }

  /** A rule is a repeat exactly when it clashes with one that was taken. */
  lemma DupExactly(seen: Seen, rules: seq<Rule>, n: Rule)
    requires Describes(seen, rules)
    ensures Dup(seen, n) <==> exists r :: r in rules && Clash(r, n)
  {
    if Dup(seen, n) {
      if n.kind.MaxProduct? && Pair(n.tool, n.input, n.kind.other) in seen.products {
        var r :| r in rules && r.kind.MaxProduct? &&
                 Pair(r.tool, r.input, r.kind.other) == Pair(n.tool, n.input, n.kind.other);
        assert Clash(r, n);
      } else if n.kind.MaxProduct? {
        var r :| r in rules && r.kind.MaxProduct? &&
                 Pair(r.tool, r.input, r.kind.other) == Pair(n.tool, n.kind.other, n.input);
        assert Clash(r, n);
      } else if IsPin(n) {
        var r :| r in rules && IsPin(r) && SlotOf(r) == SlotOf(n);
        assert Clash(r, n);
      } else {
        var r :| r in rules && IsLimit(r, n.kind.Max?) && SlotOf(r) == SlotOf(n);
        assert Clash(r, n);
      }
    }
  }

  lemma NotedHolds(limits: map<Slot, real>, rules: seq<Rule>, n: Rule, max: bool)
    requires Holds(limits, rules, max) && (IsLimit(n, max) ==> SlotOf(n) !in limits)
    ensures Holds(if IsLimit(n, max) then limits[SlotOf(n) := n.kind.limit] else limits, rules + [n], max)
  {
    var more := if IsLimit(n, max) then limits[SlotOf(n) := n.kind.limit] else limits;
    forall s | s in more
      ensures exists r :: r in rules + [n] && IsLimit(r, max) && SlotOf(r) == s && r.kind.limit == more[s]
    {
      if s in limits {
        var r :| r in rules && IsLimit(r, max) && SlotOf(r) == s && r.kind.limit == limits[s];
        assert r in rules + [n];
      } else {
        assert n in rules + [n];
      }
    }
  }

  lemma PinNoted(pinned: set<Slot>, rules: seq<Rule>, n: Rule)
    requires PinsSeen(pinned, rules)
    ensures PinsSeen(if IsPin(n) then pinned + {SlotOf(n)} else pinned, rules + [n])
  {
    var all, more := rules + [n], if IsPin(n) then pinned + {SlotOf(n)} else pinned;
    forall s ensures s in more <==> exists r :: r in all && IsPin(r) && SlotOf(r) == s {
      if s in pinned {
        var r :| r in rules && IsPin(r) && SlotOf(r) == s;
        assert r in all;
      } else if s in more {
        assert n in all;
      }
    }
  }

  lemma ProductNoted(products: set<Pair>, rules: seq<Rule>, n: Rule)
    requires ProductsSeen(products, rules)
    ensures ProductsSeen(if n.kind.MaxProduct? then products + {Pair(n.tool, n.input, n.kind.other)}
                         else products, rules + [n])
  {
    var all := rules + [n];
    var more := if n.kind.MaxProduct? then products + {Pair(n.tool, n.input, n.kind.other)} else products;
    forall p
      ensures p in more <==> exists r :: r in all && r.kind.MaxProduct? && Pair(r.tool, r.input, r.kind.other) == p
    {
      if p in products {
        var r :| r in rules && r.kind.MaxProduct? && Pair(r.tool, r.input, r.kind.other) == p;
        assert r in all;
      } else if p in more {
        assert n in all;
      }
    }
  }

  lemma NotedDescribes(seen: Seen, rules: seq<Rule>, n: Rule)
    requires Describes(seen, rules) && !Dup(seen, n)
    ensures Describes(Note(seen, n), rules + [n])
  {
    NotedHolds(seen.maxes, rules, n, true);
    NotedHolds(seen.mins, rules, n, false);
    PinNoted(seen.pinned, rules, n);
    ProductNoted(seen.products, rules, n);
    assert (rules + [n])[..|rules|] == rules;
  }

  // ── Taken exactly when they can all hold ────────────────────────────────────

  /** A set once apart stays so exactly when the next rule clashes with none of it. */
  lemma ApartOn(rules: seq<Rule>, n: Rule)
    requires Apart(rules)
    ensures Apart(rules + [n]) <==> !exists r :: r in rules && Clash(r, n)
  {
    var all := rules + [n];
    if r :| r in rules && Clash(r, n) {
      var i :| 0 <= i < |rules| && rules[i] == r;
      assert Clash(all[i], all[|rules|]);
    }
    if !exists r :: r in rules && Clash(r, n) {
      forall i, j | 0 <= i < j < |all| ensures !Clash(all[i], all[j]) {
        if j < |rules| { assert all[i] == rules[i] && all[j] == rules[j]; } else { assert rules[i] in rules; }
      }
    }
  }

  lemma {:induction false} CountGrows(rules: seq<Rule>, k: nat, tool: string)
    requires k <= |rules|
    ensures Count(rules[..k], tool) <= Count(rules, tool)
  {
    if k < |rules| {
      assert rules[..|rules| - 1][..k] == rules[..k];
      CountGrows(rules[..|rules| - 1], k, tool);
    } else {
      assert rules[..k] == rules;
    }
  }

  /** What can hold with more rules can hold without them. */
  lemma PrefixCoheres(rules: seq<Rule>, k: nat)
    requires k <= |rules| && Apart(rules) && NotTooMany(rules)
    ensures Apart(rules[..k]) && NotTooMany(rules[..k])
  {
    forall tool ensures Count(rules[..k], tool) <= MAX_RULES_PER_TOOL { CountGrows(rules, k, tool); }
  }

  lemma {:induction false} CanonAt(f: Formats, w: Wording, raw: seq<RawRule>, tools: map<string, Details>, k: nat)
    requires AllFit(f, w, raw, tools) && k <= |raw|
    ensures AllFit(f, w, raw[..k], tools)
    ensures Canon(f, w, raw[..k], tools) == Canon(f, w, raw, tools)[..k]
  {
    var some, all := Canon(f, w, raw[..k], tools), Canon(f, w, raw, tools);
    forall i | 0 <= i < k ensures some[i] == all[i] {
      assert Some(some[i]) == NormalizeRule(f, w, raw[..k][i], tools) &&
             Some(all[i]) == NormalizeRule(f, w, raw[i], tools);
    }
  }

  lemma CanonOn(f: Formats, w: Wording, raw: seq<RawRule>, tools: map<string, Details>, i: nat)
    requires i < |raw| && AllFit(f, w, raw[..i], tools) && NormalizeRule(f, w, raw[i], tools).Some?
    ensures AllFit(f, w, raw[..i + 1], tools)
    ensures Canon(f, w, raw[..i + 1], tools) == Canon(f, w, raw[..i], tools) +
              [NormalizeRule(f, w, raw[i], tools).value]
  {
    var more := raw[..i + 1];
    assert more[..i] == raw[..i];
    forall k | 0 <= k < |more| ensures NormalizeRule(f, w, more[k], tools).Some? {
      if k < i { assert more[k] == raw[..i][k]; }
    }
  }

  /** NormalizeRules. */
  method NormalizeRules(f: Formats, w: Wording, raw: seq<RawRule>, tools: map<string, Details>)
    returns (out: Option<seq<Rule>>)
    ensures out.Some? <==> Taken(f, w, raw, tools)
    ensures out.Some? ==> out.value == Canon(f, w, raw, tools)
  {
    var rules: seq<Rule> := [];
    var seen := Seen(map[], {}, {}, map[], map[]);
    for i := 0 to |raw|
      invariant AllFit(f, w, raw[..i], tools) && rules == Canon(f, w, raw[..i], tools)
      invariant Describes(seen, rules) && Apart(rules) && NotTooMany(rules)
    {
      var n := NormalizeRule(f, w, raw[i], tools);
      if n.None? { return None; }
      CanonOn(f, w, raw, tools, i);
      if PerTool(seen, n.value.tool) + 1 > MAX_RULES_PER_TOOL || Dup(seen, n.value) {
        Refused(f, w, raw, tools, i, seen, rules, n.value);
        return None;
      }
      TakenOn(seen, rules, n.value);
      seen := Note(seen, n.value);
      rules := rules + [n.value];
    }
    assert raw[..|raw|] == raw;
    var ok := LimitsInOrder(seen, rules);
    return if ok then Some(rules) else None;
  }

  method LimitsInOrder(seen: Seen, ghost rules: seq<Rule>) returns (ok: bool)
    requires Describes(seen, rules)
    ensures ok <==> InOrder(rules)
  {
    var todo := seen.maxes.Keys;
    while todo != {}
      invariant todo <= seen.maxes.Keys
      invariant forall s :: s in seen.maxes.Keys - todo && s in seen.mins ==> seen.mins[s] <= seen.maxes[s]
      decreases |todo|
    {
      var s :| s in todo;
      if s in seen.mins && seen.mins[s] > seen.maxes[s] {
        assert exists r :: r in rules && IsLimit(r, true) && SlotOf(r) == s && r.kind.limit == seen.maxes[s];
        assert exists r :: r in rules && IsLimit(r, false) && SlotOf(r) == s && r.kind.limit == seen.mins[s];
        return false;
      }
      todo := todo - {s};
    }
    return true;
  }

  lemma TakenOn(seen: Seen, rules: seq<Rule>, n: Rule)
    requires Describes(seen, rules) && Apart(rules) && NotTooMany(rules)
    requires !Dup(seen, n) && PerTool(seen, n.tool) < MAX_RULES_PER_TOOL
    ensures Describes(Note(seen, n), rules + [n]) && Apart(rules + [n]) && NotTooMany(rules + [n])
  {
    NotedDescribes(seen, rules, n);
    DupExactly(seen, rules, n);
    ApartOn(rules, n);
    assert (rules + [n])[..|rules|] == rules;
  }

  lemma Refused(f: Formats, w: Wording, raw: seq<RawRule>, tools: map<string, Details>, i: nat, seen: Seen,
                rules: seq<Rule>, n: Rule)
    requires i < |raw| && NormalizeRule(f, w, raw[i], tools) == Some(n)
    requires AllFit(f, w, raw[..i], tools) && rules == Canon(f, w, raw[..i], tools) && Describes(seen, rules)
    requires Apart(rules)
    requires Dup(seen, n) || PerTool(seen, n.tool) >= MAX_RULES_PER_TOOL
    ensures AllFit(f, w, raw, tools) ==> !Coherent(Canon(f, w, raw, tools))
  {
    OneTooMany(seen, rules, n);
    if AllFit(f, w, raw, tools) {
      BeginsWith(f, w, raw, tools, i);
      NotWithout(Canon(f, w, raw, tools), rules + [n], i + 1);
    }
  }

  lemma BeginsWith(f: Formats, w: Wording, raw: seq<RawRule>, tools: map<string, Details>, i: nat)
    requires i < |raw| && AllFit(f, w, raw, tools)
    ensures AllFit(f, w, raw[..i], tools) && |Canon(f, w, raw, tools)| == |raw|
    ensures Canon(f, w, raw, tools)[..i + 1] == Canon(f, w, raw[..i], tools) +
              [NormalizeRule(f, w, raw[i], tools).value]
  {
    CanonAt(f, w, raw, tools, i);
    CanonAt(f, w, raw, tools, i + 1);
    CanonOn(f, w, raw, tools, i);
  }

  lemma NotWithout(all: seq<Rule>, some: seq<Rule>, k: nat)
    requires k <= |all| && all[..k] == some && !(Apart(some) && NotTooMany(some))
    ensures !Coherent(all)
  {
    if Coherent(all) { PrefixCoheres(all, k); }
  }

  lemma OneTooMany(seen: Seen, rules: seq<Rule>, n: Rule)
    requires Describes(seen, rules) && Apart(rules) && (Dup(seen, n) || PerTool(seen, n.tool) >= MAX_RULES_PER_TOOL)
    ensures !(Apart(rules + [n]) && NotTooMany(rules + [n]))
  {
    DupExactly(seen, rules, n);
    ApartOn(rules, n);
    assert (rules + [n])[..|rules|] == rules;
    assert Count(rules + [n], n.tool) == Count(rules, n.tool) + 1;
  }

  // ── What the gates can rely on ──────────────────────────────────────────────

  /** RulesFor. */
  function RulesFor(rules: seq<Rule>, tool: string): (own: seq<Rule>)
    ensures forall r :: r in own <==> r in rules && r.tool == tool
  {
    if rules == [] then []
    else
      var last := rules[|rules| - 1];
      RulesFor(rules[..|rules| - 1], tool) + if last.tool == tool then [last] else []
  }

  /** Of the rules that were taken, those for one ability pin each input once at most. */
  lemma {:induction false} OnePinOfEach(rules: seq<Rule>, tool: string)
    requires Apart(rules)
    ensures OnePinEach(RulesFor(rules, tool))
  {
    if rules != [] {
      var n := |rules| - 1;
      OnePinOfEach(rules[..n], tool);
      var rest, last := RulesFor(rules[..n], tool), rules[n];
      if last.tool == tool {
        forall i | 0 <= i < |rest| && IsPin(rest[i]) && IsPin(last) ensures rest[i].input != last.input {
          assert rest[i] in rest;
          PinsApart(rules, n, rest[i]);
        }
        forall i, j | 0 <= i < j < |rest + [last]| && IsPin((rest + [last])[i]) && IsPin((rest + [last])[j])
          ensures (rest + [last])[i].input != (rest + [last])[j].input {}
      }
    }
  }

  lemma PinsApart(rules: seq<Rule>, n: nat, r: Rule)
    requires Apart(rules) && n < |rules| && r in rules[..n] && r.tool == rules[n].tool && IsPin(r) && IsPin(rules[n])
    ensures r.input != rules[n].input
  {
    var i :| 0 <= i < n && rules[i] == r;
    assert !Clash(rules[i], rules[n]);
  }

  /** A pinned value is one the input can take. */
  lemma PinFits(f: Formats, w: Wording, raw: RawRule, tools: map<string, Details>)
    requires NormalizeRule(f, w, raw, tools).Some? && IsPin(NormalizeRule(f, w, raw, tools).value)
    ensures var r := NormalizeRule(f, w, raw, tools).value;
            r.tool in tools && Detail(tools[r.tool], r.input).Some?
            && Conforms(Detail(tools[r.tool], r.input).value, r.kind.value) && !r.kind.value.Null?
  {
    var prop := Detail(tools[raw.tool], Trim(raw.input)).value;
    Sound(f, prop, raw.value);
  }
}
