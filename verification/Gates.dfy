/** What stands around every ability an agent can call (domain/hydrate.go, prerequisite.go, prepare.go, timezone.go):
    the gates a call goes through, from the outermost in, before the service behind it sees anything. */
module Gates {
  import opened Values
  import opened Outcome
  import opened InputContract
  import opened GateRules

  // ── An ability, the run it is called in, and the world outside ──────────────

  /** What must have run first in the same run, for the same values of some inputs, or any one of some look-ups. */
  datatype Prerequisite = First(tool: string, same: seq<string>) | AnyOf(tools: seq<string>)

  /** identity is the connection the ability runs with, if any: one that everybody shares a key for, or else one each
      person must have made themselves. */
  datatype Ability = Ability(
    tool: string, name: string, schema: Schema, rules: seq<Rule>, prerequisites: seq<Prerequisite>, readOnly: bool,
    requiresApproval: bool, onceFor: seq<string>, needsLocalTime: bool, prepares: bool, identity: Option<string>,
    sharedKey: bool)

  datatype Context = Context(
    unattended: bool, allowed: set<string>, canAsk: bool, inConversation: bool, approvals: set<string>,
    refs: map<string, string>, canConnect: bool)

  datatype Answer = Granted | Declined | NotAsked(error: string)

  datatype Preparation = Unaltered | Replaced(input: Args) | CannotPrepare(error: string)

  datatype Connection = SignedIn(ref: string) | NoSignIn(error: string)

  /** Everything that answers from outside, by the number of the call in the run: the prepare step, the person's time
      zone, the person approving (the ability's own gate, or their own), the person signing in, and the service. */
  datatype World = World(
    prepare: (nat, string, Args) -> Preparation, asksTimezone: nat -> bool, approve: (nat, bool, string) -> Answer,
    connect: nat -> Connection, serve: (nat, string, string, Args) -> Result)

  /** Text as Go makes it: fmt.Sprint and EqualFold, strings.ToUpper, json.Marshal, and an ability's approval prompt. */
  datatype Words = Words(wording: Wording, upper: string -> string, encode: Value -> string,
                         prompt: (string, Args) -> string)

  datatype Setup = Setup(f: Formats, w: Words, ctx: Context, world: World, abilities: map<nat, Ability>)

  // ── What a run leaves behind ────────────────────────────────────────────────

  datatype Ask = Ask(prompt: string, answer: Answer)

  datatype Sent = Sent(input: Args, result: Result)

  /** A call as it went: what was asked on the way, what the service was sent, and what the model was told. */
  datatype Call = Call(ability: nat, raw: Args, asks: seq<Ask>, sent: Option<Sent>, result: Result)

  datatype Entry = Entry(tool: string, input: Args)

  const REFUSED := Result(Obj(map["changed" := Flag(false)]), NoFault)
  const NOT_APPROVED := Result(Text(OUTPUT_NOT_APPROVED), NoFault)
  const SIGN_IN_PENDING := Result(Text(OUTPUT_AUTH_PENDING_PREFIX), NoFault)
  const TIMEZONE_PENDING := Result(Text(OUTPUT_TIMEZONE_PENDING_PREFIX), NoFault)
  const ALREADY_DONE := Result(Text("already completed"), NoFault)

  function Failure(error: string): Result {
    Result(Null, Failed(error))
  }

  // ── The inner gates: approvals and signing in ───────────────────────────────

  datatype Stage = Stage(asks: seq<Ask>, sent: Option<Sent>, result: Result)

  function Stopped(result: Result): Stage {
    Stage([], None, result)
  }

  predicate AgreedInAdvance(ctx: Context, a: Ability) {
    ctx.unattended && a.name in ctx.allowed
  }

  function Ref(ctx: Context, a: Ability): string {
    if a.identity.Some? && a.identity.value in ctx.refs then ctx.refs[a.identity.value] else ""
  }

  function Served(s: Setup, n: nat, a: Ability, ref: string, input: Args): Stage {
    var result := s.world.serve(n, a.tool, ref, input);
    Stage([], Some(Sent(input, result)), result)
  }

  /** withAuthGate, and the service behind it. */
  function SignIn(s: Setup, n: nat, a: Ability, input: Args): Stage {
    if a.identity.None? || a.sharedKey || Ref(s.ctx, a) != "" || !s.ctx.canConnect || !s.ctx.inConversation then
      Served(s, n, a, Ref(s.ctx, a), input)
    else match s.world.connect(n)
      case NoSignIn(error) => Stopped(Failure(error))
      case SignedIn(ref) => if ref == "" then Stopped(SIGN_IN_PENDING) else Served(s, n, a, ref, input)
  }

  /** One approval, on a prompt rendered from the input that would be sent. */
  function AskFirst(s: Setup, n: nat, own: bool, a: Ability, input: Args, inner: Stage): Stage {
    if !s.ctx.canAsk || !s.ctx.inConversation then Stopped(Failure("nobody to ask"))
    else
      var prompt := s.w.prompt(a.tool, input);
      var ask := Ask(prompt, s.world.approve(n, own, prompt));
      match ask.answer
      case Granted => inner.(asks := [ask] + inner.asks)
      case Declined => Stage([ask], None, NOT_APPROVED)
      case NotAsked(error) => Stage([ask], None, Failure(error))
  }

  predicate PersonWants(ctx: Context, a: Ability) {
    !a.readOnly && a.tool in ctx.approvals && !AgreedInAdvance(ctx, a)
  }

  predicate AbilityWants(ctx: Context, a: Ability) {
    a.requiresApproval && !AgreedInAdvance(ctx, a)
  }

  /** withUserApprovalGate. */
  function PersonApproves(s: Setup, n: nat, a: Ability, input: Args): Stage {
    if PersonWants(s.ctx, a) then AskFirst(s, n, false, a, input, SignIn(s, n, a, input)) else SignIn(s, n, a, input)
  }

  /** withApprovalGate. */
  function Approved(s: Setup, n: nat, a: Ability, input: Args): Stage {
    if AbilityWants(s.ctx, a) then AskFirst(s, n, true, a, input, PersonApproves(s, n, a, input))
    else PersonApproves(s, n, a, input)
  }

  // ── The outer gates: what must come first, the input, the rules, once only ──

  predicate SameNumber(f: Formats, a: Value, b: Value) {
    if a.NonFinite? || b.NonFinite? then a == b && a != NonFinite("NaN") else NumberOf(f, a) == NumberOf(f, b)
  }

  /** numberOfValue: text is no number here. */
  predicate IsNumber(f: Formats, v: Value) {
    v.NonFinite? || (!v.Text? && NumberOf(f, v).Some?)
  }

  /** sameInput. */
  predicate SameInput(f: Formats, w: Words, a: Value, b: Value) {
    if a.Null? || b.Null? then a == b
    else if a.Text? && b.Text? then w.wording.sameFold(Trim(a.s), Trim(b.s))
    else if IsNumber(f, a) && IsNumber(f, b) then SameNumber(f, a, b)
    else w.encode(a) == w.encode(b)
  }

  predicate AllSame(s: Setup, same: seq<string>, a: Args, b: Args) {
    forall name :: name in same ==> SameInput(s.f, s.w, Get(a, name), Get(b, name))
  }

  predicate Ran(s: Setup, journal: seq<Entry>, tool: string, same: seq<string>, input: Args) {
    exists e :: e in journal && e.tool == tool && AllSame(s, same, e.input, input)
  }

  predicate Met(s: Setup, journal: seq<Entry>, p: Prerequisite, raw: Args) {
    match p
    case First(tool, same) => Ran(s, journal, tool, same, raw)
    case AnyOf(tools) => s.ctx.unattended || exists tool :: tool in tools && Ran(s, journal, tool, [], raw)
  }

  predicate AllMet(s: Setup, journal: seq<Entry>, a: Ability, raw: Args) {
    forall p :: p in a.prerequisites ==> Met(s, journal, p, raw)
  }

  function KeyPart(s: Setup, input: Args, name: string): string {
    s.w.upper(Trim(s.w.wording.shown(Get(input, name))))
  }

  function Joined(s: Setup, names: seq<string>, input: Args): string {
    if names == [] then ""
    else if |names| == 1 then KeyPart(s, input, names[0])
    else Joined(s, names[..|names| - 1], input) + [31 as char] + KeyPart(s, input, names[|names| - 1])
  }

  /** onceKey: which thing a call acts on. */
  function OnceKey(s: Setup, a: Ability, input: Args): string {
    Joined(s, a.onceFor, input)
  }

  /** saysItFailed: a result without an error that still says it did not work. */
  predicate SaysItFailed(s: Setup, output: Value) {
    output.Obj? &&
    (|| Lower(s.w.wording.shown(Get(output.fields, "status"))) in {"error", "failed", "failure", "refused", "denied"}
     || Get(output.fields, "ok") == Flag(false)
     || Trim(StringField(output.fields, "error")) != "")
  }

  predicate WentThrough(call: Call) {
    call.sent.Some? && OutcomeOf(call.sent.value.result).done
  }

  predicate Journaled(s: Setup, call: Call) {
    WentThrough(call) && !SaysItFailed(s, call.sent.value.result.output)
  }
}
