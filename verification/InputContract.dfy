/** domain/input_contract.go: what a model sends is turned into what a tool's schema declares, or turned back. */
module InputContract {
  import opened Values

  datatype Kind = String | Number | Integer | Boolean | Array | Object | Other

  datatype Schema = Schema(
    kind: Kind, properties: map<string, Schema>, items: Option<Schema>, required: seq<string>, options: seq<string>)

  /** strconv, as far as the check uses it. A number that is not finite is parsed without an error; one out of range is
      an error. */
  datatype Parsed = Finite(r: real) | Unbounded | Unreadable

  datatype Formats = Formats(
    parse: string -> Parsed, toFloat: int -> real, formatFloat: real -> string, formatInt: int -> string)

  // ── What went wrong ─────────────────────────────────────────────────────────

  datatype Fault =
    | NotText
    | NotAnOption(got: string)
    | NotANumber
    | NotWhole
    | NotTrueOrFalse
    | NotAList
    | NotAnObject
    | Item(at: nat, why: Fault)
    | Inside(problems: set<Problem>)

  datatype Problem = Wrong(name: string, why: Fault) | Missing(name: string)

  datatype Checked<T> = Ok(value: T) | Bad(why: Fault)

  // ── One value ───────────────────────────────────────────────────────────────

  function LowerLetter(c: char): char {
    if 'A' <= c <= 'Z' then c + 32 as char else c
  }

  /** strings.ToLower, on the letters a word is compared by. */
  function Lower(s: string): string {
    if s == "" then "" else [LowerLetter(s[0])] + Lower(s[1..])
  }

  function TextOf(f: Formats, v: Value): Option<string> {
    match v
    case Text(s) => Some(s)
    case Flag(b) => Some(if b then "true" else "false")
    case Float(r) => Some(f.formatFloat(r))
    case NonFinite(name) => Some(name)
    case Whole(n) => Some(f.formatInt(n))
    case Numeral(digits) => Some(digits)
    case Null | Single(_) | List(_) | Slice(_) | Obj(_) => None
  }

  function NumberOf(f: Formats, v: Value): Option<real> {
    match v
    case Float(r) => Some(r)
    case Single(r) => Some(r)
    case Whole(n) => Some(f.toFloat(n))
    case Numeral(digits) => FiniteOf(f.parse(digits))
    case Text(s) => FiniteOf(f.parse(Trim(s)))
    case Null | Flag(_) | NonFinite(_) | List(_) | Slice(_) | Obj(_) => None
  }

  function FiniteOf(p: Parsed): Option<real> {
    if p.Finite? then Some(p.r) else None
  }

  function FlagOf(v: Value): Option<bool> {
    match v
    case Flag(b) => Some(b)
    case Text(s) =>
      var word := Lower(Trim(s));
      if word == "true" then Some(true) else if word == "false" then Some(false) else None
    case Null | Float(_) | Single(_) | NonFinite(_) | Whole(_) | Numeral(_) | List(_) | Slice(_) | Obj(_) => None
  }

  function ItemsOf(v: Value): Option<seq<Value>> {
    match v
    case List(items) => Some(items)
    case Slice(elems) => Some(elems)
    case Null | Text(_) | Flag(_) | Float(_) | Single(_) | NonFinite(_) | Whole(_) | Numeral(_) | Obj(_) => None
  }

  predicate IsWhole(r: real) {
    r == r.Floor as real
  }

  function CheckText(f: Formats, options: seq<string>, v: Value): Checked<Value> {
    match TextOf(f, v)
    case None => Bad(NotText)
    case Some(s) => if options != [] && s !in options then Bad(NotAnOption(s)) else Ok(Text(s))
  }

  function CheckNumber(f: Formats, whole: bool, v: Value): Checked<Value> {
    match NumberOf(f, v)
    case None => Bad(NotANumber)
    case Some(r) => if whole && !IsWhole(r) then Bad(NotWhole) else Ok(Float(r))
  }

  function CheckFlag(v: Value): Checked<Value> {
    match FlagOf(v)
    case None => Bad(NotTrueOrFalse)
    case Some(b) => Ok(Flag(b))
  }

  /** check. */
  function Check(f: Formats, s: Schema, v: Value): Checked<Value>
    decreases s, 3
  {
    match s.kind
    case String => CheckText(f, s.options, v)
    case Number => CheckNumber(f, false, v)
    case Integer => CheckNumber(f, true, v)
    case Boolean => CheckFlag(v)
    case Array =>
      (match ItemsOf(v)
       case None => Bad(NotAList)
       case Some(items) =>
         match s.items
         case None => Ok(List(items))
         case Some(each) => (match CheckItems(f, each, items, 0) case Ok(out) => Ok(List(out))
                              case Bad(why) => Bad(why)))
    case Object =>
      if !v.Obj? then Bad(NotAnObject)
      else if s.properties.Keys == {} && s.required == [] then Ok(v)
      else if Problems(f, s, v.fields) != {} then Bad(Inside(Problems(f, s, v.fields)))
      else Ok(Obj(Kept(f, s, v.fields)))
    case Other => Ok(v)
  }

  /** The items from at on: the first that does not fit is the fault. */
  function CheckItems(f: Formats, s: Schema, items: seq<Value>, at: nat): (r: Checked<seq<Value>>)
    ensures r.Ok? ==> |r.value| == |items|
    decreases s, 4, |items|
  {
    if items == [] then Ok([])
    else match Check(f, s, items[0])
      case Bad(why) => Bad(Item(at + 1, why))
      case Ok(v) => match CheckItems(f, s, items[1..], at + 1) case Ok(rest) => Ok([v] + rest) case Bad(why) => Bad(why)
  }

  /** An input the schema declares and the call gives. */
  predicate Given(s: Schema, input: Args, name: string) {
    name in s.properties && name in input && !input[name].Null?
  }

  predicate Dropped(s: Schema, input: Args, name: string) {
    name in s.properties && name in input && input[name].Null?
  }

  function Converted(f: Formats, s: Schema, input: Args, name: string): Value
    requires name in input
    decreases s, 0
  {
    if name in s.properties then
      match Check(f, s.properties[name], input[name]) case Ok(v) => v case Bad(_) => input[name]
    else input[name]
  }

  /** What is left of an input: declared nulls dropped, declared values converted, the rest untouched. */
  function Kept(f: Formats, s: Schema, input: Args): Args
    decreases s, 1
  {
    map name | name in input && !Dropped(s, input, name) :: Converted(f, s, input, name)
  }

  predicate Faulty(f: Formats, s: Schema, input: Args, name: string)
    decreases s, 0
  {
    Given(s, input, name) && Check(f, s.properties[name], input[name]).Bad?
  }

  function FaultOf(f: Formats, s: Schema, input: Args, name: string): Fault
    requires Faulty(f, s, input, name)
    decreases s, 1
  {
    Check(f, s.properties[name], input[name]).why
  }

  predicate Lacks(kept: Args, name: string) {
    name !in kept || kept[name].Null? || kept[name] == Text("")
  }

  function Problems(f: Formats, s: Schema, input: Args): set<Problem>
    decreases s, 2
  {
    (set name | name in s.properties.Keys && Faulty(f, s, input, name) :: Wrong(name, FaultOf(f, s, input, name)))
    + (set name | name in s.required && Lacks(Kept(f, s, input), name) && !Faulty(f, s, input, name) :: Missing(name))
  }

  /** CheckInput. */
  function CheckInput(f: Formats, s: Schema, input: Args): Checked<Args> {
    if Problems(f, s, input) != {} then Bad(Inside(Problems(f, s, input))) else Ok(Kept(f, s, input))
  }

  // ── The checking as it is done ──────────────────────────────────────────────

  method CheckValue(f: Formats, s: Schema, v: Value) returns (r: Checked<Value>)
    ensures r == Check(f, s, v)
    decreases s, 1
  {
    if s.kind == Array && ItemsOf(v).Some? && s.items.Some? {
      var items := ItemsOf(v).value;
      var out: seq<Value> := [];
      NoItems(f, s.items.value, items);
      for i := 0 to |items|
        invariant CheckItems(f, s.items.value, items, 0) == Onto(out, CheckItems(f, s.items.value, items[i..], i))
      {
        var item := CheckValue(f, s.items.value, items[i]);
        OneItem(f, s.items.value, items, i, out);
        if item.Bad? { return Bad(Item(i + 1, item.why)); }
        out := out + [item.value];
      }
      assert items[|items|..] == [] && out + [] == out;
      return Ok(List(out));
    } else if s.kind == Object && v.Obj? && !(s.properties.Keys == {} && s.required == []) {
      var out, problems := CheckObject(f, s, v.fields);
      if problems != {} { return Bad(Inside(problems)); }
      return Ok(Obj(out));
    }
    return Check(f, s, v);
  }

  function Onto<T>(done: seq<T>, rest: Checked<seq<T>>): Checked<seq<T>> {
    if rest.Ok? then Ok(done + rest.value) else rest
  }

  lemma NoItems(f: Formats, s: Schema, items: seq<Value>)
    ensures CheckItems(f, s, items, 0) == Onto([], CheckItems(f, s, items[0..], 0))
  {
    assert items[0..] == items;
    var rest := CheckItems(f, s, items, 0);
    if rest.Ok? { assert [] + rest.value == rest.value; }
  }

  lemma OneItem(f: Formats, s: Schema, items: seq<Value>, i: nat, out: seq<Value>)
    requires i < |items|
    ensures Onto(out, CheckItems(f, s, items[i..], i)) ==
            match Check(f, s, items[i])
            case Bad(why) => Bad(Item(i + 1, why))
            case Ok(v) => Onto(out + [v], CheckItems(f, s, items[i + 1..], i + 1))
  {
    assert items[i..][1..] == items[i + 1..];
    var rest := CheckItems(f, s, items[i + 1..], i + 1);
    if rest.Ok? && Check(f, s, items[i]).Ok? {
      var v := Check(f, s, items[i]).value;
      assert out + ([v] + rest.value) == out + [v] + rest.value;
    }
  }

  /** checkObject. */
  method CheckObject(f: Formats, s: Schema, input: Args) returns (out: Args, problems: set<Problem>)
    ensures out == Kept(f, s, input) && problems == Problems(f, s, input)
    decreases s, 0, 1
  {
    out, problems := CheckProperties(f, s, input);
    for i := 0 to |s.required|
      invariant problems == FaultsSoFar(f, s, input, {}) + MissingAmong(f, s, input, s.required[..i])
    {
      var name := s.required[i];
      MissingOn(f, s, input, i);
      if Lacks(out, name) && !HasProblemFor(problems, name) { problems := problems + {Missing(name)}; }
    }
    AllRequired(f, s, input);
  }

  /** The properties, in whatever order the map gives them. */
  method CheckProperties(f: Formats, s: Schema, input: Args) returns (out: Args, problems: set<Problem>)
    ensures out == Kept(f, s, input) && problems == FaultsSoFar(f, s, input, {})
    decreases s, 0, 0
  {
    out, problems := input, {};
    var todo := s.properties.Keys;
    NoProperties(f, s, input);
    while todo != {}
      invariant todo <= s.properties.Keys
      invariant out == KeptSoFar(f, s, input, todo) && problems == FaultsSoFar(f, s, input, todo)
      decreases |todo|
    {
      var name :| name in todo;
      if name !in input || input[name].Null? {
        DroppedOne(f, s, input, todo, name);
        out := out - {name};
      } else {
        var checked := CheckValue(f, s.properties[name], input[name]);
        CheckedOne(f, s, input, todo, name);
        match checked
        case Bad(why) => problems := problems + {Wrong(name, why)};
        case Ok(v) => out := out[name := v];
      }
      todo := todo - {name};
    }
    AllProperties(f, s, input);
  }

  predicate HasProblemFor(problems: set<Problem>, name: string) {
    exists p :: p in problems && p.name == name
  }

  /** The input with the properties outside todo done. */
  function KeptSoFar(f: Formats, s: Schema, input: Args, todo: set<string>): Args {
    map name | name in input && (name in todo || !Dropped(s, input, name)) ::
      if name in todo then input[name] else Converted(f, s, input, name)
  }

  function FaultsSoFar(f: Formats, s: Schema, input: Args, todo: set<string>): set<Problem> {
    set name | name in s.properties.Keys - todo && Faulty(f, s, input, name) :: Wrong(name, FaultOf(f, s, input, name))
  }

  function MissingAmong(f: Formats, s: Schema, input: Args, required: seq<string>): set<Problem> {
    set name | name in required && Lacks(Kept(f, s, input), name) && !Faulty(f, s, input, name) :: Missing(name)
  }

  lemma CheckedOne(f: Formats, s: Schema, input: Args, todo: set<string>, name: string)
    requires todo <= s.properties.Keys && name in todo && Given(s, input, name)
    ensures var checked := Check(f, s.properties[name], input[name]);
            && KeptSoFar(f, s, input, todo - {name}) ==
               (if checked.Ok? then KeptSoFar(f, s, input, todo)[name := checked.value]
                else KeptSoFar(f, s, input, todo))
            && FaultsSoFar(f, s, input, todo - {name}) ==
               FaultsSoFar(f, s, input, todo) + if checked.Ok? then {} else {Wrong(name, checked.why)}
  {
    var checked := Check(f, s.properties[name], input[name]);
    if checked.Bad? {
      assert Faulty(f, s, input, name) && FaultOf(f, s, input, name) == checked.why;
      assert s.properties.Keys - (todo - {name}) == s.properties.Keys - todo + {name};
    }
  }

  lemma DroppedOne(f: Formats, s: Schema, input: Args, todo: set<string>, name: string)
    requires todo <= s.properties.Keys && name in todo && !Given(s, input, name)
    ensures KeptSoFar(f, s, input, todo - {name}) == KeptSoFar(f, s, input, todo) - {name}
    ensures FaultsSoFar(f, s, input, todo - {name}) == FaultsSoFar(f, s, input, todo)
  {
  }

  lemma NoProperties(f: Formats, s: Schema, input: Args)
    ensures KeptSoFar(f, s, input, s.properties.Keys) == input && FaultsSoFar(f, s, input, s.properties.Keys) == {}
  {
    var kept := KeptSoFar(f, s, input, s.properties.Keys);
    forall name ensures name in kept <==> name in input {}
  }

  lemma AllProperties(f: Formats, s: Schema, input: Args)
    ensures KeptSoFar(f, s, input, {}) == Kept(f, s, input)
  {
  }

  lemma MissingOn(f: Formats, s: Schema, input: Args, i: nat)
    requires i < |s.required|
    ensures var name := s.required[i];
            MissingAmong(f, s, input, s.required[..i + 1]) ==
            MissingAmong(f, s, input, s.required[..i]) +
            if Lacks(Kept(f, s, input), name) && !Faulty(f, s, input, name) then {Missing(name)} else {}
  {
    assert s.required[..i + 1] == s.required[..i] + [s.required[i]];
  }

  lemma AllRequired(f: Formats, s: Schema, input: Args)
    ensures Problems(f, s, input) == FaultsSoFar(f, s, input, {}) +
              MissingAmong(f, s, input, s.required[..|s.required|])
  {
    assert s.required[..|s.required|] == s.required;
    assert s.properties.Keys - {} == s.properties.Keys;
  }
}
