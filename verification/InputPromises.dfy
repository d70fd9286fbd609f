/** domain/input_contract.go: what an executor can rely on, and what the model can. */
module InputPromises {
  import opened Values
  import opened InputContract

  // ── What a schema asks for ──────────────────────────────────────────────────

  /** v is what the schema says, at every depth. */
  predicate Conforms(s: Schema, v: Value)
    decreases s, 1
  {
    match s.kind
    case String => v.Text? && (s.options == [] || v.s in s.options)
    case Number => v.Float?
    case Integer => v.Float? && IsWhole(v.r)
    case Boolean => v.Flag?
    case Array => v.List? && (s.items.Some? ==> forall i :: 0 <= i < |v.items| ==> Conforms(s.items.value, v.items[i]))
    case Object => v.Obj? && ObjectConforms(s, v.fields)
    case Other => true
  }

  predicate ObjectConforms(s: Schema, input: Args)
    decreases s, 0
  {
    && (forall name :: name in s.required ==> !Lacks(input, name))
    && forall name {:trigger name in s.properties} ::
         name in s.properties && name in input ==> !input[name].Null? && Conforms(s.properties[name], input[name])
  }

  // ── Accepted inputs conform ─────────────────────────────────────────────────

  lemma {:induction false} Sound(f: Formats, s: Schema, v: Value)
    requires Check(f, s, v).Ok?
    ensures Conforms(s, Check(f, s, v).value)
    decreases s, 2
  {
    if s.kind == Array {
      if s.items.Some? { SoundItems(f, s.items.value, ItemsOf(v).value, 0); }
    } else if s.kind == Object {
      if s.properties.Keys == {} && s.required == [] { NothingAsked(f, s, v.fields); }
      SoundObject(f, s, v.fields);
    }
  }

  lemma {:induction false} SoundItems(f: Formats, s: Schema, items: seq<Value>, at: nat)
    requires CheckItems(f, s, items, at).Ok?
    ensures forall i :: 0 <= i < |items| ==> Conforms(s, CheckItems(f, s, items, at).value[i])
    decreases s, 3, |items|
  {
    if items != [] {
      Sound(f, s, items[0]);
      SoundItems(f, s, items[1..], at + 1);
    }
  }

  lemma SoundObject(f: Formats, s: Schema, input: Args)
    requires Problems(f, s, input) == {}
    ensures ObjectConforms(s, Kept(f, s, input))
    decreases s, 1
  {
    var kept := Kept(f, s, input);
    forall name | name in s.required ensures !Lacks(kept, name) { NoProblem(f, s, input, name); }
    forall name | name in s.properties && name in kept
      ensures !kept[name].Null? && Conforms(s.properties[name], kept[name])
    {
      assert name in input && !Dropped(s, input, name) && kept[name] == Converted(f, s, input, name);
      NoProblem(f, s, input, name);
      Sound(f, s.properties[name], input[name]);
      NeverNull(f, s.properties[name], input[name]);
    }
  }

  lemma NoProblem(f: Formats, s: Schema, input: Args, name: string)
    requires Problems(f, s, input) == {}
    ensures !Faulty(f, s, input, name) && (name in s.required ==> !Lacks(Kept(f, s, input), name))
  {
    EveryProblem(f, s, input, name);
  }

  /** Every input that is wrong or missing is among the problems. */
  lemma EveryProblem(f: Formats, s: Schema, input: Args, name: string)
    ensures Faulty(f, s, input, name) ==> Wrong(name, FaultOf(f, s, input, name)) in Problems(f, s, input)
    ensures name in s.required && Lacks(Kept(f, s, input), name) && !Faulty(f, s, input, name) ==>
              Missing(name) in Problems(f, s, input)
  {
  }

  lemma NeverNull(f: Formats, s: Schema, v: Value)
    requires !v.Null? && Check(f, s, v).Ok?
    ensures !Check(f, s, v).value.Null?
  {
  }

  /** An object that asks for nothing is the same with and without the short way. */
  lemma NothingAsked(f: Formats, s: Schema, input: Args)
    requires s.properties.Keys == {} && s.required == []
    ensures Problems(f, s, input) == {} && Kept(f, s, input) == input
  {
  }

  // ── A conforming input comes back as it is ──────────────────────────────────

  lemma {:induction false} Unchanged(f: Formats, s: Schema, v: Value)
    requires Conforms(s, v)
    ensures Check(f, s, v) == Ok(v)
    decreases s, 2
  {
    if s.kind == Array {
      if s.items.Some? { UnchangedItems(f, s.items.value, v.items, 0); }
    } else if s.kind == Object {
      UnchangedObject(f, s, v.fields);
    }
  }

  lemma {:induction false} UnchangedItems(f: Formats, s: Schema, items: seq<Value>, at: nat)
    requires forall i :: 0 <= i < |items| ==> Conforms(s, items[i])
    ensures CheckItems(f, s, items, at) == Ok(items)
    decreases s, 3, |items|
  {
    if items != [] {
      Unchanged(f, s, items[0]);
      UnchangedItems(f, s, items[1..], at + 1);
      assert [items[0]] + items[1..] == items;
    }
  }

  lemma UnchangedObject(f: Formats, s: Schema, input: Args)
    requires ObjectConforms(s, input)
    ensures Kept(f, s, input) == input && Problems(f, s, input) == {}
    decreases s, 1
  {
    forall name | Given(s, input, name) ensures Check(f, s.properties[name], input[name]) == Ok(input[name]) {
      Unchanged(f, s.properties[name], input[name]);
    }
    var kept := Kept(f, s, input);
    forall name | name in input ensures name in kept && kept[name] == input[name] {
      assert kept[name] == Converted(f, s, input, name) && (name in s.properties ==> Given(s, input, name));
    }
    assert kept == input;
    forall name | name in s.properties ensures !Faulty(f, s, input, name) {}
  }

  // ── The whole call ──────────────────────────────────────────────────────────

  /** What CheckInput accepts conforms, is accepted again as it is, and is untouched where the schema says nothing. */
  lemma AcceptedInput(f: Formats, s: Schema, input: Args)
    requires CheckInput(f, s, input).Ok?
    ensures var out := CheckInput(f, s, input).value;
            && ObjectConforms(s, out) && CheckInput(f, s, out) == Ok(out)
            && forall name :: name !in s.properties ==>
                 (name in out <==> name in input) && (name in out ==> out[name] == input[name])
  {
    SoundObject(f, s, input);
    UnchangedObject(f, s, Kept(f, s, input));
    forall name | name !in s.properties && name in input ensures Kept(f, s, input)[name] == input[name] {
      assert Kept(f, s, input)[name] == Converted(f, s, input, name);
    }
  }

  /** A call that conforms is let through as it is. */
  lemma ConformingInput(f: Formats, s: Schema, input: Args)
    requires ObjectConforms(s, input)
    ensures CheckInput(f, s, input) == Ok(input)
  {
    UnchangedObject(f, s, input);
  }

  // ── What is converted, and what is refused ──────────────────────────────────

  /** How each kind of value is written as text. */
  predicate WrittenAs(f: Formats, v: Value, s: string) {
    match v
    case Text(t) => s == t
    case Flag(b) => s == if b then "true" else "false"
    case Float(r) => s == f.formatFloat(r)
    case NonFinite(name) => s == name
    case Whole(n) => s == f.formatInt(n)
    case Numeral(digits) => s == digits
    case Null | Single(_) | List(_) | Slice(_) | Obj(_) => false
  }

  /** The number a value is: text and json.Number when they can be read as a finite one. */
  predicate IsTheNumber(f: Formats, v: Value, r: real) {
    match v
    case Float(q) => q == r
    case Single(q) => q == r
    case Whole(n) => f.toFloat(n) == r
    case Numeral(digits) => f.parse(digits) == Finite(r)
    case Text(s) => f.parse(Trim(s)) == Finite(r)
    case Null | Flag(_) | NonFinite(_) | List(_) | Slice(_) | Obj(_) => false
  }

  /** True or false, or the word for it in any case, with spaces around it. */
  predicate IsTheFlag(v: Value, b: bool) {
    match v
    case Flag(c) => c == b
    case Text(s) => Lower(Trim(s)) == if b then "true" else "false"
    case Null | Float(_) | Single(_) | NonFinite(_) | Whole(_) | Numeral(_) | List(_) | Slice(_) | Obj(_) => false
  }

  predicate HasItems(v: Value, items: seq<Value>) {
    v == List(items) || v == Slice(items)
  }

  /** A string comes of exactly what is written as it, and is one of the options when there are any. */
  lemma TextExactly(f: Formats, s: Schema, v: Value, t: string)
    requires s.kind == String
    ensures Check(f, s, v) == Ok(Text(t)) <==> WrittenAs(f, v, t) && (s.options == [] || t in s.options)
    ensures Check(f, s, v).Ok? <==> exists w :: WrittenAs(f, v, w) && (s.options == [] || w in s.options)
  {
    if Check(f, s, v).Ok? { assert WrittenAs(f, v, Check(f, s, v).value.s); }
  }

  /** A number comes of exactly what is that number, and an integer has to be whole. */
  lemma NumberExactly(f: Formats, s: Schema, v: Value, r: real)
    requires s.kind == Number || s.kind == Integer
    ensures Check(f, s, v) == Ok(Float(r)) <==> IsTheNumber(f, v, r) && (s.kind == Integer ==> r == r.Floor as real)
    ensures Check(f, s, v).Ok? <==> exists q :: IsTheNumber(f, v, q) && (s.kind == Integer ==> q == q.Floor as real)
  {
    if Check(f, s, v).Ok? { assert IsTheNumber(f, v, Check(f, s, v).value.r); }
  }

  lemma {:induction false} LowerExactly(s: string)
    ensures |Lower(s)| == |s|
    ensures forall i :: 0 <= i < |s| ==> Lower(s)[i] == if 'A' <= s[i] <= 'Z' then (s[i] as int + 32) as char else s[i]
  {
    if s != "" { LowerExactly(s[1..]); }
  }

  /** True comes of exactly true and its word, false of false and its word, and nothing of anything else. */
  lemma FlagExactly(f: Formats, s: Schema, v: Value, b: bool)
    requires s.kind == Boolean
    ensures Check(f, s, v) == Ok(Flag(b)) <==> IsTheFlag(v, b)
    ensures Check(f, s, v).Ok? <==> IsTheFlag(v, true) || IsTheFlag(v, false)
  {
  }

  lemma {:induction false} ItemsExactly(f: Formats, s: Schema, items: seq<Value>, at: nat, out: seq<Value>)
    ensures CheckItems(f, s, items, at) == Ok(out)
            <==> |out| == |items| && forall i :: 0 <= i < |items| ==> Check(f, s, items[i]) == Ok(out[i])
    decreases |items|
  {
    if items != [] {
      var rest := CheckItems(f, s, items[1..], at + 1);
      if rest.Ok? { ItemsExactly(f, s, items[1..], at + 1, rest.value); }
      if out != [] {
        ItemsExactly(f, s, items[1..], at + 1, out[1..]);
        assert out == [out[0]] + out[1..];
        if forall i :: 0 <= i < |items| ==> |out| == |items| && Check(f, s, items[i]) == Ok(out[i]) {
          forall i | 0 <= i < |items| - 1 ensures Check(f, s, items[1..][i]) == Ok(out[1..][i]) {
            assert items[1..][i] == items[i + 1] && out[1..][i] == out[i + 1];
          }
        }
      }
    }
  }

  predicate EachChecked(f: Formats, each: Option<Schema>, items: seq<Value>, out: seq<Value>) {
    |out| == |items| && forall i :: 0 <= i < |items| ==>
      if each.None? then out[i] == items[i] else Check(f, each.value, items[i]) == Ok(out[i])
  }

  /** A list comes of exactly a list or a slice, each item checked in its place. */
  lemma ListExactly(f: Formats, s: Schema, v: Value, out: seq<Value>)
    requires s.kind == Array
    ensures Check(f, s, v) == Ok(List(out)) <==>
              exists items :: HasItems(v, items) && EachChecked(f, s.items, items, out)
  {
    if v.List? || v.Slice? {
      var items := if v.List? then v.items else v.elems;
      assert HasItems(v, items);
      if s.items.Some? {
        ItemsExactly(f, s.items.value, items, 0, out);
      } else {
        assert EachChecked(f, None, items, out) <==> out == items;
      }
    }
  }

  /** What becomes of each input of a call that is accepted: a declared one that is given is there as its check makes
      it, a declared null is left out, and any other is as it was; whatever is required is there and says something. */
  ghost predicate CheckedInput(f: Formats, s: Schema, input: Args, out: Args) {
    && (forall name {:trigger name in out} {:trigger name in input} ::
          if name !in input || (name in s.properties && input[name].Null?) then name !in out
          else name in out && if name in s.properties then Check(f, s.properties[name], input[name]) == Ok(out[name])
                              else out[name] == input[name])
    && forall name :: name in s.required ==> name in out && !out[name].Null? && out[name] != Text("")
  }

  /** A call is accepted as out exactly then. */
  lemma CallCheckedExactly(f: Formats, s: Schema, input: Args, out: Args)
    ensures CheckInput(f, s, input) == Ok(out) <==> CheckedInput(f, s, input, out)
  {
    if CheckInput(f, s, input) == Ok(out) {
      forall name {:trigger name in input} | name in input && name in out
        ensures out[name] == Converted(f, s, input, name) {}
      forall name | name in s.properties && name in out
        ensures Check(f, s.properties[name], input[name]) == Ok(out[name])
      {
        assert out[name] == Converted(f, s, input, name);
        NoProblem(f, s, input, name);
      }
      forall name | name in s.required ensures !Lacks(out, name) { NoProblem(f, s, input, name); }
    }
    if CheckedInput(f, s, input, out) { CheckedIsKept(f, s, input, out); }
  }

  /** And so is an object inside one. */
  lemma ObjectExactly(f: Formats, s: Schema, v: Value, out: Args)
    requires s.kind == Object
    ensures Check(f, s, v) == Ok(Obj(out)) <==> v.Obj? && CheckedInput(f, s, v.fields, out)
  {
    if v.Obj? {
      CallCheckedExactly(f, s, v.fields, out);
      if s.properties.Keys == {} && s.required == [] { NothingAsked(f, s, v.fields); }
    }
  }

  lemma CheckedIsKept(f: Formats, s: Schema, input: Args, out: Args)
    requires CheckedInput(f, s, input, out)
    ensures Kept(f, s, input) == out && Problems(f, s, input) == {}
  {
    var kept := Kept(f, s, input);
    forall name ensures name in kept <==> name in out { assert name in input || name !in out; }
    forall name | name in out ensures kept[name] == out[name] { assert kept[name] == Converted(f, s, input, name); }
    assert kept == out;
    forall name | name in s.properties ensures !Faulty(f, s, input, name) {
      if Given(s, input, name) { assert name in out; }
    }
    forall name | name in s.required ensures !Lacks(kept, name) {}
  }

  /** w is v, or v written in another way: as text, as a number, as true or false, and so at every depth, but for nulls
      left out of an object. */
  predicate Means(f: Formats, v: Value, w: Value)
    decreases w
  {
    v == w ||
    match w
    case Text(s) => WrittenAs(f, v, s)
    case Float(r) => IsTheNumber(f, v, r)
    case Flag(b) => IsTheFlag(v, b)
    case List(items) =>
      (match v
       case List(given) => |given| == |items| && forall i :: 0 <= i < |items| ==> Means(f, given[i], items[i])
       case Slice(given) => |given| == |items| && forall i :: 0 <= i < |items| ==> Means(f, given[i], items[i])
       case Null | Text(_) | Flag(_) | Float(_) | Single(_) | NonFinite(_) | Whole(_) | Numeral(_) | Obj(_) => false)
    case Obj(fields) =>
      && v.Obj? &&
         (forall name {:trigger name in fields} :: name in fields ==>
          name in v.fields && Means(f, v.fields[name], fields[name]))
      && forall name {:trigger name in v.fields} :: name in v.fields && name !in fields ==> v.fields[name].Null?
    case Null | Single(_) | NonFinite(_) | Whole(_) | Numeral(_) | Slice(_) => false
  }

  predicate ObjectMeans(f: Formats, input: Args, out: Args) {
    && (forall name {:trigger name in out} :: name in out ==> name in input && Means(f, input[name], out[name]))
    && forall name {:trigger name in input} :: name in input && name !in out ==> input[name].Null?
  }

  /** Empty text is not a number: what strconv makes of it. */
  predicate EmptyIsNoNumber(f: Formats) {
    f.parse("") == Unreadable
  }

  lemma {:induction false} SaysTheSame(f: Formats, s: Schema, v: Value)
    requires Check(f, s, v).Ok?
    ensures Means(f, v, Check(f, s, v).value)
    decreases s, 2
  {
    if s.kind == Array {
      if s.items.Some? { ItemsSayTheSame(f, s.items.value, ItemsOf(v).value, 0); }
    } else if s.kind == Object {
      if s.properties.Keys == {} && s.required == [] { NothingAsked(f, s, v.fields); }
      ObjectSaysTheSame(f, s, v.fields);
    }
  }

  lemma {:induction false} ItemsSayTheSame(f: Formats, s: Schema, items: seq<Value>, at: nat)
    requires CheckItems(f, s, items, at).Ok?
    ensures forall i :: 0 <= i < |items| ==> Means(f, items[i], CheckItems(f, s, items, at).value[i])
    decreases s, 3, |items|
  {
    if items != [] {
      SaysTheSame(f, s, items[0]);
      ItemsSayTheSame(f, s, items[1..], at + 1);
    }
  }

  lemma ObjectSaysTheSame(f: Formats, s: Schema, input: Args)
    requires Problems(f, s, input) == {}
    ensures ObjectMeans(f, input, Kept(f, s, input))
    decreases s, 1
  {
    var kept := Kept(f, s, input);
    forall name | name in kept ensures name in input && Means(f, input[name], kept[name]) {
      NoProblem(f, s, input, name);
      assert kept[name] == Converted(f, s, input, name);
      if name in s.properties { SaysTheSame(f, s.properties[name], input[name]); }
    }
  }

  /** What can be written so that it conforms is accepted. */
  lemma {:induction false} Accepts(f: Formats, s: Schema, v: Value, w: Value)
    requires Means(f, v, w) && Conforms(s, w) && EmptyIsNoNumber(f)
    ensures Check(f, s, v).Ok?
    decreases s, 2
  {
    if s.kind == Array {
      if s.items.Some? { AcceptsItems(f, s.items.value, ItemsOf(v).value, w.items, 0); }
    } else if s.kind == Object {
      MeansItself(f, v, w);
      AcceptsObject(f, s, v.fields, w.fields);
    }
  }

  lemma MeansItself(f: Formats, v: Value, w: Value)
    requires Means(f, v, w) && w.Obj?
    ensures v.Obj? && ObjectMeans(f, v.fields, w.fields)
  {
  }

  lemma {:induction false} AcceptsItems(f: Formats, s: Schema, items: seq<Value>, out: seq<Value>, at: nat)
    requires |items| == |out| && EmptyIsNoNumber(f)
    requires forall i :: 0 <= i < |items| ==> Means(f, items[i], out[i]) && Conforms(s, out[i])
    ensures CheckItems(f, s, items, at).Ok?
    decreases s, 3, |items|
  {
    if items != [] {
      Accepts(f, s, items[0], out[0]);
      AcceptsItems(f, s, items[1..], out[1..], at + 1);
    }
  }

  lemma AcceptsObject(f: Formats, s: Schema, input: Args, out: Args)
    requires ObjectMeans(f, input, out) && ObjectConforms(s, out) && EmptyIsNoNumber(f)
    ensures Problems(f, s, input) == {}
    decreases s, 1
  {
    forall name | Given(s, input, name) ensures Check(f, s.properties[name], input[name]).Ok? {
      Accepts(f, s.properties[name], input[name], out[name]);
    }
    forall name | name in s.required ensures !Lacks(Kept(f, s, input), name) {
      StillThere(f, input[name], out[name]);
      if name in s.properties { SameText(f, s.properties[name], input[name], out[name]); }
    }
  }

  /** Nothing that is not there, and no empty text, is another way to write something that is. */
  lemma StillThere(f: Formats, v: Value, w: Value)
    requires Means(f, v, w) && !w.Null? && w != Text("") && EmptyIsNoNumber(f)
    ensures !v.Null? && v != Text("")
  {
    assert Trim("") == "" && Lower("") == "";
  }

  lemma SameText(f: Formats, s: Schema, v: Value, w: Value)
    requires Means(f, v, w) && Conforms(s, w) && w != Text("") && v != Text("") && Check(f, s, v).Ok?
    ensures Check(f, s, v).value != Text("")
  {
  }

  /** A value is accepted exactly when it can be written so that it conforms. */
  lemma AcceptedExactly(f: Formats, s: Schema, v: Value)
    requires EmptyIsNoNumber(f)
    ensures Check(f, s, v).Ok? <==> exists w :: Means(f, v, w) && Conforms(s, w)
  {
    if Check(f, s, v).Ok? {
      SaysTheSame(f, s, v);
      Sound(f, s, v);
      assert Means(f, v, Check(f, s, v).value) && Conforms(s, Check(f, s, v).value);
    }
    if w :| Means(f, v, w) && Conforms(s, w) { Accepts(f, s, v, w); }
  }

  /** And so is a whole call. */
  lemma CallAcceptedExactly(f: Formats, s: Schema, input: Args)
    requires EmptyIsNoNumber(f)
    ensures CheckInput(f, s, input).Ok? <==> exists out :: ObjectMeans(f, input, out) && ObjectConforms(s, out)
  {
    if CheckInput(f, s, input).Ok? {
      ObjectSaysTheSame(f, s, input);
      SoundObject(f, s, input);
      assert ObjectMeans(f, input, Kept(f, s, input)) && ObjectConforms(s, Kept(f, s, input));
    }
    if out :| ObjectMeans(f, input, out) && ObjectConforms(s, out) { AcceptsObject(f, s, input, out); }
  }
}
