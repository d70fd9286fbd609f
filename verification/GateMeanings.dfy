/** What the comparisons and limits behind the gates come to, said of the values themselves (domain/tool_rule.go,
    prerequisite.go, hydrate.go). */
module GateMeanings {
  import opened Values
  import opened InputContract
  import opened InputPromises
  import opened GateRules
  import opened Outcome
  import opened Gates
  import opened GatedRun

  // ── Values and limits ───────────────────────────────────────────────────────

  /** A number for a rule: also text that reads as one, but no json.Number. */
  predicate CountsAs(f: Formats, v: Value, x: real) {
    IsTheNumber(f, v, x) && !v.Numeral?
  }

  ghost predicate IsCounted(f: Formats, v: Value) {
    exists x :: CountsAs(f, v, x)
  }

  lemma NumberExactly(f: Formats, v: Value, x: real)
    ensures ToNumber(f, v) == Some(x) <==> CountsAs(f, v, x)
    ensures ToNumber(f, v).Some? <==> IsCounted(f, v)
  {
    if ToNumber(f, v).Some? { assert CountsAs(f, v, ToNumber(f, v).value); }
  }

  /** Two numbers are the same when they are equal; true and false only as themselves; anything else as it is shown,
      without spaces around it and in any case. */
  lemma SameValueExactly(f: Formats, w: Wording, a: Value, b: Value)
    ensures SameValue(f, w, a, b) <==>
              if IsCounted(f, a) && IsCounted(f, b) then exists x :: CountsAs(f, a, x) && CountsAs(f, b, x)
              else if a.Flag? then a == b
              else w.sameFold(Trim(w.shown(a)), Trim(w.shown(b)))
  {
    forall v, x ensures ToNumber(f, v) == Some(x) <==> CountsAs(f, v, x) { NumberExactly(f, v, x); }
    NumberExactly(f, a, 0.0);
    NumberExactly(f, b, 0.0);
    if IsCounted(f, a) && IsCounted(f, b) {
      var x, y := ToNumber(f, a).value, ToNumber(f, b).value;
      assert CountsAs(f, a, x) && CountsAs(f, b, y);
    }
  }

  /** A largest and a smallest allowed hold of whatever is a number. */
  lemma LimitsExactly(f: Formats, w: Wording, r: Rule, input: Args)
    requires r.kind.Max? || r.kind.Min?
    ensures Keeps(f, w, r, input) <==>
              forall x :: r.input in input && CountsAs(f, input[r.input], x) ==>
                if r.kind.Max? then x <= r.kind.limit else x >= r.kind.limit
  {
    forall v, x ensures ToNumber(f, v) == Some(x) <==> CountsAs(f, v, x) { NumberExactly(f, v, x); }
    if r.input in input && ToNumber(f, input[r.input]).Some? {
      assert CountsAs(f, input[r.input], ToNumber(f, input[r.input]).value);
    }
  }

  /** A list of what is allowed, or not allowed, holds of whatever is given. */
  lemma ListsExactly(f: Formats, w: Wording, r: Rule, input: Args)
    requires r.kind.OneOf? || r.kind.NoneOf?
    ensures Keeps(f, w, r, input) <==>
              || r.input !in input || input[r.input] == Null
              || ((exists k :: 0 <= k < |r.kind.values| && SameValue(f, w, r.kind.values[k], input[r.input])) <==>
                  r.kind.OneOf?)
  {
  }

  /** A product needs both numbers, and may come over its limit by a billionth of it, or of 1 when that is more. */
  lemma ProductExactly(f: Formats, w: Wording, r: Rule, input: Args)
    requires r.kind.MaxProduct?
    ensures var limit := r.kind.limit;
            var size := if limit > 1.0 then limit else if limit < -1.0 then -limit else 1.0;
            Keeps(f, w, r, input) <==>
              exists x, y :: && r.input in input && r.kind.other in input
                             && CountsAs(f, input[r.input], x) && CountsAs(f, input[r.kind.other], y)
                             && x * y <= limit + size / 1000000000.0
  {
    forall v, x ensures ToNumber(f, v) == Some(x) <==> CountsAs(f, v, x) { NumberExactly(f, v, x); }
    if Keeps(f, w, r, input) {
      var a, b := ToNumber(f, Get(input, r.input)), ToNumber(f, Get(input, r.kind.other));
      assert CountsAs(f, input[r.input], a.value) && CountsAs(f, input[r.kind.other], b.value);
    }
  }

  // ── What counts as the same values ──────────────────────────────────────────

  /** For a prerequisite nothing is like nothing only, text like text in any case and without spaces around it, a finite
      number like an equal one, and values of other kinds are compared as JSON. */
  lemma SameInputExactly(f: Formats, w: Words, a: Value, b: Value)
    requires !a.NonFinite? && !b.NonFinite?
    ensures SameInput(f, w, a, b) <==>
              if a == Null || b == Null then a == b
              else if a.Text? && b.Text? then w.wording.sameFold(Trim(a.s), Trim(b.s))
              else if HasNumber(f, a) && HasNumber(f, b) then exists x :: IsTheNumber(f, a, x) && IsTheNumber(f, b, x)
              else w.encode(a) == w.encode(b)
  {
    forall v, x ensures NumberOf(f, v) == Some(x) <==> IsTheNumber(f, v, x) {}
    NumberIsThere(f, a);
    NumberIsThere(f, b);
    if HasNumber(f, a) && HasNumber(f, b) {
      assert IsTheNumber(f, a, NumberOf(f, a).value) && IsTheNumber(f, b, NumberOf(f, b).value);
    }
  }

  ghost predicate HasNumber(f: Formats, v: Value) {
    !v.Text? && exists x :: IsTheNumber(f, v, x)
  }

  lemma NumberIsThere(f: Formats, v: Value)
    requires !v.NonFinite?
    ensures IsNumber(f, v) <==> HasNumber(f, v)
  {
    if IsNumber(f, v) { assert IsTheNumber(f, v, NumberOf(f, v).value); }
  }

  // ── Which thing a call acts on ──────────────────────────────────────────────

  /** An input as it tells things apart: shown, without spaces around it, in capitals. */
  function Told(s: Setup, input: Args, name: string): string {
    s.w.upper(Trim(s.w.wording.shown(if name in input then input[name] else Null)))
  }

  predicate NoSeparator(s: string) {
    forall i :: 0 <= i < |s| ==> s[i] != 31 as char
  }

  lemma Parted(x: string, p: string, y: string, q: string)
    requires x + [31 as char] + p == y + [31 as char] + q && NoSeparator(p) && NoSeparator(q)
    ensures x == y && p == q
  {
    var all := x + [31 as char] + p;
    assert all[|x|] == all[|y|] == 31 as char;
    assert forall i :: |x| < i < |all| ==> all[i] == p[i - |x| - 1] != 31 as char;
    assert forall i :: |y| < i < |all| ==> all[i] == q[i - |y| - 1] != 31 as char;
    assert all[..|x|] == x && all[..|y|] == y && all[|x| + 1..] == p && all[|y| + 1..] == q;
  }

  lemma {:induction false} JoinedExactly(s: Setup, names: seq<string>, a: Args, b: Args)
    requires forall name :: name in names ==> NoSeparator(Told(s, a, name)) && NoSeparator(Told(s, b, name))
    ensures Joined(s, names, a) == Joined(s, names, b) <==>
              forall name :: name in names ==> Told(s, a, name) == Told(s, b, name)
  {
    if |names| == 1 {
      assert forall name :: name in names <==> name == names[0];
      assert KeyPart(s, a, names[0]) == Told(s, a, names[0]) && KeyPart(s, b, names[0]) == Told(s, b, names[0]);
    } else if names != [] {
      var n := |names| - 1;
      assert names == names[..n] + [names[n]];
      JoinedExactly(s, names[..n], a, b);
      assert KeyPart(s, a, names[n]) == Told(s, a, names[n]) && KeyPart(s, b, names[n]) == Told(s, b, names[n]);
      if Joined(s, names, a) == Joined(s, names, b) {
        Parted(Joined(s, names[..n], a), KeyPart(s, a, names[n]), Joined(s, names[..n], b), KeyPart(s, b, names[n]));
      }
    }
  }

  /** Two calls act on the same thing exactly when every input that tells things apart reads the same in both. */
  lemma OnceKeyExactly(s: Setup, a: Ability, x: Args, y: Args)
    requires forall name :: name in a.onceFor ==> NoSeparator(Told(s, x, name)) && NoSeparator(Told(s, y, name))
    ensures OnceKey(s, a, x) == OnceKey(s, a, y) <==>
              forall name :: name in a.onceFor ==> Told(s, x, name) == Told(s, y, name)
  {
    JoinedExactly(s, a.onceFor, x, y);
  }

  // ── A check that did not work ───────────────────────────────────────────────

  /** A result counts as saying it failed exactly when its status is one of the words for that, in any case, its ok is
      false, or its error says something. */
  lemma SaysItFailedExactly(s: Setup, output: Value)
    ensures SaysItFailed(s, output) <==>
              output.Obj? &&
              (|| Lower(s.w.wording.shown(if "status" in output.fields then output.fields["status"] else Null))
                  in ["error", "failed", "failure", "refused", "denied"]
               || ("ok" in output.fields && output.fields["ok"] == Flag(false))
               || ("error" in output.fields && output.fields["error"].Text? && Trim(output.fields["error"].s) != ""))
  {
    assert Trim("") == "";
  }

  // ── Preparing, and what ran ─────────────────────────────────────────────────

  /** What goes on to the rules is the input as it was checked, or what a prepare step put in its place. */
  lemma PreparedExactly(s: Setup, n: nat, a: Ability, input: Args, out: Args)
    ensures Prepare(s, n, a, input) == Through(out) <==>
              if a.prepares then
                (s.world.prepare(n, a.tool, input) == Unaltered && out == input)
                || s.world.prepare(n, a.tool, input) == Replaced(out)
              else out == input
  {
  }

  /** An ability has run, for a prerequisite, exactly when an earlier call of it went through, does not say it failed,
      and had the same values. */
  lemma {:induction false} RanExactly(s: Setup, calls: seq<Call>, tool: string, same: seq<string>, input: Args)
    ensures Ran(s, JournalOf(s, calls), tool, same, input) <==>
              exists i :: 0 <= i < |calls| && RanAt(s, calls[i], tool, same, input)
  {
    if calls != [] {
      var n := |calls| - 1;
      RanExactly(s, calls[..n], tool, same, input);
      if Ran(s, JournalOf(s, calls), tool, same, input) {
        var e :| e in JournalOf(s, calls) && e.tool == tool && AllSame(s, same, e.input, input);
        if e !in JournalOf(s, calls[..n]) { assert RanAt(s, calls[n], tool, same, input); }
      }
      if i :| 0 <= i < |calls| && RanAt(s, calls[i], tool, same, input) {
        if i < n {
          assert calls[..n][i] == calls[i];
          var e :| e in JournalOf(s, calls[..n]) && e.tool == tool && AllSame(s, same, e.input, input);
          assert e in JournalOf(s, calls);
        } else {
          assert Entry(tool, calls[n].sent.value.input) in JournalOf(s, calls);
        }
      }
    }
  }

  predicate RanAt(s: Setup, call: Call, tool: string, same: seq<string>, input: Args) {
    && call.ability in s.abilities && s.abilities[call.ability].tool == tool
    && call.sent.Some? && OutcomeOf(call.sent.value.result).done && !SaysItFailed(s, call.sent.value.result.output)
    && AllSame(s, same, call.sent.value.input, input)
  }
}
