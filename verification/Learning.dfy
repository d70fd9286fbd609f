/** runtime/profile_learn.go: one exchange, from what is loaded to what is kept. */
module Learning {
  import opened Values
  import opened LearnDetails

  /** What was done about the person's details, in order. */
  datatype Event =
    | Asked(scope: string, key: string, was: string, stated: string, answer: Answer)
    | Set(scope: string, key: string, value: string)
    | Confirmed(scope: string, key: string)
    | Declined(scope: string, key: string, value: string)

  type Lists = map<string, seq<Detail>>

  function DetailsIn(lists: Lists, scope: string): seq<Detail> {
    if scope in lists then lists[scope] else []
  }

  // ── What the log says ───────────────────────────────────────────────────────

  /** The value of a detail after the log, from what was held when the exchange began. */
  function Now(began: Lists, log: seq<Event>, scope: string, key: string): Option<string> {
    if log == [] then ValueOf(DetailsIn(began, scope), key)
    else
      var e := log[|log| - 1];
      if e.Set? && e.scope == scope && e.key == key then Some(e.value) else Now(began, log[..|log| - 1], scope, key)
  }

  function Questions(log: seq<Event>): nat {
    if log == [] then 0 else Questions(log[..|log| - 1]) + if log[|log| - 1].Asked? then 1 else 0
  }

  /** A detail that has a value is given another only as the answer yes to that very change. */
  predicate MaySet(began: Lists, log: seq<Event>, scope: string, key: string, value: string) {
    Now(began, log, scope, key).Some? ==>
      log != [] && log[|log| - 1] == Asked(scope, key, Now(began, log, scope, key).value, value, Yes)
  }

  predicate GoodLog(began: Lists, log: seq<Event>) {
    log != [] ==>
      var before, e := log[..|log| - 1], log[|log| - 1];
      && GoodLog(began, before)
      && (e.Set? ==> MaySet(began, before, e.scope, e.key, e.value))
      && (e.Asked? ==> Now(began, before, e.scope, e.key) == Some(e.was))
      && (e.Declined? ==> before != [] && before[|before| - 1].Asked? && before[|before| - 1].answer == No)
  }

  lemma LogOn(began: Lists, log: seq<Event>, e: Event)
    requires GoodLog(began, log)
    requires e.Set? ==> MaySet(began, log, e.scope, e.key, e.value)
    requires e.Asked? ==> Now(began, log, e.scope, e.key) == Some(e.was)
    requires e.Declined? ==> log != [] && log[|log| - 1].Asked? && log[|log| - 1].answer == No
    ensures GoodLog(began, log + [e]) && Questions(log + [e]) == Questions(log) + if e.Asked? then 1 else 0
    ensures forall scope, key :: Now(began, log + [e], scope, key) ==
              if e.Set? && e.scope == scope && e.key == key then Some(e.value) else Now(began, log, scope, key)
  {
    assert (log + [e])[..|log|] == log;
  }

  /** What a detail that was held has in the end, when it is another value, the person said yes to. */
  lemma {:induction false} ReplacedOnlyAfterYes(began: Lists, log: seq<Event>, scope: string, key: string)
    returns (k: nat)
    requires GoodLog(began, log) && ValueOf(DetailsIn(began, scope), key).Some?
    requires Now(began, log, scope, key) != ValueOf(DetailsIn(began, scope), key)
    ensures k < |log| && log[k].Asked? && log[k].scope == scope && log[k].key == key && log[k].answer == Yes
    ensures Now(began, log, scope, key) == Some(log[k].stated)
    ensures Now(began, log[..k], scope, key) == Some(log[k].was)
  {
    var n := |log| - 1;
    var e := log[n];
    if e.Set? && e.scope == scope && e.key == key {
      StillHeld(began, log[..n], scope, key);
      k := n - 1;
      assert log[..n][..k] == log[..k] && log[..n][|log[..n]| - 1] == log[k];
    } else {
      k := ReplacedOnlyAfterYes(began, log[..n], scope, key);
      assert log[..n][..k] == log[..k];
    }
  }

  lemma {:induction false} StillHeld(began: Lists, log: seq<Event>, scope: string, key: string)
    requires ValueOf(DetailsIn(began, scope), key).Some?
    ensures Now(began, log, scope, key).Some?
  {
    if log != [] { StillHeld(began, log[..|log| - 1], scope, key); }
  }

  // ── The exchange ────────────────────────────────────────────────────────────

  /** What the stores show for a detail: the person's own fields come into the personal map. */
  function View(w: World, rows: Lists, typed: seq<Detail>, scope: string, key: string): Option<string> {
    if scope == PERSONAL && w.typed then Shown(w, DetailsIn(rows, PERSONAL), typed, key)
    else ValueOf(DetailsIn(rows, scope), key)
  }

  /** What is held in memory of the scopes of an exchange is what the stores show. */
  ghost predicate Shows(w: World, apps: set<string>, held: Lists, rows: Lists, typed: seq<Detail>) {
    forall scope, key {:trigger ValueOf(DetailsIn(held, scope), key)} :: InScope(apps, scope) ==>
      ValueOf(DetailsIn(held, scope), key) == View(w, rows, typed, scope, key)
  }

  /** And what the log makes of what was held when the exchange began. */
  ghost predicate Follows(held: Lists, began: Lists, log: seq<Event>) {
    forall scope, key {:trigger ValueOf(DetailsIn(held, scope), key)} ::
      ValueOf(DetailsIn(held, scope), key) == Now(began, log, scope, key)
  }

  predicate InScope(apps: set<string>, scope: string) {
    scope == PERSONAL || scope in apps
  }

  // ── What becomes of one proposal ────────────────────────────────────────────

  datatype Verdict = Ignored | Fresh(p: Proposal) | Restated(p: Proposal) | Differs(p: Proposal, value: string)

  function ScopeOf(p: Proposal): string {
    if Trim(p.scope) == "" then PERSONAL else Trim(p.scope)
  }

  /** The detail a proposal is about: the one of its name, or the held one the judge finds to be of the same kind. */
  function About(w: World, list: seq<Detail>, n: nat, p: Proposal): Option<Proposal> {
    if ValueOf(list, p.key).Some? || list == [] then Some(p)
    else match w.sameKind(n, p, list)
      case Unclear => None
      case Closest(key, score) =>
        Some(if key != "" && score >= MATCH_THRESHOLD && ValueOf(list, key).Some? then p.(key := key) else p)
  }

  function Weighed(w: World, list: seq<Detail>, n: nat, p: Proposal): Verdict {
    match ValueOf(list, p.key)
    case None => if w.lasting(n, p) then Fresh(p) else Ignored
    case Some(value) =>
      if w.sameValue(value, p.value) then Restated(p)
      else match w.relation(n, p.key, value, p.value)
        case NoRelation => Ignored
        case Same => Restated(p)
        case Different => Differs(p, value)
        case Adds => Differs(p, value)
  }

  function Judged(w: World, apps: set<string>, held: Lists, n: nat, given: Proposal): Verdict {
    var scope := ScopeOf(given);
    if !InScope(apps, scope) || w.canonical(given.key).None? || w.clean(given.value).None?
       || w.never(w.canonical(given.key).value, w.clean(given.value).value) then Ignored
    else
      var list := DetailsIn(held, scope);
      match About(w, list, n, Proposal(scope, w.canonical(given.key).value, w.clean(given.value).value))
      case None => Ignored
      case Some(p) => Weighed(w, list, n, p)
  }

  predicate Asks(w: World, n: nat, p: Proposal, questions: nat) {
    && (IsField(w, p.scope, p.key) ==> w.valid(p.key, p.value))
    && !w.refused(n, p) && w.lasting(n, p) && w.canAsk && questions < MAX_QUESTIONS
  }

  /** What is done about it. */
  function Done(w: World, v: Verdict, n: nat, questions: nat): seq<Event> {
    match v
    case Ignored => []
    case Fresh(p) => if w.writes(n) then [Set(p.scope, p.key, p.value)] else []
    case Restated(p) => [Confirmed(p.scope, p.key)]
    case Differs(p, value) =>
      var asked := Asked(p.scope, p.key, value, p.value, w.answer(n));
      if Asks(w, n, p, questions) then [asked] + Answered(w, n, p) else []
  }

  function Answered(w: World, n: nat, p: Proposal): seq<Event> {
    match w.answer(n)
    case Yes => if w.writes(n) then [Set(p.scope, p.key, p.value)] else []
    case No => [Declined(p.scope, p.key, p.value)]
    case NoAnswer => []
  }

  // ── What a proposal leads to, said of the log alone ─────────────────────────

  /** A list that holds what the log so far says is held of a scope. */
  ghost predicate ListsHeld(list: seq<Detail>, began: Lists, before: seq<Event>, scope: string) {
    forall key {:trigger ValueOf(list, key)} :: ValueOf(list, key) == Now(began, before, scope, key)
  }

  /** What is done about a detail, once it is known which it is: what was not held is kept when it lasts, what is held
      is confirmed when nothing is new, and otherwise changed only as the answer yes to a question,
      when one may be put. */
  predicate SettledAs(w: World, began: Lists, before: seq<Event>, stretch: seq<Event>, n: nat, p: Proposal) {
    var was := Now(began, before, p.scope, p.key);
    if was.None? then stretch == if w.lasting(n, p) && w.writes(n) then [Set(p.scope, p.key, p.value)] else []
    else
      var relation := w.relation(n, p.key, was.value, p.value);
      if w.sameValue(was.value, p.value) || relation == Same then stretch == [Confirmed(p.scope, p.key)]
      else if relation == NoRelation || !MayAsk(w, before, n, p) then stretch == []
      else
        var asked := Asked(p.scope, p.key, was.value, p.value, w.answer(n));
        match w.answer(n)
        case Yes => stretch == if w.writes(n) then [asked, Set(p.scope, p.key, p.value)] else [asked]
        case No => stretch == [asked, Declined(p.scope, p.key, p.value)]
        case NoAnswer => stretch == [asked]
  }

  /** A question may be put: about a value its field could keep, that was not refused lately and lasts, while there is
      somebody to ask and fewer than two were asked. */
  predicate MayAsk(w: World, before: seq<Event>, n: nat, p: Proposal) {
    && (p.scope == "personal" && w.typed && w.owns(p.key) ==> w.valid(p.key, p.value))
    && !w.refused(n, p) && w.lasting(n, p) && w.canAsk && Questions(before) < 2
  }

  /** A detail of this name, or the held one that is of the same kind. */
  ghost predicate NamedAndSettled(w: World, began: Lists, before: seq<Event>, stretch: seq<Event>, n: nat, p: Proposal,
                                  list: seq<Detail>)
  {
    if list == [] || ValueOf(list, p.key).Some? then SettledAs(w, began, before, stretch, n, p)
    else match w.sameKind(n, p, list)
      case Unclear => stretch == []
      case Closest(near, score) =>
        if near != "" && score >= 0.7 && ValueOf(list, near).Some? then
          SettledAs(w, began, before, stretch, n, p.(key := near))
        else SettledAs(w, began, before, stretch, n, p)
  }

  /** Only details of the person and of the apps at work, with a name and a value, that may be kept at all. */
  predicate Permitted(w: World, apps: set<string>, given: Proposal) {
    var scope := Trim(given.scope);
    && (scope == "" || scope == "personal" || scope in apps)
    && w.canonical(given.key).Some? && w.clean(given.value).Some?
    && !w.never(w.canonical(given.key).value, w.clean(given.value).value)
  }

  function Cleaned(w: World, apps: set<string>, given: Proposal): Proposal
    requires Permitted(w, apps, given)
  {
    Proposal(if Trim(given.scope) == "" then "personal" else Trim(given.scope), w.canonical(given.key).value,
             w.clean(given.value).value)
  }

  /** What proposal number n led to, after what was logged before. */
  ghost predicate Considered(w: World, apps: set<string>, began: Lists, before: seq<Event>, stretch: seq<Event>, n: nat,
                             given: Proposal)
  {
    if !Permitted(w, apps, given) then stretch == []
    else
      var p := Cleaned(w, apps, given);
      exists list: seq<Detail> ::
        ListsHeld(list, began, before, p.scope) && NamedAndSettled(w, began, before, stretch, n, p, list)
  }

  lemma SettledExactly(w: World, began: Lists, before: seq<Event>, list: seq<Detail>, n: nat, p: Proposal)
    requires ListsHeld(list, began, before, p.scope)
    ensures SettledAs(w, began, before, Done(w, Weighed(w, list, n, p), n, Questions(before)), n, p)
  {
    assert ValueOf(list, p.key) == Now(began, before, p.scope, p.key);
  }

  lemma ConsideredExactly(w: World, apps: set<string>, held: Lists, began: Lists, before: seq<Event>, n: nat,
                          given: Proposal)
    requires Follows(held, began, before)
    ensures Considered(w, apps, began, before, Done(w, Judged(w, apps, held, n, given), n, Questions(before)), n, given)
  {
    if Permitted(w, apps, given) {
      var p := Cleaned(w, apps, given);
      var list := DetailsIn(held, p.scope);
      assert ListsHeld(list, began, before, p.scope) by {
        forall key ensures ValueOf(list, key) == Now(began, before, p.scope, key) {}
      }
      var about := About(w, list, n, p);
      if about.Some? { SettledExactly(w, began, before, list, n, about.value); }
      assert NamedAndSettled(w, began, before, Done(w, Judged(w, apps, held, n, given), n, Questions(before)), n, p,
                             list);
    }
  }

  /** A detail of a scope that holds nothing is kept when it is permitted, lasts, and can be written. */
  lemma NewIsKept(w: World, apps: set<string>, began: Lists, before: seq<Event>, stretch: seq<Event>, n: nat,
                  given: Proposal)
    requires Considered(w, apps, began, before, stretch, n, given) && Permitted(w, apps, given)
    requires forall key: string :: Now(began, before, Cleaned(w, apps, given).scope, key) == None
    requires w.lasting(n, Cleaned(w, apps, given)) && w.writes(n)
    ensures var p := Cleaned(w, apps, given);
            stretch == [Set(p.scope, p.key, p.value)] && Now(began, before + stretch, p.scope, p.key) == Some(p.value)
  {
    var p := Cleaned(w, apps, given);
    var list: seq<Detail> :| ListsHeld(list, began, before, p.scope) &&
    NamedAndSettled(w, began, before, stretch, n, p, list);
    if list != [] { assert ValueOf(list, list[0].key).Some?; }
    SetLast(began, before, stretch, Set(p.scope, p.key, p.value));
  }

  /** A held detail whose new value differs is asked about when that may be, and has the new value after a yes that can
      be written. */
  lemma ChangedAfterYes(w: World, apps: set<string>, began: Lists, before: seq<Event>, stretch: seq<Event>, n: nat,
                        given: Proposal)
    requires Considered(w, apps, began, before, stretch, n, given) && Permitted(w, apps, given)
    requires var p := Cleaned(w, apps, given);
             var was := Now(began, before, p.scope, p.key);
             && was.Some? && !w.sameValue(was.value, p.value) && MayAsk(w, before, n, p)
             && w.relation(n, p.key, was.value, p.value) in {Different, Adds}
    ensures var p := Cleaned(w, apps, given);
            && stretch != []
            && stretch[0] == Asked(p.scope, p.key, Now(began, before, p.scope, p.key).value, p.value, w.answer(n))
            && (w.answer(n) == Yes && w.writes(n) ==> Now(began, before + stretch, p.scope, p.key) == Some(p.value))
  {
    var p := Cleaned(w, apps, given);
    var list: seq<Detail> :| ListsHeld(list, began, before, p.scope) &&
    NamedAndSettled(w, began, before, stretch, n, p, list);
    assert ValueOf(list, p.key) == Now(began, before, p.scope, p.key);
    if w.answer(n) == Yes && w.writes(n) { SetLast(began, before, stretch, Set(p.scope, p.key, p.value)); }
  }

  lemma SetLast(began: Lists, before: seq<Event>, stretch: seq<Event>, e: Event)
    requires stretch != [] && stretch[|stretch| - 1] == e && e.Set?
    ensures Now(began, before + stretch, e.scope, e.key) == Some(e.value)
  {
    assert (before + stretch)[|before + stretch| - 1] == e;
  }

  /** The proposals that are looked at. */
  function FirstEight(proposals: seq<Proposal>): seq<Proposal> {
    if |proposals| <= 8 then proposals else proposals[..8]
  }

  lemma LookedAt(proposals: seq<Proposal>)
    ensures proposals[..if |proposals| > MAX_PROPOSALS then MAX_PROPOSALS else |proposals|] == FirstEight(proposals)
  {
  }

  /** What is shown at some moment is shown in the end, or the person has said yes to something else since. */
  lemma {:induction false} StaysUnlessYes(began: Lists, log: seq<Event>, from: nat, scope: string, key: string)
    requires GoodLog(began, log) && from <= |log| && Now(began, log[..from], scope, key).Some?
    ensures Now(began, log, scope, key).Some?
    ensures Now(began, log, scope, key) == Now(began, log[..from], scope, key)
            || exists k :: from - 1 <= k && SaidYesTo(log, k, scope, key, Now(began, log, scope, key))
  {
    var n := |log| - 1;
    if from == |log| {
      assert log[..from] == log;
    } else {
      var front, e := log[..n], log[n];
      assert front[..from] == log[..from];
      StaysUnlessYes(began, front, from, scope, key);
      if e.Set? && e.scope == scope && e.key == key {
        assert MaySet(began, front, scope, key, e.value);
        assert front[|front| - 1] == log[n - 1];
        assert SaidYesTo(log, n - 1, scope, key, Some(e.value));
      } else if k :| from - 1 <= k && SaidYesTo(front, k, scope, key, Now(began, front, scope, key)) {
        assert SaidYesTo(log, k, scope, key, Now(began, log, scope, key));
      }
    }
  }

  /** write puts an owned detail in the person's own field, any other in the map. */
  predicate IsField(w: World, scope: string, key: string) {
    scope == PERSONAL && w.typed && w.owns(key)
  }

  function PutHeld(lists: Lists, d: Detail): Lists {
    lists[d.scope := Put(DetailsIn(lists, d.scope), d)]
  }

  lemma PutHeldValue(lists: Lists, d: Detail, scope: string, key: string)
    ensures ValueOf(DetailsIn(PutHeld(lists, d), scope), key) ==
            if scope == d.scope && key == d.key then Some(d.value) else ValueOf(DetailsIn(lists, scope), key)
  {
    PutValue(DetailsIn(lists, d.scope), d, key);
  }

  lemma WrittenView(w: World, rows: Lists, typed: seq<Detail>, d: Detail, scope: string, key: string)
    ensures var field := IsField(w, d.scope, d.key);
            View(w, if field then rows else PutHeld(rows, d), if field then Put(typed, d) else typed, scope, key) ==
            if scope == d.scope && key == d.key then Some(d.value) else View(w, rows, typed, scope, key)
  {
    PutHeldValue(rows, d, scope, key);
    PutValue(typed, d, key);
  }

  class Learner {
    const w: World
    const apps: set<string>
    var rows: Lists
    var typed: seq<Detail>
    var held: Lists
    var questions: nat
    var log: seq<Event>
    ghost var began: Lists

    constructor (w: World, apps: set<string>, rows: Lists, typed: seq<Detail>)
      ensures this.w == w && this.apps == apps && this.rows == rows && this.typed == typed
    {
      this.w, this.apps, this.rows, this.typed := w, apps, rows, typed;
      held, questions, log, began := map[], 0, [], map[];
    }

    /** What is held in memory is what the stores show, and what the log makes of what was held when it began. */
    ghost predicate Valid()
      reads this
    {
      && Shows(w, apps, held, rows, typed) && Follows(held, began, log)
      && GoodLog(began, log) && questions == Questions(log) && questions <= MAX_QUESTIONS
    }

    method Load()
      modifies this`held, this`questions, this`log, this`began
      ensures Valid() && log == [] && began == held
    {
      held := map scope | scope in rows && InScope(apps, scope) :: rows[scope];
      if w.typed {
        var personal := MergeTyped(w, DetailsIn(rows, PERSONAL), typed);
        held := held[PERSONAL := personal];
      }
      questions, log, began := 0, [], held;
    }

    /** write and put: a detail goes where it belongs, and what is held follows. */
    method Write(n: nat, p: Proposal, source: Source) returns (ok: bool)
      requires Valid() && InScope(apps, p.scope) && MaySet(began, log, p.scope, p.key, p.value)
      modifies this`rows, this`typed, this`held, this`log
      ensures Valid() && ok == w.writes(n)
      ensures log == old(log) + if ok then [Set(p.scope, p.key, p.value)] else []
      ensures ok ==> View(w, rows, typed, p.scope, p.key) == Some(p.value)
      ensures forall scope, key :: !ok || scope != p.scope || key != p.key ==>
                View(w, rows, typed, scope, key) == View(w, old(rows), old(typed), scope, key)
    {
      ok := w.writes(n);
      if !ok { return; }
      var d := Detail(p.scope, p.key, p.value, source);
      KeptInStep(d);
      if IsField(w, p.scope, p.key) {
        typed := PutInto(typed, d);
      } else {
        var list := PutInto(DetailsIn(rows, p.scope), d);
        rows := rows[p.scope := list];
      }
      var mine := PutInto(DetailsIn(held, p.scope), d);
      held := held[p.scope := mine];
      log := log + [Set(p.scope, p.key, p.value)];
    }

    /** A detail written in both places is the same in both. */
    lemma KeptInStep(d: Detail)
      requires Valid() && InScope(apps, d.scope) && MaySet(began, log, d.scope, d.key, d.value)
      ensures var field, e := IsField(w, d.scope, d.key), Set(d.scope, d.key, d.value);
              var rows', typed' := if field then rows else PutHeld(rows, d), if field then Put(typed, d) else typed;
              && Shows(w, apps, PutHeld(held, d), rows', typed') && Follows(PutHeld(held, d), began, log + [e])
              && GoodLog(began, log + [e]) && Questions(log + [e]) == Questions(log)
              && forall scope, key {:trigger View(w, rows', typed', scope, key)} ::
                   View(w, rows', typed', scope, key) ==
                   if scope == d.scope && key == d.key then Some(d.value) else View(w, rows, typed, scope, key)
    {
      var field, e := IsField(w, d.scope, d.key), Set(d.scope, d.key, d.value);
      var rows', typed' := if field then rows else PutHeld(rows, d), if field then Put(typed, d) else typed;
      LogOn(began, log, e);
      forall scope, key {:trigger View(w, rows', typed', scope, key)}
        ensures View(w, rows', typed', scope, key) ==
                if scope == d.scope && key == d.key then Some(d.value) else View(w, rows, typed, scope, key)
      {
        WrittenView(w, rows, typed, d, scope, key);
      }
      forall scope, key {:trigger ValueOf(DetailsIn(PutHeld(held, d), scope), key)}
        ensures ValueOf(DetailsIn(PutHeld(held, d), scope), key) ==
                if scope == d.scope && key == d.key then Some(d.value) else ValueOf(DetailsIn(held, scope), key)
      {
        PutHeldValue(held, d, scope, key);
      }
    }

    /** An event that changes no detail. */
    method Note(e: Event)
      requires Valid() && !e.Set? && (e.Asked? ==> questions < MAX_QUESTIONS)
      requires e.Asked? ==> Now(began, log, e.scope, e.key) == Some(e.was)
      requires e.Declined? ==> log != [] && log[|log| - 1].Asked? && log[|log| - 1].answer == No
      modifies this`log, this`questions
      ensures Valid() && log == old(log) + [e] && questions == old(questions) + if e.Asked? then 1 else 0
    {
      LogOn(began, log, e);
      assert Follows(held, began, log + [e]);
      if e.Asked? { questions := questions + 1; }
      log := log + [e];
    }

    /** consider. */
    method Consider(n: nat, given: Proposal)
      requires Valid()
      modifies this`rows, this`typed, this`held, this`questions, this`log
      ensures Valid() && log == old(log) + Done(w, Judged(w, apps, old(held), n, given), n, old(questions))
    {
      var scope := ScopeOf(given);
      if !InScope(apps, scope) { return; }
      var key, value := w.canonical(given.key), w.clean(given.value);
      if key.None? || value.None? || w.never(key.value, value.value) { return; }
      var p := Proposal(scope, key.value, value.value);
      var known := Find(DetailsIn(held, scope), p.key);
      if known.None? && DetailsIn(held, scope) != [] {
        match w.sameKind(n, p, DetailsIn(held, scope)) {
          case Unclear => return;
          case Closest(nearest, score) =>
            if nearest != "" && score >= MATCH_THRESHOLD {
              var other := Find(DetailsIn(held, scope), nearest);
              if other.Some? { p := p.(key := nearest); }
            }
        }
      }
      Weigh(n, p);
    }

    method Weigh(n: nat, p: Proposal)
      requires Valid() && InScope(apps, p.scope)
      modifies this`rows, this`typed, this`held, this`questions, this`log
      ensures Valid() && log == old(log) + Done(w, Weighed(w, DetailsIn(old(held), p.scope), n, p), n, old(questions))
    {
      var was := Find(DetailsIn(held, p.scope), p.key);
      if was.None? {
        if w.lasting(n, p) { var _ := Write(n, p, Said); }
        return;
      }
      if w.sameValue(was.value, p.value) {
        Note(Confirmed(p.scope, p.key));
        return;
      }
      match w.relation(n, p.key, was.value, p.value)
      case NoRelation => return;
      case Same => Note(Confirmed(p.scope, p.key));
      case Different => ProposeChange(n, p, was.value);
      case Adds => ProposeChange(n, p, was.value);
    }

    /** proposeChange: nothing changes unless they say yes. */
    method ProposeChange(n: nat, p: Proposal, value: string)
      requires Valid() && InScope(apps, p.scope) && Now(began, log, p.scope, p.key) == Some(value)
      modifies this`rows, this`typed, this`held, this`questions, this`log
      ensures Valid() && log == old(log) + Done(w, Differs(p, value), n, old(questions))
      ensures View(w, rows, typed, p.scope, p.key) != View(w, old(rows), old(typed), p.scope, p.key) ==>
                w.answer(n) == Yes
    {
      if IsField(w, p.scope, p.key) && !w.valid(p.key, p.value) { return; }
      if w.refused(n, p) || !w.lasting(n, p) || !w.canAsk || questions >= MAX_QUESTIONS { return; }
      var answer := w.answer(n);
      Note(Asked(p.scope, p.key, value, p.value, answer));
      match answer
      case NoAnswer => return;
      case Yes => var _ := Write(n, p, Changed);
      case No => Note(Declined(p.scope, p.key, p.value));
    }

    /** The first proposals, eight at most, one after the other. */
    method ConsiderEach(proposals: seq<Proposal>) returns (ghost cuts: seq<nat>)
      requires Valid() && log == []
      modifies this`rows, this`typed, this`held, this`questions, this`log
      ensures Valid() && AllConsidered(w, apps, began, log, cuts, FirstEight(proposals))
    {
      var n := if |proposals| > MAX_PROPOSALS then MAX_PROPOSALS else |proposals|;
      cuts := [0];
      NoneConsidered(w, apps, began, proposals);
      LookedAt(proposals);
      for i := 0 to n
        invariant Valid() && AllConsidered(w, apps, began, log, cuts, proposals[..i])
      {
        ghost var before, was := log, held;
        Consider(i, proposals[i]);
        NextConsidered(w, apps, was, began, before, log, cuts, proposals, i);
        cuts := cuts + [|log|];
      }
    }

    /** Learn: what is held is loaded, and the first proposals, eight at most, are considered one after the other: cuts
        are where in the log each one's part begins. In the end a detail shows what the log makes of what it showed
        before: the same, or something where it showed nothing, or what the person said yes to. */
    method Learn(proposals: seq<Proposal>) returns (ghost cuts: seq<nat>)
      modifies this
      ensures Valid() && Questions(log) <= MAX_QUESTIONS
      ensures AllConsidered(w, apps, began, log, cuts, FirstEight(proposals))
      ensures forall scope, key {:trigger View(w, rows, typed, scope, key)} :: InScope(apps, scope) ==>
                ShownInTheEnd(began, log, scope, key, View(w, old(rows), old(typed), scope, key),
                              View(w, rows, typed, scope, key))
    {
      Load();
      cuts := ConsiderEach(proposals);
      InTheEnd(w, apps, began, old(rows), old(typed), held, rows, typed, log);
    }
  }

  /** What a detail showed before and what it shows in the end are what the log says, and another value is there only
      where there was none, or because the person said yes to it. */
  ghost predicate ShownInTheEnd(began: Lists, log: seq<Event>, scope: string, key: string, before: Option<string>,
                                after: Option<string>)
  {
    && Now(began, [], scope, key) == before && Now(began, log, scope, key) == after
    && (after == before || before.None? || exists k :: SaidYesTo(log, k, scope, key, after))
  }

  lemma InTheEnd(w: World, apps: set<string>, began: Lists, rows0: Lists, typed0: seq<Detail>, held: Lists, rows: Lists,
                 typed: seq<Detail>, log: seq<Event>)
    requires Shows(w, apps, began, rows0, typed0) && Shows(w, apps, held, rows, typed)
    requires Follows(held, began, log) && GoodLog(began, log)
    ensures forall scope, key {:trigger View(w, rows, typed, scope, key)} :: InScope(apps, scope) ==>
              ShownInTheEnd(began, log, scope, key, View(w, rows0, typed0, scope, key),
                            View(w, rows, typed, scope, key))
  {
    forall scope, key {:trigger View(w, rows, typed, scope, key)} | InScope(apps, scope)
      ensures ShownInTheEnd(began, log, scope, key, View(w, rows0, typed0, scope, key),
                            View(w, rows, typed, scope, key))
    {
      var before, after := ValueOf(DetailsIn(began, scope), key), ValueOf(DetailsIn(held, scope), key);
      assert before == View(w, rows0, typed0, scope, key) && after == View(w, rows, typed, scope, key);
      if before.Some? && after != before {
        var k := ReplacedOnlyAfterYes(began, log, scope, key);
        assert SaidYesTo(log, k, scope, key, after);
      }
    }
  }

  /** Each proposal was considered in its turn: proposal i after log[..cuts[i]], leaving log[cuts[i]..cuts[i + 1]]. */
  ghost predicate AllConsidered(w: World, apps: set<string>, began: Lists, log: seq<Event>, cuts: seq<nat>,
                                proposals: seq<Proposal>)
  {
    && |cuts| == |proposals| + 1 && cuts[0] == 0 && cuts[|proposals|] == |log|
    && (forall i :: 0 <= i < |cuts| ==> cuts[i] <= |log|)
    && forall i :: 0 <= i < |proposals| ==> ConsideredAt(w, apps, began, log, cuts[i], cuts[i + 1], i, proposals[i])
  }

  ghost predicate ConsideredAt(w: World, apps: set<string>, began: Lists, log: seq<Event>, from: nat, to: nat, n: nat,
                               given: Proposal)
  {
    from <= to <= |log| && Considered(w, apps, began, log[..from], log[from..to], n, given)
  }

  lemma OneMoreConsidered(w: World, apps: set<string>, began: Lists, before: seq<Event>, stretch: seq<Event>,
                          log: seq<Event>, cuts: seq<nat>, proposals: seq<Proposal>, i: nat)
    requires i < |proposals| && AllConsidered(w, apps, began, before, cuts, proposals[..i]) && log == before + stretch
    requires Considered(w, apps, began, before, stretch, i, proposals[i])
    ensures AllConsidered(w, apps, began, log, cuts + [|log|], proposals[..i + 1])
  {
    var more := cuts + [|log|];
    forall k | 0 <= k < i + 1 ensures ConsideredAt(w, apps, began, log, more[k], more[k + 1], k, proposals[k]) {
      if k < i {
        assert ConsideredAt(w, apps, began, before, cuts[k], cuts[k + 1], k, proposals[..i][k]);
        StillConsidered(w, apps, began, before, stretch, cuts[k], cuts[k + 1], k, proposals[k]);
      } else {
        assert log[..|before|] == before && log[|before|..|log|] == stretch;
      }
    }
  }

  lemma NoneConsidered(w: World, apps: set<string>, began: Lists, proposals: seq<Proposal>)
    ensures AllConsidered(w, apps, began, [], [0], proposals[..0])
  {
  }

  lemma NextConsidered(w: World, apps: set<string>, held: Lists, began: Lists, before: seq<Event>, log: seq<Event>,
                       cuts: seq<nat>, proposals: seq<Proposal>, i: nat)
    requires i < |proposals| && AllConsidered(w, apps, began, before, cuts, proposals[..i])
    requires Follows(held, began, before)
    requires log == before + Done(w, Judged(w, apps, held, i, proposals[i]), i, Questions(before))
    ensures AllConsidered(w, apps, began, log, cuts + [|log|], proposals[..i + 1])
  {
    var stretch := Done(w, Judged(w, apps, held, i, proposals[i]), i, Questions(before));
    ConsideredExactly(w, apps, held, began, before, i, proposals[i]);
    OneMoreConsidered(w, apps, began, before, stretch, log, cuts, proposals, i);
  }

  lemma StillConsidered(w: World, apps: set<string>, began: Lists, before: seq<Event>, more: seq<Event>, from: nat,
                        to: nat, n: nat, given: Proposal)
    requires ConsideredAt(w, apps, began, before, from, to, n, given)
    ensures ConsideredAt(w, apps, began, before + more, from, to, n, given)
  {
    assert (before + more)[..from] == before[..from] && (before + more)[from..to] == before[from..to];
  }

  /** The person was asked about this detail, and said yes to this value. */
  predicate SaidYesTo(log: seq<Event>, k: nat, scope: string, key: string, value: Option<string>) {
    k < |log| && log[k].Asked? && log[k].scope == scope && log[k].key == key && log[k].answer == Yes &&
    value == Some(log[k].stated)
  }
}
