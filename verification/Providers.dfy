/** domain/loop.go: asking the model through several providers, in order of preference, with retries and a rest for one
    that keeps failing. What the loop sees of it is one answer, or none. */
module Providers {
  import opened Values

  const MAX_RETRIES := 3
  const COOLDOWN := 60

  datatype Outcome = Answered(text: string) | OutOfCredit | Failing

  /** One call to one provider. */
  datatype Try = Try(provider: nat, outcome: Outcome)

  /** What each moment brings: a provider's answer, the time, and whether the wait before a retry is cut off. */
  datatype World = World(answer: (nat, nat) -> Outcome, clock: nat -> int, cutOff: nat -> bool)

  // ── What a round of calls may look like ─────────────────────────────────────

  function TimesTried(tries: seq<Try>, i: nat): nat {
    if tries == [] then 0 else TimesTried(tries[..|tries| - 1], i) + if tries[|tries| - 1].provider == i then 1 else 0
  }

  predicate NoneAnswered(tries: seq<Try>) {
    forall t :: t in tries ==> !t.outcome.Answered?
  }

  predicate OnlyBelow(tries: seq<Try>, i: nat) {
    forall t :: t in tries ==> t.provider < i
  }

  predicate InTurn(tries: seq<Try>) {
    forall j, k :: 0 <= j < k < |tries| ==> tries[j].provider <= tries[k].provider
  }

  ghost predicate FewTries(tries: seq<Try>) {
    forall i {:trigger TimesTried(tries, i)} :: 0 <= i ==> TimesTried(tries, i) <= MAX_RETRIES
  }

  lemma {:induction false} TriedParts(a: seq<Try>, b: seq<Try>, i: nat)
    ensures TimesTried(a + b, i) == TimesTried(a, i) + TimesTried(b, i)
    decreases |b|
  {
    if b == [] {
      assert a + b == a;
    } else {
      assert (a + b)[..|a| + |b| - 1] == a + b[..|b| - 1];
      TriedParts(a, b[..|b| - 1], i);
    }
  }

  lemma {:induction false} NotTried(tries: seq<Try>, i: nat)
    requires forall t :: t in tries ==> t.provider != i
    ensures TimesTried(tries, i) == 0
  {
    if tries != [] { NotTried(tries[..|tries| - 1], i); }
  }

  /** How many tries the providers before k took. */
  function TriesBelow(tries: seq<Try>, k: nat): nat {
    if tries == [] then 0 else TriesBelow(tries[..|tries| - 1], k) + if tries[|tries| - 1].provider < k then 1 else 0
  }

  lemma {:induction false} BelowParts(a: seq<Try>, b: seq<Try>, k: nat)
    ensures TriesBelow(a + b, k) == TriesBelow(a, k) + TriesBelow(b, k)
    decreases |b|
  {
    if b == [] {
      assert a + b == a;
    } else {
      assert (a + b)[..|a| + |b| - 1] == a + b[..|b| - 1];
      BelowParts(a, b[..|b| - 1], k);
    }
  }

  lemma {:induction false} AllBelow(tries: seq<Try>, k: nat)
    ensures OnlyBelow(tries, k) ==> TriesBelow(tries, k) == |tries|
    ensures (forall t :: t in tries ==> t.provider >= k) ==> TriesBelow(tries, k) == 0
  {
    if tries != [] {
      var so := tries[..|tries| - 1];
      AllBelow(so, k);
      assert forall t :: t in so ==> t in tries;
      assert tries[|tries| - 1] in tries;
    }
  }

  predicate AnsweredBy(own: seq<Try>, k: nat) {
    own != [] && own[|own| - 1].provider == k && own[|own| - 1].outcome.Answered?
  }

  /** What a round made of provider k of so many, whose turn came before call number start and was over before call
      number end: resting then, it was passed over, unless it is the last; otherwise it was tried, and then rests no
      more if it answered, and for the cooldown if it did not, unless it is the last. */
  predicate TreatedFrom(world: World, count: nat, k: nat, start: nat, end: nat, tried: nat, answered: bool,
                        was: map<nat, int>, rest: map<nat, int>)
  {
    if k + 1 < count && k in was && world.clock(start) < was[k] then tried == 0 && k in rest && rest[k] == was[k]
    else if answered || k + 1 == count then tried > 0 && k !in rest
    else tried > 0 && k in rest && rest[k] == world.clock(end) + COOLDOWN
  }

  /** The same of a round whose first call is number n. */
  predicate Treated(world: World, count: nat, n: nat, own: seq<Try>, was: map<nat, int>, rest: map<nat, int>, k: nat) {
    TreatedFrom(world, count, k, n + TriesBelow(own, k), n + TriesBelow(own, k + 1), TimesTried(own, k),
                AnsweredBy(own, k), was, rest)
  }

  ghost predicate AllTreated(world: World, count: nat, n: nat, own: seq<Try>, was: map<nat, int>, rest: map<nat, int>,
                             reached: nat) {
    forall k {:trigger Treated(world, count, n, own, was, rest, k)} :: 0 <= k < reached ==>
      Treated(world, count, n, own, was, rest, k)
  }

  /** Each provider in its turn, three times at most. */
  ghost predicate Orderly(tries: seq<Try>, below: nat) {
    OnlyBelow(tries, below) && InTurn(tries) && FewTries(tries)
  }

  /** The tries of one provider, at most three, put behind those of the ones before it. */
  lemma NextProvider(before: seq<Try>, own: seq<Try>, i: nat)
    requires Orderly(before, i)
    requires |own| <= MAX_RETRIES && forall t :: t in own ==> t.provider == i
    ensures Orderly(before + own, i + 1)
  {
    forall j: nat {:trigger TimesTried(before + own, j)} ensures TimesTried(before + own, j) <= MAX_RETRIES {
      TriedParts(before, own, j);
      if j == i { NotTried(before, j); AtMostAll(own, j); } else { NotTried(own, j); }
    }
  }

  lemma {:induction false} AtMostAll(tries: seq<Try>, i: nat)
    ensures TimesTried(tries, i) <= |tries|
  {
    if tries != [] { AtMostAll(tries[..|tries| - 1], i); }
  }

  class Providers {
    const count: nat
    const world: World
    var downUntil: map<nat, int>
    var tries: seq<Try>

    constructor (count: nat, world: World)
      ensures Valid() && this.count == count && this.world == world && downUntil == map[] && tries == []
    {
      this.count, this.world, downUntil, tries := count, world, map[], [];
    }

    /** The last provider is never resting: there would be nobody left to ask. */
    predicate Valid()
      reads this
    {
      forall i :: i in downUntil ==> i + 1 < count
    }

    predicate IsDown(i: nat, moment: nat)
      reads this
    {
      i in downUntil && world.clock(moment) < downUntil[i]
    }

    /** callWithRetry: again after a failure, but not when the account is empty or the wait is cut off. */
    method CallWithRetry(i: nat) returns (answer: Option<string>, ghost own: seq<Try>)
      modifies this`tries
      ensures tries == old(tries) + own && OwnTries(own, i) && Ends(own, answer)
      ensures StopsRightly(world, |old(tries)|, own, i)
    {
      var attempt := 0;
      own := [];
      while true
        invariant 0 <= attempt < MAX_RETRIES && tries == old(tries) + own && |own| == attempt
        invariant Retrying(world, |old(tries)|, own, i)
        decreases MAX_RETRIES - attempt
      {
        var outcome := world.answer(|tries|, i);
        OneTryMore(world, |old(tries)|, own, i, outcome);
        Lengthened(old(tries), own, Try(i, outcome));
        tries, own := tries + [Try(i, outcome)], own + [Try(i, outcome)];
        if outcome.Answered? { return Some(outcome.text), own; }
        if outcome.OutOfCredit? || attempt == MAX_RETRIES - 1 || world.cutOff(|tries|) { return None, own; }
        attempt := attempt + 1;
      }
    }

    /** callLLM: the first that answers, in order; one that is resting is passed over, but never the last. */
    method Ask() returns (answer: Option<string>, ghost own: seq<Try>)
      requires Valid()
      modifies this`tries, this`downUntil
      ensures Valid() && tries == old(tries) + own
      ensures Orderly(own, count) && (count > 0 ==> own != [] && Ends(own, answer))
      ensures answer.None? && count > 0 ==> own != [] && own[|own| - 1].provider == count - 1
      ensures answer.Some? ==> own != []
      ensures AllTreated(world, count, |old(tries)|, own, old(downUntil), downUntil,
                         if answer.Some? then own[|own| - 1].provider + 1 else count)
      ensures RestAsBefore(own, old(downUntil), downUntil)
    {
      own := [];
      answer := None;
      var i := 0;
      while i < count
        invariant 0 <= i <= count && Valid() && tries == old(tries) + own
        invariant Orderly(own, i) && NoneAnswered(own) && answer.None?
        invariant i == count > 0 ==> own != [] && own[|own| - 1].provider == count - 1
        invariant AllTreated(world, count, |old(tries)|, own, old(downUntil), downUntil, i)
        invariant RestAsBefore(own, old(downUntil), downUntil)
      {
        var last := i == count - 1;
        if !last && IsDown(i, |tries|) {
          PassedOver(world, count, |old(tries)|, own, old(downUntil), downUntil, i);
          i := i + 1;
          continue;
        }
        answer, own := AskOne(i, last, own, old(downUntil), |old(tries)|);
        if answer.Some? { return; }
        i := i + 1;
      }
    }

    /** One provider that is not passed over: one that answers rests no more, one that does not rests, but for the last.
        */
    method AskOne(i: nat, last: bool, ghost before: seq<Try>, ghost was: map<nat, int>, ghost n: nat)
      returns (answer: Option<string>, ghost own: seq<Try>)
      requires Valid() && i < count && last == (i == count - 1) && (last || !IsDown(i, |tries|)) &&
               |tries| == n + |before|
      requires Orderly(before, i) && NoneAnswered(before) && RestAsBefore(before, was, downUntil)
      requires AllTreated(world, count, n, before, was, downUntil, i)
      modifies this`tries, this`downUntil
      ensures Valid() && before <= own && tries == old(tries) + own[|before|..]
      ensures Orderly(own, i + 1) && Ends(own, answer) && (answer.None? ==> NoneAnswered(own)) &&
              own[|own| - 1].provider == i
      ensures RestAsBefore(own, was, downUntil) && AllTreated(world, count, n, own, was, downUntil, i + 1)
    {
      ghost var now, rest := [], downUntil;
      answer, now := CallWithRetry(i);
      own := before + now;
      NextProvider(before, now, i);
      EndsAfter(before, now, answer);
      var until := world.clock(|tries|) + COOLDOWN;
      RestOn(before, now, i, was, downUntil, until);
      if answer.Some? {
        downUntil := downUntil - {i};
      } else if !last {
        downUntil := downUntil[i := until];
      }
      Tried(world, count, n, before, now, was, rest, downUntil, i);
    }
  }

  lemma PassedOver(world: World, count: nat, n: nat, own: seq<Try>, was: map<nat, int>, rest: map<nat, int>, i: nat)
    requires AllTreated(world, count, n, own, was, rest, i) && OnlyBelow(own, i) && RestAsBefore(own, was, rest)
    requires i + 1 < count && i in rest && world.clock(n + |own|) < rest[i]
    ensures AllTreated(world, count, n, own, was, rest, i + 1)
  {
    NotTried(own, i);
    AllBelow(own, i);
    assert i in was;
  }

  lemma TriedLater(before: seq<Try>, now: seq<Try>, i: nat, k: nat)
    requires OnlyBelow(before, i) && OwnTries(now, i) && k <= i
    ensures TimesTried(before + now, k) == (if k < i then TimesTried(before, k) else TimesTried(now, k))
    ensures TriesBelow(before + now, k) == (if k < i then TriesBelow(before, k) else |before|)
    ensures TriesBelow(before + now, k + 1) == if k < i then TriesBelow(before, k + 1) else |before| + |now|
    ensures AnsweredBy(before + now, k) <==> k == i && now[|now| - 1].outcome.Answered?
  {
    TriedParts(before, now, k);
    BelowParts(before, now, k);
    BelowParts(before, now, k + 1);
    AllBelow(now, k);
    AllBelow(now, k + 1);
    if k < i {
      NotTried(now, k);
    } else {
      NotTried(before, i);
      AllBelow(before, i);
      AllBelow(before, i + 1);
    }
    assert now[|now| - 1] in now && (before + now)[|before + now| - 1] == now[|now| - 1];
  }

  lemma StillTreated(world: World, count: nat, k: nat, start: nat, end: nat, tried: nat, was: map<nat, int>,
                     rest: map<nat, int>, after: map<nat, int>)
    requires TreatedFrom(world, count, k, start, end, tried, false, was, rest)
    requires (k in after <==> k in rest) && (k in rest ==> after[k] == rest[k])
    ensures TreatedFrom(world, count, k, start, end, tried, false, was, after)
  {
  }

  lemma NowTreated(world: World, count: nat, i: nat, start: nat, end: nat, tried: nat, answered: bool,
                   was: map<nat, int>, rest: map<nat, int>, after: map<nat, int>)
    requires tried > 0 && i < count && (i in was <==> i in rest) && (i in rest ==> rest[i] == was[i])
    requires (i + 1 == count ==> i !in rest) && (i + 1 < count && i in rest ==> world.clock(start) >= rest[i])
    requires after == if answered then rest - {i} else if i + 1 == count then rest
                                                       else rest[i := world.clock(end) + COOLDOWN]
    ensures TreatedFrom(world, count, i, start, end, tried, answered, was, after)
  {
  }

  /** A provider was tried: it is treated as it should be, and those before it still are. */
  lemma Tried(world: World, count: nat, n: nat, before: seq<Try>, now: seq<Try>, was: map<nat, int>,
              rest: map<nat, int>, after: map<nat, int>, i: nat)
    requires AllTreated(world, count, n, before, was, rest, i) && OnlyBelow(before, i)
    requires RestAsBefore(before, was, rest)
    requires NoneAnswered(before) && OwnTries(now, i) && i < count && (i + 1 == count ==> i !in rest)
    requires i + 1 < count && i in rest ==> world.clock(n + |before|) >= rest[i]
    requires after == if now[|now| - 1].outcome.Answered? then rest - {i}
                      else if i + 1 == count then rest else rest[i := world.clock(n + |before| + |now|) + COOLDOWN]
    ensures AllTreated(world, count, n, before + now, was, after, i + 1)
  {
    forall k: nat | k <= i ensures Treated(world, count, n, before + now, was, after, k) {
      TriedLater(before, now, i, k);
      if k < i {
        assert Treated(world, count, n, before, was, rest, k) && !AnsweredBy(before, k);
        StillTreated(world, count, k, n + TriesBelow(before, k), n + TriesBelow(before, k + 1), TimesTried(before, k),
                     was, rest, after);
      } else {
        OwnTried(now, i);
        NotTried(before, i);
        assert i in was <==> i in rest;
        NowTreated(world, count, i, n + |before|, n + |before| + |now|, TimesTried(now, i),
                   now[|now| - 1].outcome.Answered?, was, rest, after);
      }
    }
  }

  /** Try k of a provider, in a round of calls that begins with number n, is what it answered, and is tried again. */
  predicate GoesOn(world: World, n: nat, own: seq<Try>, i: nat, k: nat)
    requires k < |own|
  {
    own[k].outcome == world.answer(n + k, i) == Failing && !world.cutOff(n + k + 1)
  }

  /** Every try so far was of this provider, and is to be followed by another. */
  predicate Retrying(world: World, n: nat, own: seq<Try>, i: nat) {
    forall k :: 0 <= k < |own| ==> own[k].provider == i && GoesOn(world, n, own, i, k)
  }

  lemma Lengthened(all: seq<Try>, own: seq<Try>, t: Try)
    ensures all + own + [t] == all + (own + [t]) && |all + own| == |all| + |own|
  {
  }

  lemma OneTryMore(world: World, n: nat, own: seq<Try>, i: nat, outcome: Outcome)
    requires Retrying(world, n, own, i) && outcome == world.answer(n + |own|, i) && |own| < MAX_RETRIES
    ensures var more := own + [Try(i, outcome)];
            && OwnTries(more, i) && Ends(more, if outcome.Answered? then Some(outcome.text) else None)
            && (outcome == Failing && !world.cutOff(n + |more|) ==> Retrying(world, n, more, i))
            && ((outcome == Failing && !world.cutOff(n + |more|) && |more| < MAX_RETRIES) ||
                StopsRightly(world, n, more, i))
  {
    var more := own + [Try(i, outcome)];
    assert more[..|more| - 1] == own;
    forall k | 0 <= k < |own| ensures more[k] == own[k] && GoesOn(world, n, more, i, k) {
      assert GoesOn(world, n, own, i, k);
    }
  }

  /** A provider is tried again as long as it is failing and the wait is not cut off, three times in all; each try is
      what it answered. */
  predicate StopsRightly(world: World, n: nat, own: seq<Try>, i: nat) {
    && own != [] && (forall k :: 0 <= k < |own| - 1 ==> GoesOn(world, n, own, i, k))
    && own[|own| - 1].outcome == world.answer(n + |own| - 1, i)
    && (own[|own| - 1].outcome == Failing && !world.cutOff(n + |own|) ==> |own| == 3)
  }

  predicate OwnTries(own: seq<Try>, i: nat) {
    0 < |own| <= MAX_RETRIES && forall t :: t in own ==> t.provider == i
  }

  /** Only the last try was answered, if any was: with this answer. */
  predicate Ends(own: seq<Try>, answer: Option<string>) {
    && own != [] && NoneAnswered(own[..|own| - 1])
    && match answer
       case Some(text) => own[|own| - 1].outcome == Answered(text)
       case None => !own[|own| - 1].outcome.Answered?
  }

  lemma EndsAfter(before: seq<Try>, own: seq<Try>, answer: Option<string>)
    requires NoneAnswered(before) && Ends(own, answer)
    ensures Ends(before + own, answer) && (answer.None? ==> NoneAnswered(before + own))
  {
    var all := before + own;
    assert all[..|all| - 1] == before + own[..|own| - 1];
    assert own == own[..|own| - 1] + [own[|own| - 1]];
  }

  /** A provider that was not called rests for as long as it did. */
  ghost predicate RestAsBefore(own: seq<Try>, was: map<nat, int>, rest: map<nat, int>) {
    forall k: nat {:trigger k in rest} {:trigger k in was} :: TimesTried(own, k) == 0 ==>
      (k in rest <==> k in was) && (k in rest ==> rest[k] == was[k])
  }

  lemma RestOn(before: seq<Try>, own: seq<Try>, i: nat, was: map<nat, int>, rest: map<nat, int>, until: int)
    requires RestAsBefore(before, was, rest) && OwnTries(own, i)
    ensures TimesTried(before + own, i) > 0
    ensures RestAsBefore(before + own, was, rest[i := until])
    ensures RestAsBefore(before + own, was, rest) && RestAsBefore(before + own, was, rest - {i})
  {
    forall k: nat
      ensures TimesTried(before + own, k) >= TimesTried(before, k) && (k == i ==> TimesTried(before + own, k) > 0)
    {
      TriedParts(before, own, k);
      if k == i { OwnTried(own, i); }
    }
  }

  lemma {:induction false} OwnTried(own: seq<Try>, i: nat)
    requires own != [] && forall t :: t in own ==> t.provider == i
    ensures TimesTried(own, i) > 0
  {
    assert own[|own| - 1] in own;
  }
}
