/** runtime/profile_learn.go: what an exchange teaches about a person, one detail at a time. A detail that is held is
    replaced only when the person says yes to that change. */
module LearnDetails {
  import opened Values

  const PERSONAL := "personal"
  const MATCH_THRESHOLD := 0.7
  const MAX_PROPOSALS := 8
  const MAX_QUESTIONS := 2

  datatype Source = Said | Changed | Kept

  datatype Detail = Detail(scope: string, key: string, value: string, source: Source)

  datatype Proposal = Proposal(scope: string, key: string, value: string)

  datatype Match = Unclear | Closest(key: string, score: real)

  datatype Relation = Different | Same | Adds | NoRelation

  datatype Answer = Yes | No | NoAnswer

  /** The judge, the person and the stores' failures, by the number of the proposal; and what is text only. typed is
      whether some details are fields of their own, owns which. */
  datatype World = World(
    canonical: string -> Option<string>, clean: string -> Option<string>, never: (string, string) -> bool,
    sameValue: (string, string) -> bool, typed: bool, owns: string -> bool, valid: (string, string) -> bool,
    sameKind: (nat, Proposal, seq<Detail>) -> Match, relation: (nat, string, string, string) -> Relation,
    lasting: (nat, Proposal) -> bool, refused: (nat, Proposal) -> bool, canAsk: bool, answer: nat -> Answer,
    writes: nat -> bool)

  // ── Lists of details ────────────────────────────────────────────────────────

  /** The value held under a key: the first. */
  function ValueOf(list: seq<Detail>, key: string): Option<string> {
    if list == [] then None
    else if list[0].key == key then Some(list[0].value) else ValueOf(list[1..], key)
  }

  /** put: in place of the first of its key, or at the end. */
  function Put(list: seq<Detail>, d: Detail): seq<Detail> {
    if list == [] then [d]
    else if list[0].key == d.key then [list[0].(value := d.value, source := d.source)] + list[1..]
    else [list[0]] + Put(list[1..], d)
  }

  lemma {:induction false} PutValue(list: seq<Detail>, d: Detail, key: string)
    ensures ValueOf(Put(list, d), key) == if key == d.key then Some(d.value) else ValueOf(list, key)
  {
    if list != [] && list[0].key != d.key { PutValue(list[1..], d, key); }
  }

  lemma {:induction false} ValueOfParts(a: seq<Detail>, b: seq<Detail>, key: string)
    ensures ValueOf(a + b, key) == if ValueOf(a, key).Some? then ValueOf(a, key) else ValueOf(b, key)
  {
    if a == [] {
      assert a + b == b;
    } else {
      assert (a + b)[1..] == a[1..] + b;
      ValueOfParts(a[1..], b, key);
    }
  }

  method PutInto(list: seq<Detail>, d: Detail) returns (out: seq<Detail>)
    ensures out == Put(list, d)
  {
    for i := 0 to |list|
      invariant Put(list, d) == list[..i] + Put(list[i..], d)
    {
      assert list[i..][1..] == list[i + 1..];
      if list[i].key == d.key {
        return list[i := list[i].(value := d.value, source := d.source)];
      }
      assert list[..i] + ([list[i]] + Put(list[i + 1..], d)) == list[..i + 1] + Put(list[i + 1..], d);
    }
    assert list[..|list|] == list && list[|list|..] == [];
    return list + [d];
  }

  method Find(list: seq<Detail>, key: string) returns (value: Option<string>)
    ensures value == ValueOf(list, key)
  {
    for i := 0 to |list|
      invariant ValueOf(list, key) == ValueOf(list[i..], key)
    {
      assert list[i..][1..] == list[i + 1..];
      if list[i].key == key { return Some(list[i].value); }
    }
    return None;
  }

  // ── The personal map, with the person's own fields in it ────────────────────

  /** What the personal map shows for a key: the field's value for an owned key that has one, else the stored value,
      else what the typed side has. */
  function Shown(w: World, stored: seq<Detail>, typed: seq<Detail>, key: string): Option<string> {
    if w.owns(key) && ValueOf(typed, key).Some? then ValueOf(typed, key)
    else if ValueOf(stored, key).Some? then ValueOf(stored, key) else ValueOf(typed, key)
  }

  function Keys(list: seq<Detail>): set<string> {
    set d | d in list :: d.key
  }

  lemma {:induction false} ValueInKeys(list: seq<Detail>, key: string)
    ensures ValueOf(list, key).Some? <==> key in Keys(list)
  {
    if list != [] {
      ValueInKeys(list[1..], key);
      assert list == [list[0]] + list[1..];
    }
  }

  /** One more detail at the end tells only of a key that had no value. */
  lemma Appended(list: seq<Detail>, d: Detail)
    ensures forall key :: ValueOf(list + [d], key) ==
              if ValueOf(list, key).Some? then ValueOf(list, key) else if key == d.key then Some(d.value) else None
    ensures forall key :: ValueOf(list, key).Some? <==> key in Keys(list)
    ensures Keys(list + [d]) == Keys(list) + {d.key}
  {
    forall key ensures ValueOf(list + [d], key) ==
                         if ValueOf(list, key).Some? then ValueOf(list, key) else if key == d.key then Some(d.value)
                              else None
    {
      ValueOfParts(list, [d], key);
    }
    forall key ensures ValueOf(list, key).Some? <==> key in Keys(list) { ValueInKeys(list, key); }
  }

  lemma NextOf(list: seq<Detail>, i: nat)
    requires i < |list|
    ensures list[..i + 1] == list[..i] + [list[i]]
  {
  }

  /** MergeTyped: an owned key comes from the typed side, any other from there only where the map has a gap. */
  method MergeTyped(w: World, stored: seq<Detail>, typed: seq<Detail>) returns (out: seq<Detail>)
    ensures forall key :: ValueOf(out, key) == Shown(w, stored, typed, key)
  {
    out := OwnedOf(w, typed);
    out := Fill(out, stored, false);
    out := Fill(out, typed, true);
  }

  method OwnedOf(w: World, typed: seq<Detail>) returns (out: seq<Detail>)
    ensures forall key :: ValueOf(out, key) == if w.owns(key) then ValueOf(typed, key) else None
  {
    out := [];
    for i := 0 to |typed|
      invariant forall key :: ValueOf(out, key) == if w.owns(key) then ValueOf(typed[..i], key) else None
    {
      NextOf(typed, i);
      Appended(typed[..i], typed[i]);
      if w.owns(typed[i].key) {
        Appended(out, typed[i].(scope := PERSONAL));
        out := out + [typed[i].(scope := PERSONAL)];
      }
    }
    assert typed[..|typed|] == typed;
  }

  /** The details of more for the keys that have none. */
  method Fill(list: seq<Detail>, more: seq<Detail>, personal: bool) returns (out: seq<Detail>)
    ensures forall key :: ValueOf(out, key) == if ValueOf(list, key).Some? then ValueOf(list, key)
                                               else ValueOf(more, key)
  {
    out := list;
    var have := Keys(list);
    for i := 0 to |more|
      invariant have == Keys(out)
      invariant forall key :: ValueOf(out, key) == if ValueOf(list, key).Some? then ValueOf(list, key)
                                                   else ValueOf(more[..i], key)
    {
      var d := if personal then more[i].(scope := PERSONAL) else more[i];
      NextOf(more, i);
      Appended(more[..i], more[i]);
      Appended(out, d);
      if d.key !in have {
        out := out + [d];
        have := have + {d.key};
      }
    }
    assert more[..|more|] == more;
  }
}
