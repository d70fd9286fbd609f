/** Folding one person into another (postgres/merge.go:81-168, 261-304; postgres/person.go:226-241;
    postgres/sender.go:177-188). Merges run one at a time. */
module MergePeople {
  import opened Values
  import opened DuplicatePeople
  import opened MergeRows

  /** merged_into, and the fields a person told us about themselves, "" where nothing is known. */
  datatype Person = Person(mergedInto: Option<Id>, told: seq<string>)

  // ── Who remains ─────────────────────────────────────────────────────────────

  function Home(persons: map<Id, Person>, id: Id): Id
    requires id in persons
  {
    if persons[id].mergedInto.Some? then persons[id].mergedInto.value else id
  }

  predicate Remains(persons: map<Id, Person>, id: Id) {
    id in persons && persons[id].mergedInto.None?
  }

  /** Everyone who was merged points straight at someone who remains. */
  ghost predicate Flat(persons: map<Id, Person>) {
    forall id {:trigger Home(persons, id)} :: id in persons ==> Remains(persons, Home(persons, id))
  }

  /** The survivor's value stays, gaps are filled. */
  function FillGaps(mine: seq<string>, theirs: seq<string>): seq<string> {
    seq(|mine|, i requires 0 <= i < |mine| => if mine[i] == "" && i < |theirs| then theirs[i] else mine[i])
  }

  function Blank(told: seq<string>): seq<string> { seq(|told|, i => "") }

  /** The persons table after from was folded into to. */
  function Folded(persons: map<Id, Person>, from: Id, to: Id): map<Id, Person>
    requires from in persons && to in persons
  {
    map id | id in persons ::
      if id == from then Person(Some(to), Blank(persons[id].told))
      else if id == to then persons[id].(told := FillGaps(persons[id].told, persons[from].told))
      else if persons[id].mergedInto == Some(from) then persons[id].(mergedInto := Some(to))
      else persons[id]
  }

  /** Folding keeps the table flat, and is the union of the two people: whoever led to from leads to to, and nobody else
      moves. */
  lemma FoldingIsUnion(persons: map<Id, Person>, from: Id, to: Id)
    requires Flat(persons) && Remains(persons, from) && Remains(persons, to) && from != to
    ensures var after := Folded(persons, from, to);
            && Flat(after) && after.Keys == persons.Keys && Remains(after, to) && !Remains(after, from)
            && forall id {:trigger Home(after, id)} :: id in persons ==>
                 Home(after, id) == if Home(persons, id) == from then to else Home(persons, id)
  {
    var after := Folded(persons, from, to);
    forall id {:trigger Home(after, id)} | id in persons
      ensures Remains(after, Home(after, id))
      ensures Home(after, id) == if Home(persons, id) == from then to else Home(persons, id)
    {
      assert Remains(persons, Home(persons, id));
    }
  }

  /** What the survivor told of themselves stays and only its gaps are filled; the merged person keeps nothing, and
      everyone else what they told. */
  lemma GapsAreFilled(persons: map<Id, Person>, from: Id, to: Id, i: nat)
    requires from in persons && to in persons && from != to
    requires i < |persons[from].told| == |persons[to].told|
    ensures var after := Folded(persons, from, to);
            && |after[to].told| == |persons[to].told| && |after[from].told| == |persons[from].told|
            && after[from].told[i] == ""
            && (persons[to].told[i] != "" ==> after[to].told[i] == persons[to].told[i])
            && (persons[to].told[i] == "" ==> after[to].told[i] == persons[from].told[i])
            && forall id :: id in persons && id != from && id != to ==> after[id].told == persons[id].told
  {
  }

  /** Merging only some to someone not there, or already merged, or to themselves is an error and changes nothing. */
  predicate MayFold(persons: map<Id, Person>, from: Id, to: Id) {
    from.text != "" && to.text != "" && from != to && Remains(persons, from) && to in persons
  }

  /** One MergePersons request, with its target followed first. */
  function Requested(persons: map<Id, Person>, from: Id, to: Id): map<Id, Person> {
    if to in persons && MayFold(persons, from, Home(persons, to)) then Folded(persons, from, Home(persons, to))
    else persons
  }

  datatype Request = Request(from: Id, to: Id)

  function RequestAll(persons: map<Id, Person>, reqs: seq<Request>): map<Id, Person> {
    if reqs == [] then persons
    else Requested(RequestAll(persons, reqs[..|reqs| - 1]), reqs[|reqs| - 1].from, reqs[|reqs| - 1].to)
  }

  /** Over any run of merges: no chain is ever longer than one step, and two people once led to the same person are so
      for good. */
  lemma {:induction false} AlwaysFlat(persons: map<Id, Person>, reqs: seq<Request>)
    requires Flat(persons)
    ensures var after := RequestAll(persons, reqs);
            && Flat(after) && after.Keys == persons.Keys
            && forall p, q {:trigger Home(after, p), Home(after, q)} ::
                 p in persons && q in persons && Home(persons, p) == Home(persons, q) ==>
                   Home(after, p) == Home(after, q)
  {
    if reqs != [] {
      var before := RequestAll(persons, reqs[..|reqs| - 1]);
      var Request(from, to) := reqs[|reqs| - 1];
      AlwaysFlat(persons, reqs[..|reqs| - 1]);
      if to in before && MayFold(before, from, Home(before, to)) {
        assert Remains(before, Home(before, to));
        FoldingIsUnion(before, from, Home(before, to));
      }
    }
  }

  // ── The store ───────────────────────────────────────────────────────────────

  datatype MergeResult = Merged | NotFound | AlreadyMerged | SamePerson

  datatype Lookup = Found(id: Id) | NoSuchPerson | ChainTooLong

  class PeopleStore {
    var persons: map<Id, Person>
    var cells: Cells               // the rows of every keyed table
    var owned: map<nat, Id>        // every row of the tables without such a key, and every login: whose it is
    const senders: map<nat, Account>  // of those rows, the chats on services whose sender ids are shared: which account

    ghost predicate Valid() reads this { Flat(persons) }

    /** What the search for duplicates reads. */
    function Channels(): set<Row> reads this { ChannelRows(senders, owned) }

    /** Following merged_into, 16 steps at most; never more than one is needed. */
    method Resolve(id: Id) returns (r: Lookup)
      requires Valid()
      ensures r == if id in persons then Found(Home(persons, id)) else NoSuchPerson
    {
      var at := id;
      for i := 0 to 16
        invariant i == 0 ==> at == id
        invariant i > 0 ==> i == 1 && id in persons && at == Home(persons, id) && Remains(persons, at)
      {
        if at !in persons { return NoSuchPerson; }
        if persons[at].mergedInto.None? { return Found(at); }
        assert Remains(persons, Home(persons, at));
        at := persons[at].mergedInto.value;
      }
      return ChainTooLong;
    }

    /** The rows of from, one by one: each goes to to, unless to has that key already. */
    method MoveKeyedRows(from: Id, to: Id)
      requires from != to
      modifies this`cells
      ensures forall s :: Get(cells, s) == RowsMoved(old(cells), from, to, s)
    {
      var todo := set s | s in cells && s.owner == from;
      while todo != {}
        invariant forall s :: s in todo ==> s.owner == from && s in old(cells)
        invariant forall s :: Get(cells, s) ==
                    if s.owner == from then (if s in todo then Get(old(cells), s) else None)
                    else if s.owner == to && s !in old(cells) && s.(owner := from) !in todo
                         then Get(old(cells), s.(owner := from))
                    else Get(old(cells), s)
        decreases |todo|
      {
        var s :| s in todo;
        var t := s.(owner := to);
        assert Get(cells, s) == Get(old(cells), s);
        assert Get(cells, t) == Get(old(cells), t);
        if t !in cells { cells := cells[t := cells[s]]; }
        cells := cells - {s};
        todo := todo - {s};
      }
    }

    /** The survivor's note takes in one of from's; reopenIfUnsorted. */
    method JoinNote(s: Slot, to: Id)
      requires s in cells && IsNotes(s.table) && s.owner != to
      modifies this`cells
      ensures cells == OneJoined(old(cells), s, to)
    {
      var mine := s.(owner := to);
      cells := cells[mine := JoinedNote(Get(cells, mine), cells[s])];
      if !IsSorted(cells, s.owner, s.key) { cells := cells - {Slot(Sorted, to, s.key)}; }
    }

    /** The notes for apps, in whatever order they come. */
    method JoinAppNotes(from: Id, to: Id)
      requires from != to
      modifies this`cells
      ensures NotesJoined(old(cells), from, to, AppNotesOf(old(cells), from), cells)
    {
      var todo := AppNotesOf(cells, from);
      ghost var apps, done: set<Slot> := todo, {};
      while todo != {}
        invariant done + todo == apps && done !! todo && (todo == {} ==> done == apps)
        invariant NotesJoined(old(cells), from, to, done, cells)
        decreases |todo|
      {
        var s :| s in todo;
        OneLess(apps, done, todo, s);
        OneNoteMore(old(cells), s, to, done, cells);
        JoinNote(s, to);
        todo, done := todo - {s}, done + {s};
      }
    }

    /** mergeNotes: the personal note, then that of each app. */
    method MergeNotes(from: Id, to: Id)
      requires from != to
      modifies this`cells
      ensures forall s :: Get(cells, s) == NotesMerged(old(cells), from, to, s)
    {
      var personal := Slot(PersonalNotes, from, PERSONAL);
      if personal in cells && cells[personal].value != "" {
        OneNoteMore(cells, personal, to, {}, cells);
        assert {} + {personal} == {personal};
        JoinNote(personal, to);
      }
      ghost var one := cells;
      assert NotesJoined(old(cells), from, to, PersonalNoteOf(old(cells), from), one);
      cells := Without(cells, from, PersonalNotes);
      JoinAppNotes(from, to);
      NotesInTurn(old(cells), from, to, one, cells);
      cells := Without(cells, from, AppNotes);
    }

    /** mergePersonsTx: its callers have followed to to someone who remains. */
    method MergePersonsTx(from: Id, to: Id) returns (r: MergeResult)
      requires Valid() && (to in persons ==> Remains(persons, to))
      modifies this
      ensures Valid() && (r == Merged <==> MayFold(old(persons), from, to))
      ensures r != Merged ==> persons == old(persons) && cells == old(cells) && owned == old(owned)
      ensures r == Merged ==>
                && persons == Folded(old(persons), from, to)
                && MergedRows(old(cells), from, to, cells)
                && owned == Reowned(old(owned), from, to)
    {
      if from.text == "" || to.text == "" || from == to { return SamePerson; }
      if from !in persons || to !in persons { return NotFound; }
      if persons[from].mergedInto.Some? { return AlreadyMerged; }
      FoldingIsUnion(persons, from, to);
      MergeNotes(from, to);
      owned := Reowned(owned, from, to);
      ghost var noted := cells;
      DropOlderConnections(from, to);
      ghost var chosen := cells;
      MoveKeyedRows(from, to);
      StepsMakeMerge(old(cells), from, to, noted, chosen, cells);
      persons := Folded(persons, from, to);
      return Merged;
    }

    /** A connection both have to the same app: to's is deleted when from's is newer. */
    method DropOlderConnections(from: Id, to: Id)
      requires from != to
      modifies this`cells
      ensures forall s :: Get(cells, s) == NewestKept(old(cells), from, to, s)
    {
      cells := map s | s in cells && !(s.owner == to && s.table.Connections? && Beaten(cells, from, s)) :: cells[s];
    }

    /** MergePersons. */
    method MergePersons(from: Id, to: Id) returns (r: MergeResult)
      requires Valid()
      modifies this
      ensures Valid() && persons == Requested(old(persons), from, to)
      ensures r == Merged <==> to in old(persons) && MayFold(old(persons), from, Home(old(persons), to))
      ensures r == Merged ==>
                && MergedRows(old(cells), from, Home(old(persons), to), cells)
                && owned == Reowned(old(owned), from, Home(old(persons), to))
      ensures r != Merged ==> cells == old(cells) && owned == old(owned)
    {
      var live := Resolve(to);
      if !live.Found? { return NotFound; }
      assert Remains(persons, Home(persons, to));
      r := MergePersonsTx(from, live.id);
    }

    /** MergeDuplicates: every member of a group into the one chosen to stay. */
    method MergeDuplicates(members: set<Id>, survivor: Id) returns (ok: bool)
      requires Valid() && survivor in members && survivor.text != ""
      requires forall m :: m in members ==> Remains(persons, m) && m.text != ""
      modifies this
      ensures ok && Valid() && persons.Keys == old(persons).Keys && Remains(persons, survivor)
      ensures AllLed(old(persons), members, survivor, persons) && owned == AllReowned(old(owned), members, survivor)
    {
      var todo := members - {survivor};
      ghost var done := {survivor};
      NoneReowned(owned, survivor);
      while todo != {}
        invariant done + todo == members && survivor in done && done !! todo && (todo == {} ==> done == members)
        invariant Valid() && persons.Keys == old(persons).Keys
        invariant Remains(persons, survivor) && forall m :: m in todo ==> Remains(persons, m)
        invariant AllLed(old(persons), done, survivor, persons) && owned == AllReowned(old(owned), done, survivor)
        decreases |todo|
      {
        var m :| m in todo;
        OneLess(members, done, todo, m);
        OneMoreLed(old(persons), done, survivor, persons, m);
        OneMoreReowned(old(owned), done, m, survivor);
        var r := MergePersons(m, survivor);
        if r != Merged { return false; }
        todo, done := todo - {m}, done + {m};
      }
      return true;
    }
  }

  /** Whoever led to one of these leads to the survivor, and nobody else moves. */
  ghost predicate AllLed(before: map<Id, Person>, members: set<Id>, survivor: Id, after: map<Id, Person>) {
    after.Keys == before.Keys
    && forall id {:trigger Home(after, id)} :: id in after ==>
         Home(after, id) == if Home(before, id) in members then survivor else Home(before, id)
  }

  lemma OneMoreLed(before: map<Id, Person>, done: set<Id>, survivor: Id, after: map<Id, Person>, m: Id)
    requires AllLed(before, done, survivor, after) && Flat(after) && survivor in done && m !in done && m.text != ""
    requires Remains(after, m) && Remains(after, survivor) && survivor.text != ""
    ensures MayFold(after, m, Home(after, survivor)) && Home(after, survivor) == survivor
    ensures var now := Requested(after, m, survivor);
            && AllLed(before, done + {m}, survivor, now) && Remains(now, survivor)
            && forall x {:trigger Remains(now, x)} :: Remains(after, x) && x != m ==> Remains(now, x)
  {
    FoldingIsUnion(after, m, survivor);
    var now := Requested(after, m, survivor);
    forall id {:trigger Home(now, id)} | id in now
      ensures Home(now, id) == if Home(before, id) in done + {m} then survivor else Home(before, id)
    {
      assert Home(now, id) == if Home(after, id) == m then survivor else Home(after, id);
    }
  }

  /** Every row that was from's is to's. */
  function Reowned(owned: map<nat, Id>, from: Id, to: Id): map<nat, Id> {
    map row | row in owned :: if owned[row] == from then to else owned[row]
  }

  function AllReowned(owned: map<nat, Id>, members: set<Id>, survivor: Id): map<nat, Id> {
    map row | row in owned :: if owned[row] in members then survivor else owned[row]
  }

  lemma NoneReowned(owned: map<nat, Id>, survivor: Id)
    ensures AllReowned(owned, {survivor}, survivor) == owned
  {
  }

  lemma OneMoreReowned(owned: map<nat, Id>, done: set<Id>, m: Id, survivor: Id)
    requires survivor in done && m !in done
    ensures AllReowned(owned, done + {m}, survivor) == Reowned(AllReowned(owned, done, survivor), m, survivor)
  {
  }

  function ChannelRows(senders: map<nat, Account>, owned: map<nat, Id>): set<Row> {
    set row | row in senders && row in owned :: Row(senders[row], owned[row])
  }

  // ── Rows follow their person ────────────────────────────────────────────────

  function Where(persons: map<Id, Person>, id: Id): Id {
    if id in persons then Home(persons, id) else id
  }

  /** Every row is now kept for whoever its first person leads to. */
  ghost predicate Followed(persons: map<Id, Person>, was: map<nat, Id>, owned: map<nat, Id>) {
    owned.Keys == was.Keys && forall row :: row in was ==> owned[row] == Where(persons, was[row])
  }

  ghost predicate OwnersRemain(persons: map<Id, Person>, owned: map<nat, Id>) {
    forall row :: row in owned ==> Remains(persons, owned[row])
  }

  lemma AllRemainAtFirst(persons: map<Id, Person>, senders: map<nat, Account>, owned: map<nat, Id>)
    requires OwnersRemain(persons, owned)
    ensures Followed(persons, owned, owned)
    ensures forall p {:trigger Remains(persons, p)} :: p in Sharers(ChannelRows(senders, owned)) ==> Remains(persons, p)
  {
    forall row | row in owned ensures owned[row] == Where(persons, owned[row]) { assert Remains(persons, owned[row]); }
  }

  lemma OwnersStillRemain(persons: map<Id, Person>, was: map<nat, Id>, owned: map<nat, Id>)
    requires Flat(persons) && Followed(persons, was, owned) && forall row :: row in was ==> was[row] in persons
    ensures OwnersRemain(persons, owned)
  {
    forall row | row in owned ensures Remains(persons, owned[row]) { assert Remains(persons, Home(persons, was[row])); }
  }

  lemma FollowedOn(before: map<Id, Person>, after: map<Id, Person>, was: map<nat, Id>, owned: map<nat, Id>,
                   members: set<Id>, survivor: Id)
    requires Followed(before, was, owned) && members <= before.Keys && AllLed(before, members, survivor, after)
    ensures Followed(after, was, AllReowned(owned, members, survivor))
  {
  }

  // ── Folding the groups ──────────────────────────────────────────────────────

  /** The first k groups are folded, each into its survivor, and nobody of the others is. */
  ghost predicate FoldedTo(persons: map<Id, Person>, found: seq<Group>, k: nat) {
    && (forall i, p {:trigger p in found[i].members} :: 0 <= i < k && i < |found| && p in found[i].members ==>
          p in persons && Home(persons, p) == found[i].survivor)
    && forall i, p {:trigger p in found[i].members} :: k <= i < |found| && p in found[i].members ==> Remains(persons, p)
  }

  /** Groups that can be folded: of different people, each with a survivor of its own. */
  ghost predicate Foldable(found: seq<Group>) {
    && Disjoint(found) && (forall i :: 0 <= i < |found| ==> found[i].survivor in found[i].members)
    && forall i, p {:trigger p in found[i].members} :: 0 <= i < |found| && p in found[i].members ==> p.text != ""
  }

  lemma OneGroupMore(before: map<Id, Person>, after: map<Id, Person>, found: seq<Group>, k: nat)
    requires FoldedTo(before, found, k) && k < |found| && Foldable(found) && Flat(after)
    requires AllLed(before, found[k].members, found[k].survivor, after)
    ensures FoldedTo(after, found, k + 1)
  {
    forall i, p | 0 <= i < |found| && p in found[i].members
      ensures p in after && (if i <= k then Home(after, p) == found[i].survivor else Remains(after, p))
    {
      assert p in before && Home(before, p) == if i < k then found[i].survivor else p;
      assert i != k ==> p !in found[k].members && found[i].survivor !in found[k].members;
      assert Remains(after, Home(after, p));
    }
  }

  /** The groups are folded one after another, and every row goes with its person. */
  method FoldGroups(store: PeopleStore, found: seq<Group>, ghost was: map<nat, Id>)
    requires store.Valid() && Foldable(found) && FoldedTo(store.persons, found, 0)
    requires Followed(store.persons, was, store.owned)
    modifies store
    ensures store.Valid() && FoldedTo(store.persons, found, |found|) && Followed(store.persons, was, store.owned)
    ensures store.persons.Keys == old(store.persons).Keys
  {
    for k := 0 to |found|
      invariant store.Valid() && FoldedTo(store.persons, found, k) && Followed(store.persons, was, store.owned)
      invariant store.persons.Keys == old(store.persons).Keys
    {
      ghost var persons, owned := store.persons, store.owned;
      var _ := store.MergeDuplicates(found[k].members, found[k].survivor);
      OneGroupMore(persons, store.persons, found, k);
      FollowedOn(persons, store.persons, was, owned, found[k].members, found[k].survivor);
    }
  }

  // ── One human, one person ───────────────────────────────────────────────────

  lemma LinkedHaveOneComponent(rows: set<Row>, p: Id, q: Id)
    requires p in Sharers(rows) && q in Sharers(rows)
    ensures Linked(rows, p, q) <==> ComponentOf(rows, p) == ComponentOf(rows, q)
  {
    assert LinkedIn(rows, q, q, 0);
    if Linked(rows, p, q) {
      LinkedBack(rows, p, q);
      forall x | x in Sharers(rows) ensures Linked(rows, p, x) <==> Linked(rows, q, x) {
        if Linked(rows, p, x) { LinkedOn(rows, q, p, x); }
        if Linked(rows, q, x) { LinkedOn(rows, p, q, x); }
      }
    } else {
      assert q in ComponentOf(rows, q) && q !in ComponentOf(rows, p);
    }
  }

  lemma GroupOf(rows: set<Row>, found: seq<Group>, p: Id) returns (i: int)
    requires MembersFound(found) == Components(rows) && p in Sharers(rows)
    ensures 0 <= i < |found| && found[i].members == ComponentOf(rows, p) && p in found[i].members
  {
    assert LinkedIn(rows, p, p, 0);
    assert ComponentOf(rows, p) in Components(rows);
    var g :| g in found && g.members == ComponentOf(rows, p);
    i :| 0 <= i < |found| && found[i] == g;
  }

  lemma CanBeFolded(rows: set<Row>, known: Id -> Member, found: seq<Group>, persons: map<Id, Person>)
    requires MembersFound(found) == Components(rows) && Disjoint(found) && Id("") !in Sharers(rows)
    requires forall i :: 0 <= i < |found| ==> GroupRight(rows, known, found[i])
    requires forall p {:trigger Remains(persons, p)} :: p in Sharers(rows) ==> Remains(persons, p)
    ensures Foldable(found) && FoldedTo(persons, found, 0)
  {
    forall i, p | 0 <= i < |found| && p in found[i].members ensures p in Sharers(rows) {
      assert found[i] in found && found[i].members in MembersFound(found);
    }
    forall i | 0 <= i < |found| ensures found[i].survivor in found[i].members {
      assert GroupRight(rows, known, found[i]);
    }
    forall i, p | 0 <= i < |found| && p in found[i].members ensures p.text != "" && Remains(persons, p) {
      assert p in Sharers(rows) && p != Id("");
    }
  }

  /** Two people lead to one person exactly when a chain of shared accounts links them. */
  ghost predicate OneWhenLinked(rows: set<Row>, persons: map<Id, Person>, p: Id, q: Id) {
    p in persons && q in persons && (Home(persons, p) == Home(persons, q) <==> Linked(rows, p, q))
  }

  ghost predicate OnePersonEach(rows: set<Row>, persons: map<Id, Person>) {
    forall p, q {:trigger OneWhenLinked(rows, persons, p, q)} :: p in Sharers(rows) && q in Sharers(rows) ==>
      OneWhenLinked(rows, persons, p, q)
  }

  /** Everyone who shares leads to the best of all they are linked with. */
  ghost predicate BestStays(rows: set<Row>, persons: map<Id, Person>, known: Id -> Member, p: Id) {
    p in persons && IsBest(known, ComponentOf(rows, p), Home(persons, p))
  }

  ghost predicate IntoTheBest(rows: set<Row>, persons: map<Id, Person>, known: Id -> Member) {
    forall p {:trigger BestStays(rows, persons, known, p)} :: p in Sharers(rows) ==> BestStays(rows, persons, known, p)
  }

  lemma PairFolded(rows: set<Row>, found: seq<Group>, persons: map<Id, Person>, p: Id, q: Id)
    requires MembersFound(found) == Components(rows) && Foldable(found) && FoldedTo(persons, found, |found|)
    requires p in Sharers(rows) && q in Sharers(rows)
    ensures OneWhenLinked(rows, persons, p, q)
  {
    var i := GroupOf(rows, found, p);
    var j := GroupOf(rows, found, q);
    LinkedHaveOneComponent(rows, p, q);
    assert found[i].survivor in found[i].members && found[j].survivor in found[j].members;
    assert i == j <==> found[i].members == found[j].members;
  }

  lemma AllFolded(rows: set<Row>, known: Id -> Member, found: seq<Group>, persons: map<Id, Person>)
    requires MembersFound(found) == Components(rows) && Foldable(found) && FoldedTo(persons, found, |found|)
    requires forall i :: 0 <= i < |found| ==> GroupRight(rows, known, found[i])
    ensures OnePersonEach(rows, persons) && IntoTheBest(rows, persons, known)
  {
    forall p, q {:trigger OneWhenLinked(rows, persons, p, q)} | p in Sharers(rows) && q in Sharers(rows)
      ensures OneWhenLinked(rows, persons, p, q)
    {
      PairFolded(rows, found, persons, p, q);
    }
    forall p | p in Sharers(rows) ensures BestStays(rows, persons, known, p) {
      var i := GroupOf(rows, found, p);
      assert GroupRight(rows, known, found[i]);
    }
  }

  /** Two chats of one account are kept for one person, once everyone linked leads to one. */
  lemma OneOwnerEach(persons: map<Id, Person>, senders: map<nat, Account>, was: map<nat, Id>, owned: map<nat, Id>,
                     i: nat, j: nat)
    requires OnePersonEach(ChannelRows(senders, was), persons) && Followed(persons, was, owned)
    requires i in senders && j in senders && i in was && j in was && senders[i] == senders[j]
    ensures owned[i] == owned[j]
  {
    var rows := ChannelRows(senders, was);
    assert Row(senders[i], was[i]) in rows && Row(senders[j], was[j]) in rows;
    if was[i] != was[j] {
      assert Share(rows, was[i], was[j]);
      SharersShare(rows, was[i], was[j]);
      LinkedBySharing(rows, was[i], was[j]);
      assert OneWhenLinked(rows, persons, was[i], was[j]);
    }
  }

  /** So no two people share an account any more. */
  lemma NothingLeftToFold(persons: map<Id, Person>, senders: map<nat, Account>, was: map<nat, Id>, owned: map<nat, Id>)
    requires OnePersonEach(ChannelRows(senders, was), persons) && Followed(persons, was, owned)
    ensures Sharers(ChannelRows(senders, owned)) == {}
  {
    var now := ChannelRows(senders, owned);
    forall p, q | Share(now, p, q) ensures p == q {
      var r, s :| r in now && s in now && r.account == s.account && r.person == p && s.person == q;
      var i :| i in senders && i in owned && r == Row(senders[i], owned[i]);
      var j :| j in senders && j in owned && s == Row(senders[j], owned[j]);
      OneOwnerEach(persons, senders, was, owned, i, j);
    }
  }

  /** Finding the duplicates among the people of the store's chats, and folding each group. */
  method FoldDuplicates(store: PeopleStore, known: Id -> Member)
    requires store.Valid() && Id("") !in Sharers(store.Channels()) && Ranked(known)
    requires OwnersRemain(store.persons, store.owned)
    modifies store
    ensures store.Valid() && OnePersonEach(old(store.Channels()), store.persons)
    ensures IntoTheBest(old(store.Channels()), store.persons, known)
    ensures Followed(store.persons, old(store.owned), store.owned) && OwnersRemain(store.persons, store.owned)
    ensures Sharers(store.Channels()) == {}
  {
    ghost var was := store.owned;
    var rows := store.Channels();
    var found := FindGroups(rows, known);
    AllRemainAtFirst(store.persons, store.senders, was);
    CanBeFolded(rows, known, found, store.persons);
    FoldGroups(store, found, was);
    AllFolded(rows, known, found, store.persons);
    NothingLeftToFold(store.persons, store.senders, was, store.owned);
    OwnersStillRemain(store.persons, was, store.owned);
  }
}
