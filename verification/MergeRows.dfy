/** What becomes of two people's keyed rows when one is folded into the other (postgres/merge.go:131-257). A keyed table
    is a map from its unique key, which includes the person, so what the source calls a collision is a key that is
    already there. */
module MergeRows {
  import opened Values
  import opened DuplicatePeople

  /** A person's older free-text notes, one personal and one for each app, and the scopes whose note was sorted into
      details already; app connections; every other keyed table. */
  datatype Table = Connections | PersonalNotes | AppNotes | Sorted | Other(name: string)

  datatype Slot = Slot(table: Table, owner: Id, key: string)

  datatype Cell = Cell(value: string, updated: Option<int>)

  type Cells = map<Slot, Cell>

  /** The scope of the personal note, and its key. An app's note has the app for both. */
  const PERSONAL := "personal"

  function Get(cells: Cells, s: Slot): Option<Cell> {
    if s in cells then Some(cells[s]) else None
  }

  // ── Rows that collide ───────────────────────────────────────────────────────

  /** A connection saved later, or saved with a time where the other has none. */
  predicate Newer(from: Cell, to: Cell) {
    from.updated.Some? && (to.updated.None? || from.updated.value > to.updated.value)
  }

  predicate Beaten(cells: Cells, from: Id, s: Slot)
    requires s in cells
  {
    s.(owner := from) in cells && Newer(cells[s.(owner := from)], cells[s])
  }

  /** Which of two people's rows with the same key stands. */
  function Stands(table: Table, from: Option<Cell>, to: Option<Cell>): Option<Cell> {
    if from.None? then to
    else if to.None? || (table.Connections? && Newer(from.value, to.value)) then from
    else to
  }

  /** After the deletion of the survivor's older connections. */
  function NewestKept(cells: Cells, from: Id, to: Id, s: Slot): Option<Cell> {
    if s in cells && s.owner == to && s.table.Connections? && Beaten(cells, from, s) then None else Get(cells, s)
  }

  /** After moveKeyedRows. */
  function RowsMoved(cells: Cells, from: Id, to: Id, s: Slot): Option<Cell> {
    if s.owner == from then None
    else if s.owner == to && s !in cells then Get(cells, s.(owner := from))
    else Get(cells, s)
  }

  // ── Notes ───────────────────────────────────────────────────────────────────

  /** btrim(notes) = ''. */
  predicate OnlySpaces(s: string) {
    forall i :: 0 <= i < |s| ==> s[i] == ' '
  }

  predicate IsNotes(t: Table) {
    t.PersonalNotes? || t.AppNotes?
  }

  /** A note of from that is joined to the survivor's. */
  predicate Carried(cells: Cells, from: Id, table: Table, key: string) {
    var s := Slot(table, from, key);
    s in cells && if table.PersonalNotes? then key == PERSONAL && cells[s].value != ""
                  else table.AppNotes? && !OnlySpaces(cells[s].value)
  }

  predicate IsSorted(cells: Cells, owner: Id, scope: string) {
    Slot(Sorted, owner, scope) in cells
  }

  /** reopenIfUnsorted: a note that was not sorted makes the one it is joined to unsorted again. */
  predicate Reopens(cells: Cells, from: Id, scope: string) {
    (Carried(cells, from, PersonalNotes, scope) || Carried(cells, from, AppNotes, scope)) &&
    !IsSorted(cells, from, scope)
  }

  function JoinedNote(mine: Option<Cell>, theirs: Cell): Cell {
    if mine.None? then Cell(theirs.value, None)
    else if OnlySpaces(mine.value.value) then mine.value.(value := theirs.value)
    else mine.value.(value := mine.value.value + "\n" + theirs.value)
  }

  /** What is in a slot after the notes in done were joined, and nothing else happened. */
  function JoinedSoFar(cells: Cells, from: Id, to: Id, done: set<Slot>, s: Slot): Option<Cell>
    requires done <= cells.Keys
  {
    if s.owner == to && IsNotes(s.table) && s.(owner := from) in done then
      Some(JoinedNote(Get(cells, s), cells[s.(owner := from)]))
    else if s.owner == to && s.table.Sorted? && !IsSorted(cells, from, s.key)
            && (Slot(PersonalNotes, from, s.key) in done || Slot(AppNotes, from, s.key) in done) then None
    else Get(cells, s)
  }

  ghost predicate NotesJoined(was: Cells, from: Id, to: Id, done: set<Slot>, cells: Cells) {
    done <= was.Keys && forall s :: Get(cells, s) == JoinedSoFar(was, from, to, done, s)
  }

  /** One note of from joined to to's, which is then as unsorted as the note was. */
  function OneJoined(cells: Cells, s: Slot, to: Id): Cells
    requires s in cells
  {
    var mine := s.(owner := to);
    var noted := cells[mine := JoinedNote(Get(cells, mine), cells[s])];
    if IsSorted(cells, s.owner, s.key) then noted else noted - {Slot(Sorted, to, s.key)}
  }

  lemma OneNoteMore(was: Cells, s: Slot, to: Id, done: set<Slot>, cells: Cells)
    requires NotesJoined(was, s.owner, to, done, cells) && s in was && s !in done && IsNotes(s.table) && s.owner != to
    ensures s in cells && NotesJoined(was, s.owner, to, done + {s}, OneJoined(cells, s, to))
  {
    assert Get(cells, s) == Get(was, s);
    assert IsSorted(cells, s.owner, s.key) == IsSorted(was, s.owner, s.key) by {
      var theirs := Slot(Sorted, s.owner, s.key);
      assert Get(cells, theirs) == JoinedSoFar(was, s.owner, to, done, theirs);
    }
    var now := OneJoined(cells, s, to);
    forall x ensures Get(now, x) == JoinedSoFar(was, s.owner, to, done + {s}, x) {
      assert Get(cells, x) == JoinedSoFar(was, s.owner, to, done, x);
      if x != s.(owner := to) && x != Slot(Sorted, to, s.key) {
        assert Get(now, x) == Get(cells, x);
        assert x.owner == to ==> x.(owner := s.owner) != s;
        assert x.owner == to && x.table.Sorted? ==> x.key != s.key;
      }
    }
  }

  /** What is left when a person's notes of one kind are gone. */
  function Without(cells: Cells, from: Id, table: Table): Cells {
    map s | s in cells && !(s.owner == from && s.table == table) :: cells[s]
  }

  function AppNotesOf(cells: Cells, from: Id): set<Slot> {
    set s | s in cells && s.owner == from && s.table.AppNotes? && !OnlySpaces(cells[s].value)
  }

  function PersonalNoteOf(cells: Cells, from: Id): set<Slot> {
    var s := Slot(PersonalNotes, from, PERSONAL);
    if s in cells && cells[s].value != "" then {s} else {}
  }

  /** The personal note first, then the apps', each kind deleted once it is joined. */
  lemma NotesInTurn(cells: Cells, from: Id, to: Id, one: Cells, two: Cells)
    requires from != to && NotesJoined(cells, from, to, PersonalNoteOf(cells, from), one)
    requires var mid := Without(one, from, PersonalNotes); NotesJoined(mid, from, to, AppNotesOf(mid, from), two)
    ensures forall s :: Get(Without(two, from, AppNotes), s) == NotesMerged(cells, from, to, s)
  {
    var mid := Without(one, from, PersonalNotes);
    forall s ensures Get(Without(two, from, AppNotes), s) == NotesMerged(cells, from, to, s) {
      NoteInTurn(cells, from, to, one, two, s);
    }
  }

  lemma UntilThen(cells: Cells, from: Id, to: Id, one: Cells, s: Slot)
    requires from != to && NotesJoined(cells, from, to, PersonalNoteOf(cells, from), one)
    ensures var mid := Without(one, from, PersonalNotes);
            && Get(mid, s) == (if s.owner == from && s.table.PersonalNotes? then None
                               else JoinedSoFar(cells, from, to, PersonalNoteOf(cells, from), s))
            && (s.owner == from && !s.table.PersonalNotes? ==> Get(mid, s) == Get(cells, s))
  {
    assert Get(one, s) == JoinedSoFar(cells, from, to, PersonalNoteOf(cells, from), s);
  }

  lemma NoteInTurn(cells: Cells, from: Id, to: Id, one: Cells, two: Cells, s: Slot)
    requires from != to && NotesJoined(cells, from, to, PersonalNoteOf(cells, from), one)
    requires var mid := Without(one, from, PersonalNotes); NotesJoined(mid, from, to, AppNotesOf(mid, from), two)
    ensures Get(Without(two, from, AppNotes), s) == NotesMerged(cells, from, to, s)
  {
    var mid := Without(one, from, PersonalNotes);
    assert Get(two, s) == JoinedSoFar(mid, from, to, AppNotesOf(mid, from), s);
    UntilThen(cells, from, to, one, s);
    UntilThen(cells, from, to, one, s.(owner := from));
    UntilThen(cells, from, to, one, Slot(AppNotes, from, s.key));
    UntilThen(cells, from, to, one, Slot(Sorted, from, s.key));
  }

  /** What is in a slot after mergeNotes. */
  function NotesMerged(cells: Cells, from: Id, to: Id, s: Slot): Option<Cell> {
    if s.owner == from && IsNotes(s.table) then None
    else if s.owner == to && IsNotes(s.table) && Carried(cells, from, s.table, s.key) then
      Some(JoinedNote(Get(cells, s), cells[s.(owner := from)]))
    else if s.owner == to && s.table.Sorted? && Reopens(cells, from, s.key) then None
    else Get(cells, s)
  }

  // ── The whole merge ─────────────────────────────────────────────────────────

  /** What is in a slot after the rows of from have become to's. */
  function After(cells: Cells, from: Id, to: Id, s: Slot): Option<Cell> {
    if s.owner == from then None
    else if s.owner != to then Get(cells, s)
    else if IsNotes(s.table) then
      if Carried(cells, from, s.table, s.key) then Some(JoinedNote(Get(cells, s), cells[s.(owner := from)]))
      else Get(cells, s)
    else if s.table.Sorted? && Reopens(cells, from, s.key) then None
    else Stands(s.table, Get(cells, s.(owner := from)), Get(cells, s))
  }

  ghost predicate MergedRows(cells: Cells, from: Id, to: Id, now: Cells) {
    forall s :: Get(now, s) == After(cells, from, to, s)
  }

  /** Notes first, then the older of two connections goes, then what is left of from's moves: that is all of it. */
  lemma StepsMakeMerge(cells: Cells, from: Id, to: Id, noted: Cells, chosen: Cells, now: Cells)
    requires from != to && (forall s :: Get(noted, s) == NotesMerged(cells, from, to, s))
    requires forall s :: Get(chosen, s) == NewestKept(noted, from, to, s)
    requires forall s :: Get(now, s) == RowsMoved(chosen, from, to, s)
    ensures MergedRows(cells, from, to, now)
  {
    forall s ensures Get(now, s) == After(cells, from, to, s) {
      var theirs := s.(owner := from);
      assert Get(chosen, s) == NewestKept(noted, from, to, s) &&
             Get(chosen, theirs) == NewestKept(noted, from, to, theirs);
      assert Get(noted, s) == NotesMerged(cells, from, to, s) &&
             Get(noted, theirs) == NotesMerged(cells, from, to, theirs);
    }
  }

  /** Of two connections to one app the one saved later stands, and the survivor's when no time tells them apart. */
  lemma {:induction false} LaterConnectionStands(cells: Cells, from: Id, to: Id, now: Cells, app: string)
    requires MergedRows(cells, from, to, now) && from != to
    ensures var mine, theirs := Slot(Connections, to, app), Slot(Connections, from, app);
            && theirs !in now
            && (theirs !in cells ==> Get(now, mine) == Get(cells, mine))
            && (theirs in cells && mine !in cells ==> Get(now, mine) == Some(cells[theirs]))
            && (theirs in cells && mine in cells ==>
                  Get(now, mine) == Some(match cells[theirs].updated
                                         case None => cells[mine]
                                         case Some(saved) =>
                                           if cells[mine].updated.None? || cells[mine].updated.value < saved
                                           then cells[theirs] else cells[mine]))
  {
    var mine, theirs := Slot(Connections, to, app), Slot(Connections, from, app);
    assert Get(now, mine) == After(cells, from, to, mine) && Get(now, theirs) == After(cells, from, to, theirs);
    assert mine.(owner := from) == theirs;
  }

  /** Of any other row with a key of its own the survivor's stands. */
  lemma {:induction false} SurvivorsRowStands(cells: Cells, from: Id, to: Id, now: Cells, name: string, key: string)
    requires MergedRows(cells, from, to, now) && from != to
    ensures var mine, theirs := Slot(Other(name), to, key), Slot(Other(name), from, key);
            theirs !in now && Get(now, mine) == if mine in cells then Some(cells[mine]) else Get(cells, theirs)
  {
    var mine, theirs := Slot(Other(name), to, key), Slot(Other(name), from, key);
    assert Get(now, mine) == After(cells, from, to, mine) && Get(now, theirs) == After(cells, from, to, theirs);
    assert mine.(owner := from) == theirs;
  }

  // ── What that keeps ─────────────────────────────────────────────────────────

  predicate Ends(s: string, end: string) {
    |end| <= |s| && s[|s| - |end|..] == end
  }

  predicate HasWords(cells: Cells, table: Table, owner: Id, key: string) {
    var s := Slot(table, owner, key);
    s in cells && IsNotes(table) && (table.PersonalNotes? ==> key == PERSONAL) && !OnlySpaces(cells[s].value)
  }

  /** No words of either note are lost: the survivor's come first, the other's last. */
  lemma {:induction false} NoWordsLost(cells: Cells, from: Id, to: Id, now: Cells, table: Table, key: string)
    requires MergedRows(cells, from, to, now) && from != to
    ensures HasWords(cells, table, from, key) ==>
              HasWords(now, table, to, key) &&
              Ends(now[Slot(table, to, key)].value, cells[Slot(table, from, key)].value)
    ensures HasWords(cells, table, to, key) ==>
              HasWords(now, table, to, key) &&
              HasPrefix(now[Slot(table, to, key)].value, cells[Slot(table, to, key)].value)
  {
    var s := Slot(table, to, key);
    assert Get(now, s) == After(cells, from, to, s);
    if HasWords(cells, table, from, key) {
      var theirs := cells[Slot(table, from, key)];
      assert now[s] == JoinedNote(Get(cells, s), theirs);
      JoinedHasBoth(Get(cells, s), theirs);
    } else if HasWords(cells, table, to, key) && Carried(cells, from, table, key) {
      JoinedHasBoth(Get(cells, s), cells[Slot(table, from, key)]);
    }
  }

  lemma JoinedHasBoth(mine: Option<Cell>, theirs: Cell)
    ensures Ends(JoinedNote(mine, theirs).value, theirs.value)
    ensures !OnlySpaces(theirs.value) ==> !OnlySpaces(JoinedNote(mine, theirs).value)
    ensures mine.Some? && !OnlySpaces(mine.value.value) ==>
              HasPrefix(JoinedNote(mine, theirs).value, mine.value.value) && !OnlySpaces(JoinedNote(mine, theirs).value)
  {
    if mine.Some? && !OnlySpaces(mine.value.value) {
      var i :| 0 <= i < |mine.value.value| && mine.value.value[i] != ' ';
      var all := mine.value.value + "\n" + theirs.value;
      assert JoinedNote(mine, theirs).value == all && all[i] != ' ';
      assert all[..|mine.value.value|] == mine.value.value;
      assert all[|all| - |theirs.value|..] == theirs.value;
    }
  }

  /** A note that is still to be sorted into details. */
  predicate Unsorted(cells: Cells, owner: Id, scope: string) {
    (HasWords(cells, PersonalNotes, owner, scope) || HasWords(cells, AppNotes, owner, scope)) &&
    !IsSorted(cells, owner, scope)
  }

  /** After a merge the survivor's note counts as sorted when it did and nothing unsorted came to it, or when only the
      other's did. */
  lemma {:induction false} SortedAfter(cells: Cells, from: Id, to: Id, now: Cells, scope: string)
    requires MergedRows(cells, from, to, now) && from != to
    ensures IsSorted(now, to, scope) <==>
              if IsSorted(cells, to, scope) then !Reopens(cells, from, scope) else IsSorted(cells, from, scope)
  {
    var s := Slot(Sorted, to, scope);
    assert Get(now, s) == After(cells, from, to, s);
    assert s.(owner := from) == Slot(Sorted, from, scope);
  }

  /** A note is not taken for sorted while part of it never was: so it is exactly unless the other person's note was
      sorted and the survivor's, which then gets that mark, was not. */
  lemma {:induction false} SortedMeansSortedExactly(cells: Cells, from: Id, to: Id, now: Cells, scope: string)
    requires MergedRows(cells, from, to, now) && from != to
    ensures (IsSorted(now, to, scope) ==> !Unsorted(cells, from, scope) && !Unsorted(cells, to, scope))
            <==> !(IsSorted(cells, from, scope) && Unsorted(cells, to, scope))
  {
    SortedAfter(cells, from, to, now, scope);
    assert Unsorted(cells, from, scope) ==> Reopens(cells, from, scope) by {
      if HasWords(cells, PersonalNotes, from, scope) { assert Carried(cells, from, PersonalNotes, scope); }
      if HasWords(cells, AppNotes, from, scope) { assert Carried(cells, from, AppNotes, scope); }
    }
  }

  /** One person's note was sorted, the survivor's was not: it keeps its words, unsorted, and is marked as sorted. */
  lemma UnsortedTakenForSorted(from: Id, to: Id, now: Cells)
    requires from != to
    requires MergedRows(map[Slot(Sorted, from, PERSONAL) := Cell("", None),
                            Slot(PersonalNotes, to, PERSONAL) := Cell("likes tea", None)],
                        from, to, now)
    ensures Slot(PersonalNotes, to, PERSONAL) in now && now[Slot(PersonalNotes, to, PERSONAL)].value == "likes tea"
    ensures IsSorted(now, to, PERSONAL)
  {
    var cells := map[Slot(Sorted, from, PERSONAL) := Cell("", None),
                     Slot(PersonalNotes, to, PERSONAL) := Cell("likes tea", None)];
    var note := Slot(PersonalNotes, to, PERSONAL);
    assert Get(now, note) == After(cells, from, to, note) == Some(Cell("likes tea", None));
    SortedAfter(cells, from, to, now, PERSONAL);
  }
}
