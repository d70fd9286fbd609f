/** runtime/inbound.go and runtime/editing.go: one line for each conversation, one worker going through it, and edits
    that reach a message while it waits or while it is answered. Each method is one stretch of code between taking the
    lock and giving it back; whatever interleaving happens is a sequence of such steps. */
module ConversationLines {

  /** A message in a line. uid tells arrivals apart; again marks the new words of a message whose turn was cut short. */
  datatype Item = Item(uid: nat, id: string, text: string, again: bool)

  /** Taken off the line but not begun, or being handled; cut is set when an edit has cancelled the turn. */
  datatype Stage = Starting(item: Item) | Handling(item: Item, cut: bool)

  datatype Worker = Worker(key: string, stage: Stage)

  /** current is the message being handled, "" when none is; worker names the goroutine started for the line. */
  datatype Line = Line(msgs: seq<Item>, current: string, worker: nat)

  /** What happened, in the order of the lock. */
  datatype Event =
    | Arrived(key: string, item: Item)
    | Began(key: string, item: Item)
    | Ended(key: string, uid: nat)
    | Replaced(key: string, uid: nat, text: string)
    | Overtook(key: string, item: Item)
    | Closed(key: string, items: seq<Item>)
    | PassedOn(key: string, id: string, text: string)

  // ── What the log says ───────────────────────────────────────────────────────

  /** Items that are not the new words of a turn cut short. */
  function Plain(items: seq<Item>): seq<nat> {
    if items == [] then []
    else
      var last := items[|items| - 1];
      Plain(items[..|items| - 1]) + if last.again then [] else [last.uid]
  }

  function Arrivals(log: seq<Event>, key: string): seq<nat> {
    if log == [] then []
    else
      var e := log[|log| - 1];
      Arrivals(log[..|log| - 1], key) + if e.Arrived? && e.key == key then [e.item.uid] else []
  }

  /** The messages that left the line: begun, or left over when it was closed. */
  function Gone(log: seq<Event>, key: string): seq<nat> {
    if log == [] then []
    else
      var e := log[|log| - 1];
      Gone(log[..|log| - 1], key) +
      if e.Began? && e.key == key then Plain([e.item]) else if e.Closed? && e.key == key then Plain(e.items) else []
  }

  /** The last words of a message. */
  function Latest(log: seq<Event>, uid: nat): string {
    if log == [] then ""
    else
      var e := log[|log| - 1];
      if e.Arrived? && e.item.uid == uid then e.item.text
      else if e.Replaced? && e.uid == uid then e.text
      else if e.Overtook? && e.item.uid == uid then e.item.text
      else Latest(log[..|log| - 1], uid)
  }

  lemma OneMore(log: seq<Event>, e: Event)
    ensures forall key :: Arrivals(log + [e], key) == Arrivals(log, key) +
              if e.Arrived? && e.key == key then [e.item.uid] else []
    ensures forall key :: Gone(log + [e], key) == Gone(log, key) +
              if e.Began? && e.key == key then Plain([e.item])
              else if e.Closed? && e.key == key then Plain(e.items) else []
  {
    assert (log + [e])[..|log|] == log;
  }

  /** What neither brings a message nor takes one off a line leaves a conversation's account as it is. */
  lemma AsBefore(log: seq<Event>, e: Event, key: string)
    requires e.key == key ==> !e.Arrived? && !e.Began? && !e.Closed?
    ensures Arrivals(log + [e], key) == Arrivals(log, key) && Gone(log + [e], key) == Gone(log, key)
  {
    OneMore(log, e);
  }

  lemma LatestOn(log: seq<Event>, e: Event)
    ensures forall uid :: Latest(log + [e], uid) ==
              if e.Arrived? && e.item.uid == uid then e.item.text
              else if e.Replaced? && e.uid == uid then e.text
              else if e.Overtook? && e.item.uid == uid then e.item.text
              else Latest(log, uid)
  {
    assert (log + [e])[..|log|] == log;
  }

  lemma {:induction false} PlainParts(a: seq<Item>, b: seq<Item>)
    ensures Plain(a + b) == Plain(a) + Plain(b)
    decreases |b|
  {
    if b == [] {
      assert a + b == a;
    } else {
      assert (a + b)[..|a| + |b| - 1] == a + b[..|b| - 1];
      PlainParts(a, b[..|b| - 1]);
    }
  }

  lemma Regroup(a: seq<nat>, b: seq<nat>, c: seq<nat>)
    ensures a + (b + c) == a + b + c && a + [] == a && a + c + [] == a + c
  {
  }

  lemma PlainFirst(item: Item, rest: seq<Item>)
    ensures Plain([item] + rest) == (if item.again then [] else [item.uid]) + Plain(rest)
    ensures Plain([item]) == if item.again then [] else [item.uid]
  {
    PlainParts([item], rest);
    assert [item][..0] == [];
  }

  // ── The lines ───────────────────────────────────────────────────────────────

  /** Still to be begun in a line: what its worker took off and has not begun, and what waits. */
  function Waiting(stage: Stage, msgs: seq<Item>): seq<Item> {
    (if stage.Starting? then [stage.item] else []) + msgs
  }

  /** The new words of a turn cut short stand at the head of the line, behind that turn, and nowhere else. */
  predicate AgainAtHead(stage: Stage, msgs: seq<Item>) {
    && (forall i :: 1 <= i < |msgs| ==> !msgs[i].again)
    && (stage.Handling? && stage.cut <==> msgs != [] && msgs[0].again)
    && (msgs != [] && msgs[0].again ==> msgs[0].uid == stage.item.uid && msgs[0].id == stage.item.id)
  }

  /** An item whose message came to this conversation. */
  predicate Known(log: seq<Event>, key: string, uid: nat) {
    uid < |log| && log[uid].Arrived? && log[uid].key == key
  }

  /** An item says the last words of its message. */
  predicate Fresh(log: seq<Event>, key: string, item: Item) {
    Known(log, key, item.uid) && item.text == Latest(log, item.uid)
  }

  /** No message is twice in a line, but for the new words of the one being handled. */
  predicate Distinct(stage: Stage, msgs: seq<Item>) {
    && (forall i, j :: 0 <= i < j < |msgs| ==> msgs[i].uid != msgs[j].uid)
    && forall i :: 0 <= i < |msgs| && !msgs[i].again ==> msgs[i].uid != stage.item.uid
  }

  predicate AllFresh(log: seq<Event>, key: string, stage: Stage, msgs: seq<Item>) {
    && Known(log, key, stage.item.uid) && (stage.Starting? ==> Fresh(log, key, stage.item))
    && forall i {:trigger msgs[i]} :: 0 <= i < |msgs| ==> Fresh(log, key, msgs[i])
  }

  /** Every message that came is gone from the line or waits in it, in the order they came. */
  predicate InOrder(stage: Stage, msgs: seq<Item>, key: string, log: seq<Event>) {
    Arrivals(log, key) == Gone(log, key) + Plain(Waiting(stage, msgs))
  }

  /** A line and its worker, as they should be after what the log says. */
  predicate LineRight(line: Line, stage: Stage, key: string, log: seq<Event>) {
    && line.current == (if stage.Handling? then stage.item.id else "")
    && AgainAtHead(stage, line.msgs) && Distinct(stage, line.msgs) && AllFresh(log, key, stage, line.msgs)
    && InOrder(stage, line.msgs, key, log)
  }

  /** An event about a message is about one that came to that conversation. */
  predicate Proper(log: seq<Event>, e: Event) {
    && (e.Arrived? ==> e.item.uid == |log|)
    && (e.Replaced? ==> Known(log, e.key, e.uid))
    && (e.Overtook? ==> Known(log, e.key, e.item.uid))
  }

  // ── The order, step by step ─────────────────────────────────────────────────

  lemma OtherOrder(stage: Stage, msgs: seq<Item>, key: string, log: seq<Event>, e: Event)
    requires InOrder(stage, msgs, key, log) && e.key != key
    ensures InOrder(stage, msgs, key, log + [e])
  {
    AsBefore(log, e, key);
  }

  lemma OtherIdle(key: string, log: seq<Event>, e: Event)
    requires Arrivals(log, key) == Gone(log, key) && e.key != key
    ensures Arrivals(log + [e], key) == Gone(log + [e], key)
  {
    AsBefore(log, e, key);
  }

  lemma JoinsOrder(stage: Stage, msgs: seq<Item>, key: string, log: seq<Event>, item: Item)
    requires InOrder(stage, msgs, key, log) && !item.again
    ensures InOrder(stage, msgs + [item], key, log + [Arrived(key, item)])
  {
    OneMore(log, Arrived(key, item));
    PlainParts(Waiting(stage, msgs), [item]);
    assert Waiting(stage, msgs + [item]) == Waiting(stage, msgs) + [item];
  }

  lemma OpensOrder(key: string, log: seq<Event>, item: Item)
    requires Arrivals(log, key) == Gone(log, key) && !item.again
    ensures InOrder(Starting(item), [], key, log + [Arrived(key, item)])
  {
    OneMore(log, Arrived(key, item));
    assert Waiting(Starting(item), []) == [item];
  }

  lemma BeginsOrder(item: Item, msgs: seq<Item>, key: string, log: seq<Event>)
    requires InOrder(Starting(item), msgs, key, log)
    ensures InOrder(Handling(item, false), msgs, key, log + [Began(key, item)])
  {
    var head := if item.again then [] else [item.uid];
    OneMore(log, Began(key, item));
    PlainFirst(item, msgs);
    assert Waiting(Handling(item, false), msgs) == msgs;
    Regroup(Gone(log, key), head, Plain(msgs));
  }

  lemma NextOrder(stage: Stage, msgs: seq<Item>, key: string, log: seq<Event>)
    requires InOrder(stage, msgs, key, log) && stage.Handling? && msgs != []
    ensures InOrder(Starting(msgs[0]), msgs[1..], key, log + [Ended(key, stage.item.uid)])
  {
    AsBefore(log, Ended(key, stage.item.uid), key);
    assert Waiting(Starting(msgs[0]), msgs[1..]) == msgs == Waiting(stage, msgs);
  }

  lemma CloseOrder(stage: Stage, msgs: seq<Item>, key: string, log: seq<Event>)
    requires InOrder(stage, msgs, key, log) && stage.Handling?
    ensures Arrivals(log + [Closed(key, msgs)], key) == Gone(log + [Closed(key, msgs)], key)
  {
    OneMore(log, Closed(key, msgs));
    assert Waiting(stage, msgs) == msgs;
  }

  lemma {:induction false} PlainSame(a: seq<Item>, b: seq<Item>)
    requires |a| == |b| && forall i :: 0 <= i < |a| ==> a[i].uid == b[i].uid && a[i].again == b[i].again
    ensures Plain(a) == Plain(b)
  {
    if a != [] { PlainSame(a[..|a| - 1], b[..|b| - 1]); }
  }

  lemma RewordsOrder(stage: Stage, msgs: seq<Item>, key: string, log: seq<Event>, i: nat, text: string)
    requires InOrder(stage, msgs, key, log) && i < |msgs|
    ensures InOrder(stage, msgs[i := msgs[i].(text := text)], key, log + [Replaced(key, msgs[i].uid, text)])
  {
    AsBefore(log, Replaced(key, msgs[i].uid, text), key);
    RewordedSame(stage, msgs, i, text);
  }

  lemma RewordedSame(stage: Stage, msgs: seq<Item>, i: nat, text: string)
    requires i < |msgs|
    ensures Plain(Waiting(stage, msgs[i := msgs[i].(text := text)])) == Plain(Waiting(stage, msgs))
  {
    var a, b := Waiting(stage, msgs), Waiting(stage, msgs[i := msgs[i].(text := text)]);
    forall k | 0 <= k < |a| ensures a[k].uid == b[k].uid && a[k].again == b[k].again {}
    PlainSame(b, a);
  }

  lemma CutsOrder(stage: Stage, msgs: seq<Item>, key: string, log: seq<Event>, item: Item)
    requires InOrder(stage, msgs, key, log) && stage.Handling? && item.again
    ensures InOrder(Handling(stage.item, true), [item] + msgs, key, log + [Overtook(key, item)])
  {
    AsBefore(log, Overtook(key, item), key);
    PlainFirst(item, msgs);
    assert Waiting(stage, msgs) == msgs;
    assert Waiting(Handling(stage.item, true), [item] + msgs) == [item] + msgs;
    Regroup(Gone(log, key), [], Plain(msgs));
  }

  // ── The words, step by step ─────────────────────────────────────────────────

  /** An event that gives no message of the line new words leaves them the last. */
  lemma StillFresh(log: seq<Event>, key: string, stage: Stage, msgs: seq<Item>, e: Event)
    requires AllFresh(log, key, stage, msgs) && Proper(log, e) && (e.key == key ==> !e.Replaced? && !e.Overtook?)
    ensures AllFresh(log + [e], key, stage, msgs)
  {
    LatestOn(log, e);
  }

  lemma RewordsFresh(log: seq<Event>, key: string, stage: Stage, msgs: seq<Item>, i: nat, text: string)
    requires AllFresh(log, key, stage, msgs) && Distinct(stage, msgs) && AgainAtHead(stage, msgs) && i < |msgs|
    ensures AllFresh(log + [Replaced(key, msgs[i].uid, text)], key, stage, msgs[i := msgs[i].(text := text)])
  {
    LatestOn(log, Replaced(key, msgs[i].uid, text));
  }

  lemma CutsFresh(log: seq<Event>, key: string, stage: Stage, msgs: seq<Item>, item: Item)
    requires AllFresh(log, key, stage, msgs) && Distinct(stage, msgs) && stage.Handling?
    requires item.uid == stage.item.uid && forall i :: 0 <= i < |msgs| ==> !msgs[i].again
    ensures AllFresh(log + [Overtook(key, item)], key, Handling(stage.item, true), [item] + msgs)
  {
    LatestOn(log, Overtook(key, item));
    forall i | 0 <= i < |[item] + msgs| ensures Fresh(log + [Overtook(key, item)], key, ([item] + msgs)[i]) {
      if i > 0 { assert ([item] + msgs)[i] == msgs[i - 1]; }
    }
  }

  // ── The steps ───────────────────────────────────────────────────────────────

  /** The words of a message when it was begun were the last it had been given, and no line was closed with messages in
      it before the host shut down. */
  predicate LogRight(log: seq<Event>, closing: bool) {
    log != [] ==>
      var before, e := log[..|log| - 1], log[|log| - 1];
      && LogRight(before, closing) && Proper(before, e)
      && (e.Began? ==> Fresh(before, e.key, e.item))
      && (e.Closed? && e.items != [] ==> closing)
  }

  lemma {:induction false} ClosingLater(log: seq<Event>)
    requires LogRight(log, false)
    ensures LogRight(log, true)
  {
    if log != [] { ClosingLater(log[..|log| - 1]); }
  }

  lemma LogOn(log: seq<Event>, closing: bool, e: Event)
    requires LogRight(log, closing) && Proper(log, e)
    requires (e.Began? ==> Fresh(log, e.key, e.item)) && (e.Closed? && e.items != [] ==> closing)
    ensures LogRight(log + [e], closing)
  {
    assert (log + [e])[..|log|] == log;
  }

  lemma Joins(line: Line, stage: Stage, key: string, log: seq<Event>, item: Item)
    requires LineRight(line, stage, key, log) && item.uid == |log| && !item.again
    ensures LineRight(line.(msgs := line.msgs + [item]), stage, key, log + [Arrived(key, item)])
  {
    JoinsOrder(stage, line.msgs, key, log, item);
    JoinsFresh(log, key, stage, line.msgs, item);
    JoinsPlace(log, key, stage, line.msgs, item);
  }

  lemma JoinsFresh(log: seq<Event>, key: string, stage: Stage, msgs: seq<Item>, item: Item)
    requires AllFresh(log, key, stage, msgs) && item.uid == |log|
    ensures AllFresh(log + [Arrived(key, item)], key, stage, msgs + [item])
  {
    StillFresh(log, key, stage, msgs, Arrived(key, item));
    LatestOn(log, Arrived(key, item));
  }

  lemma JoinsPlace(log: seq<Event>, key: string, stage: Stage, msgs: seq<Item>, item: Item)
    requires AgainAtHead(stage, msgs) && Distinct(stage, msgs) && AllFresh(log, key, stage, msgs)
    requires item.uid == |log| && !item.again
    ensures AgainAtHead(stage, msgs + [item]) && Distinct(stage, msgs + [item])
  {
    forall i | 0 <= i < |msgs| ensures (msgs + [item])[i] == msgs[i] && msgs[i].uid < item.uid {
      assert Fresh(log, key, msgs[i]);
    }
  }

  lemma Opens(key: string, log: seq<Event>, item: Item, w: nat)
    requires Arrivals(log, key) == Gone(log, key) && item.uid == |log| && !item.again
    ensures LineRight(Line([], "", w), Starting(item), key, log + [Arrived(key, item)])
  {
    OpensOrder(key, log, item);
    LatestOn(log, Arrived(key, item));
  }

  lemma Begins(line: Line, item: Item, key: string, log: seq<Event>)
    requires LineRight(line, Starting(item), key, log)
    ensures LineRight(line.(current := item.id), Handling(item, false), key, log + [Began(key, item)])
  {
    BeginsOrder(item, line.msgs, key, log);
    StillFresh(log, key, Starting(item), line.msgs, Began(key, item));
  }

  lemma TakesNext(line: Line, stage: Stage, key: string, log: seq<Event>)
    requires LineRight(line, stage, key, log) && stage.Handling? && line.msgs != []
    ensures LineRight(line.(current := "", msgs := line.msgs[1..]), Starting(line.msgs[0]), key,
                      log + [Ended(key, stage.item.uid)])
  {
    NextOrder(stage, line.msgs, key, log);
    StillFresh(log, key, stage, line.msgs, Ended(key, stage.item.uid));
    forall i | 0 <= i < |line.msgs[1..]| ensures Fresh(log + [Ended(key, stage.item.uid)], key, line.msgs[1..][i]) {
      assert line.msgs[1..][i] == line.msgs[i + 1];
    }
  }

  lemma Rewords(line: Line, stage: Stage, key: string, log: seq<Event>, i: nat, text: string)
    requires LineRight(line, stage, key, log) && i < |line.msgs|
    ensures Proper(log, Replaced(key, line.msgs[i].uid, text))
    ensures LineRight(line.(msgs := line.msgs[i := line.msgs[i].(text := text)]), stage, key,
                      log + [Replaced(key, line.msgs[i].uid, text)])
  {
    RewordsOrder(stage, line.msgs, key, log, i, text);
    RewordsFresh(log, key, stage, line.msgs, i, text);
  }

  lemma CutsShort(line: Line, stage: Stage, key: string, log: seq<Event>, text: string)
    requires LineRight(line, stage, key, log) && stage.Handling?
    requires forall i :: 0 <= i < |line.msgs| ==> line.msgs[i].id != stage.item.id
    ensures var item := Item(stage.item.uid, stage.item.id, text, true);
            && Proper(log, Overtook(key, item))
            && LineRight(line.(msgs := [item] + line.msgs), Handling(stage.item, true), key,
                         log + [Overtook(key, item)])
  {
    var item := Item(stage.item.uid, stage.item.id, text, true);
    CutsPlace(stage, line.msgs, item);
    CutsOrder(stage, line.msgs, key, log, item);
    CutsFresh(log, key, stage, line.msgs, item);
  }

  lemma CutsPlace(stage: Stage, msgs: seq<Item>, item: Item)
    requires AgainAtHead(stage, msgs) && Distinct(stage, msgs) && stage.Handling?
    requires item == Item(stage.item.uid, stage.item.id, item.text, true) && forall i :: 0 <= i < |msgs| ==>
               msgs[i].id != item.id
    ensures AgainAtHead(Handling(stage.item, true), [item] + msgs)
    ensures Distinct(Handling(stage.item, true), [item] + msgs)
    ensures forall i :: 0 <= i < |msgs| ==> !msgs[i].again
  {
    var more := [item] + msgs;
    forall i | 1 <= i < |more| ensures more[i] == msgs[i - 1] {}
  }

  /** An edit that is not for the line changes nothing in it. */
  lemma Passes(stage: Stage, msgs: seq<Item>, key: string, log: seq<Event>, id: string, text: string)
    ensures InOrder(stage, msgs, key, log) ==> InOrder(stage, msgs, key, log + [PassedOn(key, id, text)])
    ensures AllFresh(log, key, stage, msgs) ==> AllFresh(log + [PassedOn(key, id, text)], key, stage, msgs)
    ensures Arrivals(log, key) == Gone(log, key) ==>
              Arrivals(log + [PassedOn(key, id, text)], key) == Gone(log + [PassedOn(key, id, text)], key)
  {
    AsBefore(log, PassedOn(key, id, text), key);
    LatestOn(log, PassedOn(key, id, text));
  }
}
