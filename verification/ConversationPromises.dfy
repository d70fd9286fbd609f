/** runtime/inbound.go and runtime/editing.go: what holds in every interleaving of arrivals, edits and workers. */
module ConversationPromises {
  import opened ConversationLines
  import opened ConversationHost

  /** A conversation has a line exactly when it has a worker, it never has two, and so at most one of its messages is
      being handled. */
  lemma OneWorkerEach(h: Host, key: string)
    requires h.Valid()
    ensures key in h.lines <==> exists w :: w in h.workers && h.workers[w].key == key
    ensures forall v, w :: v in h.workers && w in h.workers && h.workers[v].key == key && h.workers[w].key == key ==>
              v == w
  {
    assert KeyRight(h.lines, h.workers, h.log, key);
    if key in h.lines { assert h.lines[key].worker in h.workers; }
  }

  // ── Each message once, in the order they came ───────────────────────────────

  /** The messages that were begun, in order: not those begun again with new words. */
  function Begun(log: seq<Event>, key: string): seq<nat> {
    if log == [] then []
    else
      var e := log[|log| - 1];
      Begun(log[..|log| - 1], key) + if e.Began? && e.key == key && !e.item.again then [e.item.uid] else []
  }

  lemma {:induction false} NothingLeftOver(log: seq<Event>, key: string)
    requires LogRight(log, false)
    ensures Gone(log, key) == Begun(log, key)
  {
    if log != [] {
      var e := log[|log| - 1];
      NothingLeftOver(log[..|log| - 1], key);
      if e.Began? { PlainFirst(e.item, []); }
      if e.Closed? { assert e.items == [] && Plain([]) == []; }
    }
  }

  predicate Rising(uids: seq<nat>, below: nat) {
    (forall i, j :: 0 <= i < j < |uids| ==> uids[i] < uids[j]) && forall i :: 0 <= i < |uids| ==> uids[i] < below
  }

  lemma {:induction false} ArrivalsRise(log: seq<Event>, closing: bool, key: string)
    requires LogRight(log, closing)
    ensures Rising(Arrivals(log, key), |log|)
  {
    if log != [] { ArrivalsRise(log[..|log| - 1], closing, key); }
  }

  /** Until the host shuts down, the messages of a conversation are begun in the order they came, none twice, and all of
      them once its line is gone. */
  lemma EachOnceInOrder(h: Host, key: string)
    requires h.Valid() && !h.closing
    ensures Begun(h.log, key) <= Arrivals(h.log, key) && Rising(Arrivals(h.log, key), |h.log|)
    ensures key !in h.lines ==> Begun(h.log, key) == Arrivals(h.log, key)
    ensures key in h.lines ==>
              && h.lines[key].worker in h.workers
              && Arrivals(h.log, key) ==
                 Begun(h.log, key) + Plain(Waiting(h.workers[h.lines[key].worker].stage, h.lines[key].msgs))
  {
    assert KeyRight(h.lines, h.workers, h.log, key);
    NothingLeftOver(h.log, key);
    ArrivalsRise(h.log, h.closing, key);
  }

  // ── Edits ───────────────────────────────────────────────────────────────────

  /** A message is begun with the last words it was given before: its own, or those of the last edit that reached it. */
  lemma {:induction false} BegunWithItsLastWords(log: seq<Event>, closing: bool, k: nat)
    requires LogRight(log, closing) && k < |log| && log[k].Began?
    ensures log[k].item.text == Latest(log[..k], log[k].item.uid)
  {
    var n := |log| - 1;
    if k < n {
      BegunWithItsLastWords(log[..n], closing, k);
      assert log[..n][..k] == log[..k];
    }
  }

  /** While a turn is cut short, its new words are next in line, and nothing else in the line is out of turn. */
  lemma NewWordsAreNext(h: Host, key: string)
    requires h.Valid() && key in h.lines
    ensures h.lines[key].worker in h.workers
    ensures var stage, msgs := h.workers[h.lines[key].worker].stage, h.lines[key].msgs;
            if stage.Handling? && stage.cut then
              msgs != [] && msgs[0].again && msgs[0].uid == stage.item.uid && forall i :: 1 <= i < |msgs| ==>
                !msgs[i].again
            else forall i :: 0 <= i < |msgs| ==> !msgs[i].again
  {
    assert KeyRight(h.lines, h.workers, h.log, key);
  }

  // ── A line that is left alone empties ───────────────────────────────────────

  function StepsLeft(stage: Stage, msgs: seq<Item>): nat {
    2 * |msgs| + if stage.Starting? then 1 else 0
  }

  lemma NoneArrived(log: seq<Event>, e: Event, key: string)
    requires !e.Arrived?
    ensures Arrivals(log + [e], key) == Arrivals(log, key)
  {
    OneMore(log, e);
  }

  /** With nothing new arriving, the worker goes through its line and ends. */
  method Drain(h: Host, key: string)
    requires h.Valid()
    modifies h
    ensures h.Valid() && key !in h.lines && h.closing == old(h.closing)
    ensures !h.closing ==> Begun(h.log, key) == Arrivals(h.log, key) == old(Arrivals(h.log, key))
  {
    ghost var came := Arrivals(h.log, key);
    while key in h.lines
      invariant h.Valid() && h.closing == old(h.closing) && Arrivals(h.log, key) == came
      decreases if key in h.lines && h.lines[key].worker in h.workers then
                  StepsLeft(h.workers[h.lines[key].worker].stage, h.lines[key].msgs) + 1 else 0
    {
      assert KeyRight(h.lines, h.workers, h.log, key);
      var w := h.lines[key].worker;
      ghost var log := h.log;
      if h.workers[w].stage.Starting? {
        h.Begin(w);
      } else {
        h.End(w);
      }
      NoneArrived(log, h.log[|log|], key);
    }
    if !h.closing { EachOnceInOrder(h, key); }
  }
}
