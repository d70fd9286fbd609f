/** runtime/inbound.go and runtime/editing.go: the host that keeps the lines. */
module ConversationHost {
  import opened Values
  import opened ConversationLines

  /** A conversation with a line has the worker of that line, and one without has nothing waiting. */
  predicate KeyRight(lines: map<string, Line>, workers: map<nat, Worker>, log: seq<Event>, key: string) {
    if key in lines then
      && lines[key].worker in workers && workers[lines[key].worker].key == key
      && LineRight(lines[key], workers[lines[key].worker].stage, key, log)
    else Arrivals(log, key) == Gone(log, key)
  }

  /** Every worker is the one of its line. */
  predicate WorkersRight(lines: map<string, Line>, workers: map<nat, Worker>, next: nat) {
    forall w {:trigger w in workers} :: w in workers ==>
      w < next && workers[w].key in lines && lines[workers[w].key].worker == w
  }

  /** Only this conversation and its worker are touched. */
  ghost predicate OnlyAt(key: string, lines: map<string, Line>, workers: map<nat, Worker>, newLines: map<string, Line>,
                         newWorkers: map<nat, Worker>) {
    && (forall k {:trigger k in lines} {:trigger k in newLines} :: k != key ==>
          (k in lines <==> k in newLines) && (k in lines ==> lines[k] == newLines[k]))
    && forall w {:trigger w in workers} :: w in workers && workers[w].key != key ==>
         w in newWorkers && newWorkers[w] == workers[w]
  }

  lemma ElsewhereRight(key: string, lines: map<string, Line>, workers: map<nat, Worker>, newLines: map<string, Line>,
                       newWorkers: map<nat, Worker>, log: seq<Event>, e: Event, other: string)
    requires OnlyAt(key, lines, workers, newLines, newWorkers) && Proper(log, e) && e.key == key && other != key
    requires KeyRight(lines, workers, log, other)
    ensures KeyRight(newLines, newWorkers, log + [e], other)
  {
    if other in lines {
      var stage := workers[lines[other].worker].stage;
      OtherOrder(stage, lines[other].msgs, other, log, e);
      StillFresh(log, other, stage, lines[other].msgs, e);
    } else {
      OtherIdle(other, log, e);
    }
  }

  /** A step in one conversation that leaves it right leaves every conversation right. */
  lemma AllKeysRight(key: string, lines: map<string, Line>, workers: map<nat, Worker>, newLines: map<string, Line>,
                     newWorkers: map<nat, Worker>, log: seq<Event>, e: Event)
    requires OnlyAt(key, lines, workers, newLines, newWorkers) && Proper(log, e) && e.key == key
    requires forall k {:trigger KeyRight(lines, workers, log, k)} :: KeyRight(lines, workers, log, k)
    requires KeyRight(newLines, newWorkers, log + [e], key)
    ensures forall k {:trigger KeyRight(newLines, newWorkers, log + [e], k)} ::
              KeyRight(newLines, newWorkers, log + [e], k)
  {
    forall k {:trigger KeyRight(newLines, newWorkers, log + [e], k)} | k != key
      ensures KeyRight(newLines, newWorkers, log + [e], k)
    {
      assert KeyRight(lines, workers, log, k);
      ElsewhereRight(key, lines, workers, newLines, newWorkers, log, e, k);
    }
  }

  /** Every conversation is right, every worker is the one of its line, and so is the log. */
  ghost predicate Right(lines: map<string, Line>, workers: map<nat, Worker>, next: nat, closing: bool,
                        log: seq<Event>) {
    && (forall k {:trigger KeyRight(lines, workers, log, k)} :: KeyRight(lines, workers, log, k))
    && WorkersRight(lines, workers, next) && LogRight(log, closing)
  }

  /** A conversation's line and worker make a step that leaves them right: so is everything then. */
  lemma StepRight(lines: map<string, Line>, workers: map<nat, Worker>, next: nat, closing: bool, log: seq<Event>,
                  e: Event, line: Line, stage: Stage)
    requires Right(lines, workers, next, closing, log) && e.key in lines && line.worker == lines[e.key].worker
    requires LineRight(line, stage, e.key, log + [e]) && Proper(log, e)
    requires (e.Began? ==> Fresh(log, e.key, e.item)) && !e.Closed?
    ensures Right(lines[e.key := line], workers[line.worker := Worker(e.key, stage)], next, closing, log + [e])
  {
    assert KeyRight(lines, workers, log, e.key);
    LogOn(log, closing, e);
    AllKeysRight(e.key, lines, workers, lines[e.key := line], workers[line.worker := Worker(e.key, stage)], log, e);
  }

  lemma JoinRight(lines: map<string, Line>, workers: map<nat, Worker>, next: nat, closing: bool, log: seq<Event>,
                  key: string, item: Item)
    requires Right(lines, workers, next, closing, log) && key in lines && item.uid == |log| && !item.again
    ensures Right(lines[key := lines[key].(msgs := lines[key].msgs + [item])], workers, next, closing,
                  log + [Arrived(key, item)])
  {
    assert KeyRight(lines, workers, log, key);
    var line, w := lines[key], lines[key].worker;
    Joins(line, workers[w].stage, key, log, item);
    StepRight(lines, workers, next, closing, log, Arrived(key, item), line.(msgs := line.msgs + [item]),
              workers[w].stage);
    assert workers[w := Worker(key, workers[w].stage)] == workers;
  }

  lemma OpenRight(lines: map<string, Line>, workers: map<nat, Worker>, next: nat, closing: bool, log: seq<Event>,
                  key: string, item: Item)
    requires Right(lines, workers, next, closing, log) && key !in lines && item.uid == |log| && !item.again
    ensures Right(lines[key := Line([], "", next)], workers[next := Worker(key, Starting(item))], next + 1, closing,
                  log + [Arrived(key, item)])
  {
    var e := Arrived(key, item);
    assert KeyRight(lines, workers, log, key);
    LogOn(log, closing, e);
    Opens(key, log, item, next);
    AllKeysRight(key, lines, workers, lines[key := Line([], "", next)], workers[next := Worker(key, Starting(item))],
                 log, e);
  }

  lemma BeginRight(lines: map<string, Line>, workers: map<nat, Worker>, next: nat, closing: bool, log: seq<Event>,
                   w: nat)
    requires Right(lines, workers, next, closing, log) && w in workers && workers[w].stage.Starting?
    ensures var key, item := workers[w].key, workers[w].stage.item;
            key in lines &&
            Right(Marked(lines, key, item.id), workers[w := Worker(key, Handling(item, false))], next, closing,
                                  log + [Began(key, item)])
  {
    var key, item := workers[w].key, workers[w].stage.item;
    assert KeyRight(lines, workers, log, key);
    Begins(lines[key], item, key, log);
    StepRight(lines, workers, next, closing, log, Began(key, item), lines[key].(current := item.id),
              Handling(item, false));
  }

  lemma CloseLeaves(lines: map<string, Line>, workers: map<nat, Worker>, next: nat, w: nat)
    requires WorkersRight(lines, workers, next) && w in workers
    ensures OnlyAt(workers[w].key, lines, workers, lines - {workers[w].key}, workers - {w})
    ensures WorkersRight(lines - {workers[w].key}, workers - {w}, next)
  {
  }

  lemma CloseRight(lines: map<string, Line>, workers: map<nat, Worker>, next: nat, closing: bool, log: seq<Event>,
                   w: nat)
    requires Right(lines, workers, next, closing, log) && w in workers && workers[w].stage.Handling?
    requires workers[w].key in lines && (lines[workers[w].key].msgs == [] || closing)
    ensures Right(lines - {workers[w].key}, workers - {w}, next, closing,
                  log + [Closed(workers[w].key, lines[workers[w].key].msgs)])
  {
    var key := workers[w].key;
    var e := Closed(key, lines[key].msgs);
    assert KeyRight(lines, workers, log, key);
    CloseOrder(workers[w].stage, lines[key].msgs, key, log);
    CloseLeaves(lines, workers, next, w);
    LogOn(log, closing, e);
    AllKeysRight(key, lines, workers, lines - {key}, workers - {w}, log, e);
  }

  lemma NextRight(lines: map<string, Line>, workers: map<nat, Worker>, next: nat, closing: bool, log: seq<Event>,
                  w: nat)
    requires Right(lines, workers, next, closing, log) && w in workers && workers[w].stage.Handling?
    requires workers[w].key in lines && lines[workers[w].key].msgs != []
    ensures var key := workers[w].key;
            var line := lines[key];
            Right(lines[key := line.(current := "", msgs := line.msgs[1..])],
                  workers[w := Worker(key, Starting(line.msgs[0]))],
                  next, closing, log + [Ended(key, workers[w].stage.item.uid)])
  {
    var key, stage := workers[w].key, workers[w].stage;
    var line := lines[key];
    assert KeyRight(lines, workers, log, key);
    TakesNext(line, stage, key, log);
    StepRight(lines, workers, next, closing, log, Ended(key, stage.item.uid),
              line.(current := "", msgs := line.msgs[1..]),
              Starting(line.msgs[0]));
  }

  lemma RewordRight(lines: map<string, Line>, workers: map<nat, Worker>, next: nat, closing: bool, log: seq<Event>,
                    key: string, i: nat, text: string)
    requires Right(lines, workers, next, closing, log) && key in lines && i < |lines[key].msgs|
    ensures var line := lines[key];
            Right(lines[key := line.(msgs := line.msgs[i := line.msgs[i].(text := text)])], workers, next, closing,
                  log + [Replaced(key, line.msgs[i].uid, text)])
  {
    assert KeyRight(lines, workers, log, key);
    var line, w := lines[key], lines[key].worker;
    Rewords(line, workers[w].stage, key, log, i, text);
    StepRight(lines, workers, next, closing, log, Replaced(key, line.msgs[i].uid, text),
              line.(msgs := line.msgs[i := line.msgs[i].(text := text)]), workers[w].stage);
    assert workers[w := Worker(key, workers[w].stage)] == workers;
  }

  lemma CutRight(lines: map<string, Line>, workers: map<nat, Worker>, next: nat, closing: bool, log: seq<Event>,
                 key: string, text: string)
    requires Right(lines, workers, next, closing, log) && key in lines
    requires lines[key].current != "" && forall m :: m in lines[key].msgs ==> m.id != lines[key].current
    ensures var line := lines[key];
            && line.worker in workers && workers[line.worker].stage.Handling?
            && var stage := workers[line.worker].stage;
               var item := Item(stage.item.uid, line.current, text, true);
               Right(lines[key := line.(msgs := [item] + line.msgs)],
                     CutAt(workers, key, line.worker), next, closing, log + [Overtook(key, item)])
  {
    assert KeyRight(lines, workers, log, key);
    var line := lines[key];
    var stage := workers[line.worker].stage;
    var item := Item(stage.item.uid, line.current, text, true);
    CutsShort(line, stage, key, log, text);
    StepRight(lines, workers, next, closing, log, Overtook(key, item), line.(msgs := [item] + line.msgs),
              Handling(stage.item, true));
  }

  lemma PassRight(lines: map<string, Line>, workers: map<nat, Worker>, next: nat, closing: bool, log: seq<Event>,
                  key: string, id: string, text: string)
    requires Right(lines, workers, next, closing, log)
    ensures Right(lines, workers, next, closing, log + [PassedOn(key, id, text)])
  {
    var e := PassedOn(key, id, text);
    assert KeyRight(lines, workers, log, key);
    if key in lines { Passes(workers[lines[key].worker].stage, lines[key].msgs, key, log, id, text); }
    else { Passes(Starting(Item(0, "", "", false)), [], key, log, id, text); }
    LogOn(log, closing, e);
    AllKeysRight(key, lines, workers, lines, workers, log, e);
  }

  /** The turn of a worker was cut short. */
  function CutAt(workers: map<nat, Worker>, key: string, w: nat): map<nat, Worker>
    requires w in workers
  {
    workers[w := Worker(key, Handling(workers[w].stage.item, true))]
  }

  function Marked(lines: map<string, Line>, key: string, id: string): map<string, Line>
    requires key in lines
  {
    lines[key := lines[key].(current := id)]
  }

  class Host {
    var lines: map<string, Line>
    var workers: map<nat, Worker>
    var nextWorker: nat
    var closing: bool
    var log: seq<Event>

    constructor ()
      ensures Valid() && lines == map[] && workers == map[] && !closing && log == []
    {
      lines, workers, nextWorker, closing, log := map[], map[], 0, false, [];
    }

    ghost predicate Valid()
      reads this
    {
      Right(lines, workers, nextWorker, closing, log)
    }

    /** enqueueInbound, up to where it gives back the lock: a message joins its conversation's line, or opens one and
        starts its worker. */
    method Enqueue(key: string, id: string, text: string)
      requires Valid()
      modifies this
      ensures Valid() && closing == old(closing)
      ensures var item := Item(|old(log)|, id, text, false);
              && log == old(log) + [Arrived(key, item)]
              && if key in old(lines) then
                   && lines == old(lines)[key := old(lines)[key].(msgs := old(lines)[key].msgs + [item])]
                   && workers == old(workers)
                 else
                   && lines == old(lines)[key := Line([], "", old(nextWorker))]
                   && workers == old(workers)[old(nextWorker) := Worker(key, Starting(item))]
    {
      var item := Item(|log|, id, text, false);
      if key in lines { Join(key, item); } else { OpenLine(key, item); }
    }

    method Join(key: string, item: Item)
      requires Valid() && key in lines && item.uid == |log| && !item.again
      modifies this
      ensures Valid() && closing == old(closing) && workers == old(workers) && log == old(log) + [Arrived(key, item)]
      ensures lines == old(lines)[key := old(lines)[key].(msgs := old(lines)[key].msgs + [item])]
    {
      JoinRight(lines, workers, nextWorker, closing, log, key, item);
      lines := lines[key := lines[key].(msgs := lines[key].msgs + [item])];
      log := log + [Arrived(key, item)];
    }

    method OpenLine(key: string, item: Item)
      requires Valid() && key !in lines && item.uid == |log| && !item.again
      modifies this
      ensures Valid() && closing == old(closing) && log == old(log) + [Arrived(key, item)]
      ensures lines == old(lines)[key := Line([], "", old(nextWorker))]
      ensures workers == old(workers)[old(nextWorker) := Worker(key, Starting(item))]
    {
      OpenRight(lines, workers, nextWorker, closing, log, key, item);
      lines := lines[key := Line([], "", nextWorker)];
      workers := workers[nextWorker := Worker(key, Starting(item))];
      nextWorker := nextWorker + 1;
      log := log + [Arrived(key, item)];
    }

    /** The worker marks the message it took as the current one, and handles it. */
    method Begin(w: nat)
      requires Valid() && w in workers && workers[w].stage.Starting?
      modifies this
      ensures Valid() && closing == old(closing)
      ensures var key, item := old(workers)[w].key, old(workers)[w].stage.item;
              && key in old(lines)
              && log == old(log) + [Began(key, item)]
              && lines == Marked(old(lines), key, item.id)
              && workers == old(workers)[w := Worker(key, Handling(item, false))]
    {
      BeginRight(lines, workers, nextWorker, closing, log, w);
      var key, item := workers[w].key, workers[w].stage.item;
      lines := Marked(lines, key, item.id);
      workers := workers[w := Worker(key, Handling(item, false))];
      log := log + [Began(key, item)];
    }

    /** The turn is over: the next message is taken, or the line is closed when it is empty or the host shuts down. */
    method End(w: nat)
      requires Valid() && w in workers && workers[w].stage.Handling?
      modifies this
      ensures Valid() && closing == old(closing)
      ensures var key := old(workers)[w].key;
              && key in old(lines)
              && var line := old(lines)[key];
                 if line.msgs == [] || closing then
                   lines == old(lines) - {key} && workers == old(workers) - {w} &&
                   log == old(log) + [Closed(key, line.msgs)]
                 else
                   && lines == old(lines)[key := line.(current := "", msgs := line.msgs[1..])]
                   && workers == old(workers)[w := Worker(key, Starting(line.msgs[0]))]
                   && log == old(log) + [Ended(key, old(workers)[w].stage.item.uid)]
    {
      var key, item := workers[w].key, workers[w].stage.item;
      var line := lines[key];
      if line.msgs == [] || closing {
        CloseRight(lines, workers, nextWorker, closing, log, w);
        lines := lines - {key};
        workers := workers - {w};
        log := log + [Closed(key, line.msgs)];
      } else {
        NextRight(lines, workers, nextWorker, closing, log, w);
        lines := lines[key := line.(current := "", msgs := line.msgs[1..])];
        workers := workers[w := Worker(key, Starting(line.msgs[0]))];
        log := log + [Ended(key, item.uid)];
      }
    }

    /** dispatchEdit: new words for a message that waits take its place; for the one being handled they cut its turn
        short and come next; otherwise, and when it was answered already, the edit is passed on (answerEdit). */
    method Edit(key: string, id: string, text: string, answered: bool)
      requires Valid()
      modifies this
      ensures Valid() && closing == old(closing)
      ensures Trim(text) == "" || id == "" ==> lines == old(lines) && workers == old(workers) && log == old(log)
      ensures Trim(text) != "" && id != "" ==>
                match WhereIs(old(lines), key, id, answered)
                case Nowhere => lines == old(lines) && workers == old(workers) &&
                                log == old(log) + [PassedOn(key, id, text)]
                case InLine(i) =>
                  var line := old(lines)[key];
                  && lines == old(lines)[key := line.(msgs := line.msgs[i := line.msgs[i].(text := text)])]
                  && workers == old(workers) && log == old(log) + [Replaced(key, line.msgs[i].uid, text)]
                case Current =>
                  var line := old(lines)[key];
                  && line.worker in old(workers) && old(workers)[line.worker].stage.Handling?
                  && var item := Item(old(workers)[line.worker].stage.item.uid, id, text, true);
                     && lines == old(lines)[key := line.(msgs := [item] + line.msgs)]
                     && workers == CutAt(old(workers), key, line.worker)
                     && log == old(log) + [Overtook(key, item)]
    {
      if Trim(text) == "" || id == "" { return; }
      if !answered && key in lines {
        var line := lines[key];
        for i := 0 to |line.msgs|
          invariant forall j :: 0 <= j < i ==> line.msgs[j].id != id
        {
          if line.msgs[i].id == id {
            FirstIs(line.msgs, id, i);
            Reword(key, i, text);
            return;
          }
        }
        NotThere(line.msgs, id);
        if line.current == id {
          CutShort(key, text);
          return;
        }
      }
      PassOn(key, id, text);
    }

    method Reword(key: string, i: nat, text: string)
      requires Valid() && key in lines && i < |lines[key].msgs|
      modifies this
      ensures Valid() && closing == old(closing) && workers == old(workers)
      ensures var line := old(lines)[key];
              && lines == old(lines)[key := line.(msgs := line.msgs[i := line.msgs[i].(text := text)])]
              && log == old(log) + [Replaced(key, line.msgs[i].uid, text)]
    {
      RewordRight(lines, workers, nextWorker, closing, log, key, i, text);
      var line := lines[key];
      lines := lines[key := line.(msgs := line.msgs[i := line.msgs[i].(text := text)])];
      log := log + [Replaced(key, line.msgs[i].uid, text)];
    }

    method CutShort(key: string, text: string)
      requires Valid() && key in lines && lines[key].current != "" && forall m :: m in lines[key].msgs ==>
                 m.id != lines[key].current
      modifies this
      ensures Valid() && closing == old(closing)
      ensures var line := old(lines)[key];
              && line.worker in old(workers) && old(workers)[line.worker].stage.Handling?
              && var item := Item(old(workers)[line.worker].stage.item.uid, line.current, text, true);
                 && lines == old(lines)[key := line.(msgs := [item] + line.msgs)]
                 && workers == CutAt(old(workers), key, line.worker)
                 && log == old(log) + [Overtook(key, item)]
    {
      CutRight(lines, workers, nextWorker, closing, log, key, text);
      var line := lines[key];
      var stage := workers[line.worker].stage;
      var item := Item(stage.item.uid, line.current, text, true);
      lines := lines[key := line.(msgs := [item] + line.msgs)];
      workers := workers[line.worker := Worker(key, Handling(stage.item, true))];
      log := log + [Overtook(key, item)];
    }

    method PassOn(key: string, id: string, text: string)
      requires Valid()
      modifies this`log
      ensures Valid() && log == old(log) + [PassedOn(key, id, text)]
    {
      PassRight(lines, workers, nextWorker, closing, log, key, id, text);
      log := log + [PassedOn(key, id, text)];
    }

    method Shutdown()
      requires Valid()
      modifies this`closing
      ensures Valid() && closing
    {
      if !closing { ClosingLater(log); }
      closing := true;
    }
  }

  // ── Where an edited message is ──────────────────────────────────────────────

  datatype Place = Nowhere | InLine(i: nat) | Current

  function IndexOf(msgs: seq<Item>, id: string): (at: Option<nat>)
    ensures at.Some? ==> at.value < |msgs| && msgs[at.value].id == id && forall j :: 0 <= j < at.value ==>
              msgs[j].id != id
    ensures at.None? ==> forall m :: m in msgs ==> m.id != id
  {
    if msgs == [] then None
    else
      var at := IndexOf(msgs[..|msgs| - 1], id);
      if at.Some? then at else if msgs[|msgs| - 1].id == id then Some(|msgs| - 1) else None
  }

  /** Waiting in its line, being handled, or neither; one that was answered is looked for no more. */
  function WhereIs(lines: map<string, Line>, key: string, id: string, answered: bool): (p: Place)
    ensures !p.Nowhere? ==> key in lines
    ensures p.InLine? ==> p.i < |lines[key].msgs|
  {
    if answered || key !in lines then Nowhere
    else
      var at := IndexOf(lines[key].msgs, id);
      if at.Some? then InLine(at.value) else if lines[key].current == id then Current else Nowhere
  }

  lemma FirstIs(msgs: seq<Item>, id: string, i: nat)
    requires i < |msgs| && msgs[i].id == id && forall j :: 0 <= j < i ==> msgs[j].id != id
    ensures IndexOf(msgs, id) == Some(i)
  {
    assert msgs[i] in msgs;
  }

  lemma NotThere(msgs: seq<Item>, id: string)
    requires forall j :: 0 <= j < |msgs| ==> msgs[j].id != id
    ensures IndexOf(msgs, id) == None
  {
  }

  /** An edit is for the first waiting message of that id, else for the one being handled if it has it, else for none;
      one that was answered, or whose conversation has no line, is for none. */
  lemma {:induction false} WhereIsExactly(lines: map<string, Line>, key: string, id: string, answered: bool)
    ensures forall i: nat :: WhereIs(lines, key, id, answered) == InLine(i) <==>
              && !answered && key in lines && i < |lines[key].msgs| && lines[key].msgs[i].id == id
              && forall j :: 0 <= j < i ==> lines[key].msgs[j].id != id
    ensures WhereIs(lines, key, id, answered) == Current <==>
              && !answered && key in lines && lines[key].current == id
              && forall j :: 0 <= j < |lines[key].msgs| ==> lines[key].msgs[j].id != id
  {
    if key in lines {
      var msgs := lines[key].msgs;
      forall i: nat | i < |msgs| && msgs[i].id == id && forall j :: 0 <= j < i ==> msgs[j].id != id
        ensures IndexOf(msgs, id) == Some(i)
      {
        FirstIs(msgs, id, i);
      }
      if forall j :: 0 <= j < |msgs| ==> msgs[j].id != id { NotThere(msgs, id); }
    }
  }
}
