/** domain/live.go: the watcher that shows the finish action's content as it grows. Thinking is not part of it. */
module ReplyWatching {
  import opened Values
  import opened LiveReader
  import opened LiveDrafts

  const FINISH := "finish"

  /** What the watcher holds: per call its action's name and its arguments so far, the last text told, and the drafts
      told since the model's call began. */
  datatype Seen = Seen(calls: map<int, string>, args: map<int, string>, lastText: string, drafts: seq<string>)

  /** A Go map's zero value. */
  function At(m: map<int, string>, k: int): string {
    if k in m then m[k] else ""
  }

  predicate IsNew(content: Option<string>, lastText: string) {
    content.Some? && content.value != lastText
  }

  function Tell(w: Seen, content: Option<string>): Seen {
    if IsNew(content, w.lastText) then w.(lastText := content.value, drafts := w.drafts + [content.value]) else w
  }

  /** One piece of a call. */
  function Fed(unquote: Unquote, w: Seen, index: int, name: string, delta: string): Seen {
    var named := if name != "" then w.(calls := w.calls[index := name]) else w;
    if At(named.calls, index) != FINISH then named
    else
      var args := At(w.args, index) + delta;
      Tell(named.(args := w.args[index := args]), FieldOf(unquote, args, "content"))
  }

  // ── Drafts only go on ───────────────────────────────────────────────────────

  predicate Growing(drafts: seq<string>) {
    forall k {:trigger drafts[k]} :: 0 < k < |drafts| ==> drafts[k - 1] < drafts[k]
  }

  /** The drafts told are those of a content that has come this far. */
  predicate Told(content: Option<string>, lastText: string, drafts: seq<string>) {
    && Growing(drafts) && (content.Some? ==> lastText == content.value)
    && (drafts != [] ==> content.Some? && drafts[|drafts| - 1] == lastText)
  }

  /** The call at index is the only one that is the finish action. */
  predicate OnlyFinish(w: Seen, index: int) {
    && (forall i :: i in w.args ==> i == index) && (forall i :: i in w.calls && w.calls[i] == FINISH ==> i == index)
  }

  ghost predicate Watching(unquote: Unquote, w: Seen, index: int) {
    OnlyFinish(w, index) && Told(FieldOf(unquote, At(w.args, index), "content"), w.lastText, w.drafts)
  }

  lemma ToldOn(content: Option<string>, longer: Option<string>, w: Seen)
    requires Told(content, w.lastText, w.drafts) && Extends(content, longer)
    ensures var told := Tell(w, longer);
            && Told(longer, told.lastText, told.drafts) && told.calls == w.calls && told.args == w.args &&
               w.drafts <= told.drafts
  {
  }

  /** Every piece keeps it: a draft once told is a beginning of every later one. */
  lemma FedKeeps(unquote: Unquote, w: Seen, only: int, index: int, name: string, delta: string)
    requires Watching(unquote, w, only)
    requires index == only || At(Fed(unquote, w, index, name, delta).calls, index) != FINISH
    ensures Watching(unquote, Fed(unquote, w, index, name, delta), only)
    ensures w.drafts <= Fed(unquote, w, index, name, delta).drafts
  {
    var named := if name != "" then w.(calls := w.calls[index := name]) else w;
    if At(named.calls, index) == FINISH { FinishFed(unquote, w, named, only, delta); }
  }

  lemma FinishFed(unquote: Unquote, w: Seen, named: Seen, only: int, delta: string)
    requires Watching(unquote, w, only) && named == w.(calls := named.calls) && OnlyFinish(named, only)
    ensures var args := At(w.args, only) + delta;
            var told := Tell(named.(args := w.args[only := args]), FieldOf(unquote, args, "content"));
            Watching(unquote, told, only) && w.drafts <= told.drafts
  {
    var args := At(w.args, only) + delta;
    FieldGrows(unquote, At(w.args, only), args, "content");
    ToldOn(FieldOf(unquote, At(w.args, only), "content"), FieldOf(unquote, args, "content"),
           named.(args := w.args[only := args]));
  }

  class ReplyWatch {
    const unquote: Unquote
    var calls: map<int, string>
    var args: map<int, string>
    var lastText: string
    var drafts: seq<string>

    constructor (unquote: Unquote)
      ensures this.unquote == unquote && State() == Seen(map[], map[], "", [])
    {
      this.unquote := unquote;
      calls, args, lastText, drafts := map[], map[], "", [];
    }

    function State(): Seen
      reads this
    {
      Seen(calls, args, lastText, drafts)
    }

    method CallBegins()
      modifies this
      ensures State() == Seen(map[], map[], old(lastText), [])
    {
      calls, args, drafts := map[], map[], [];
    }

    method ToolCall(index: int, name: string, delta: string)
      modifies this
      ensures State() == Fed(unquote, old(State()), index, name, delta)
    {
      if name != "" { calls := calls[index := name]; }
      if At(calls, index) != FINISH { return; }
      args := args[index := At(args, index) + delta];
      var text := PartialStringField(unquote, args[index], "content");
      if text.None? || text.value == lastText { return; }
      lastText := text.value;
      drafts := drafts + [text.value];
    }
  }

  lemma WatchingFromTheStart(unquote: Unquote, lastText: string, index: int)
    ensures Watching(unquote, Seen(map[], map[], lastText, []), index)
  {
    assert FieldOf(unquote, "", "content") == None;
  }

  function Joined(pieces: seq<string>): string {
    if pieces == [] then "" else Joined(pieces[..|pieces| - 1]) + pieces[|pieces| - 1]
  }

  lemma JoinedOn(pieces: seq<string>, i: nat)
    requires i < |pieces|
    ensures Joined(pieces[..i + 1]) == Joined(pieces[..i]) + pieces[i]
  {
    assert pieces[..i + 1][..i] == pieces[..i];
  }

  /** One piece of the only finish action. */
  method Feed(w: ReplyWatch, index: int, name: string, piece: string)
    requires Watching(w.unquote, w.State(), index) && (name == FINISH || (name == "" && At(w.calls, index) == FINISH))
    modifies w
    ensures Watching(w.unquote, w.State(), index) && At(w.calls, index) == FINISH
    ensures At(w.args, index) == old(At(w.args, index)) + piece
  {
    FedKeeps(w.unquote, w.State(), index, index, name, piece);
    w.ToolCall(index, name, piece);
  }

  /** A finish action in pieces: the drafts told grow, and end in what the whole of the arguments holds. */
  method Stream(w: ReplyWatch, index: int, pieces: seq<string>)
    modifies w
    ensures Growing(w.drafts)
    ensures Told(FieldOf(w.unquote, Joined(pieces), "content"), w.lastText, w.drafts)
  {
    w.CallBegins();
    WatchingFromTheStart(w.unquote, w.lastText, index);
    var i := 0;
    while i < |pieces|
      invariant 0 <= i <= |pieces| && Watching(w.unquote, w.State(), index)
      invariant At(w.args, index) == Joined(pieces[..i])
      invariant i > 0 ==> At(w.calls, index) == FINISH
    {
      JoinedOn(pieces, i);
      Feed(w, index, if i == 0 then FINISH else "", pieces[i]);
      i := i + 1;
    }
    assert pieces[..i] == pieces;
  }
}
