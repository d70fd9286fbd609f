/** What an agent may claim, and how that is checked against what its actions really did (domain/outcome.go). */
module Outcome {
  import opened Values

  const OUTPUT_NOT_APPROVED := "not approved"
  const OUTPUT_AUTH_PENDING_PREFIX := "auth_pending"
  const OUTPUT_TIMEZONE_PENDING_PREFIX := "timezone_pending"

  const OUTCOME_DONE := "done"
  const OUTCOME_NEED_DETAILS := "need_details"
  const OUTCOME_CANNOT := "cannot"

  /** What came back as the error of an action: none, the person's new message cutting a wait short, or any other. */
  datatype Fault = NoFault | Superseded | Failed(text: string)

  datatype Result = Result(output: Value, fault: Fault)

  /** Why an action was not done; Told carries the tool's own words. */
  datatype Why = NotSaid | DidNotGoThrough | NotApproved | ConnectFirst | TimeZoneFirst | Told(words: string)

  datatype Judged = Judged(done: bool, message: string, why: Why)

  datatype ActionRecord = ActionRecord(name: string, changes: bool, done: bool, message: string, why: Why)

  function TrimDots(s: string): string {
    if s != "" && s[|s| - 1] == '.' then TrimDots(s[..|s| - 1]) else s
  }

  predicate SaysUnchanged(output: Value) {
    output.Obj? && "changed" in output.fields && output.fields["changed"] == Flag(false)
  }

  /** Whether an action really did its job, from what it returned. */
  function OutcomeOf(r: Result): (j: Judged)
    ensures j.done <==>
            && r.fault.NoFault?
            && (r.output.Text? ==>
                  && r.output.s != OUTPUT_NOT_APPROVED
                  && !HasPrefix(r.output.s, OUTPUT_AUTH_PENDING_PREFIX)
                  && !HasPrefix(r.output.s, OUTPUT_TIMEZONE_PENDING_PREFIX))
            && !SaysUnchanged(r.output)
  {
    if !r.fault.NoFault? then Judged(false, "", DidNotGoThrough)
    else match r.output
      case Text(s) =>
        if s == OUTPUT_NOT_APPROVED then Judged(false, "", NotApproved)
        else if HasPrefix(s, OUTPUT_AUTH_PENDING_PREFIX) then Judged(false, "", ConnectFirst)
        else if HasPrefix(s, OUTPUT_TIMEZONE_PENDING_PREFIX) then Judged(false, "", TimeZoneFirst)
        else Judged(true, "", NotSaid)
      case Obj(fields) =>
        var message := StringField(fields, "message");
        if SaysUnchanged(r.output) then
          var reason := Trim(message);
          Judged(false, message, Told(TrimDots(if reason == "" then "nothing was changed" else reason)))
        else Judged(true, message, NotSaid)
      case _ => Judged(true, "", NotSaid)
  }

  // ── Requirements ────────────────────────────────────────────────────────────

  /** Any one of tools having succeeded is enough; with none named, any change. */
  datatype Requirements = Requirements(tools: seq<string>, anyChange: bool) {
    predicate Active() { tools != [] || anyChange }
  }

  predicate Counts(req: Requirements, rec: ActionRecord) {
    if req.tools == [] then rec.changes else rec.name in req.tools
  }

  /** What the requirements ask for, said of the record as a whole. */
  predicate ReallyHappened(req: Requirements, records: seq<ActionRecord>) {
    exists rec :: rec in records && rec.done && Counts(req, rec)
  }

  predicate ChangedAnything(records: seq<ActionRecord>) {
    exists rec :: rec in records && rec.changes && rec.done
  }

  /** The search the loop makes: the records once for each required name, or once for any change. */
  method Satisfied(req: Requirements, records: seq<ActionRecord>) returns (ok: bool)
    ensures ok <==> ReallyHappened(req, records)
  {
    if req.tools == [] {
      for i := 0 to |records|
        invariant forall k :: 0 <= k < i ==> !(records[k].changes && records[k].done)
      {
        if records[i].changes && records[i].done { return true; }
      }
      return false;
    }
    for n := 0 to |req.tools|
      invariant forall m, k :: 0 <= m < n && 0 <= k < |records| ==>
                  !(records[k].name == req.tools[m] && records[k].done)
    {
      for i := 0 to |records|
        invariant forall k :: 0 <= k < i ==> !(records[k].name == req.tools[n] && records[k].done)
      {
        if records[i].name == req.tools[n] && records[i].done { return true; }
      }
    }
    return false;
  }

  /** The most recent attempt that counts. */
  function LastAttempt(req: Requirements, records: seq<ActionRecord>): (rec: Option<ActionRecord>)
    ensures rec.None? <==> forall r :: r in records ==> !Counts(req, r)
    ensures rec.Some? ==> rec.value in records && Counts(req, rec.value)
  {
    if records == [] then None
    else if Counts(req, records[|records| - 1]) then Some(records[|records| - 1])
    else LastAttempt(req, records[..|records| - 1])
  }

  /** It is the record at some place after which none counts. */
  lemma {:induction false} LastAttemptIsLatest(req: Requirements, records: seq<ActionRecord>) returns (k: int)
    requires LastAttempt(req, records).Some?
    ensures 0 <= k < |records| && LastAttempt(req, records) == Some(records[k]) && Counts(req, records[k])
    ensures forall j :: k < j < |records| ==> !Counts(req, records[j])
  {
    k := |records| - 1;
    if !Counts(req, records[k]) { k := LastAttemptIsLatest(req, records[..k]); }
  }

  /** The search from the end. */
  method FindLastAttempt(req: Requirements, records: seq<ActionRecord>) returns (rec: Option<ActionRecord>)
    ensures rec == LastAttempt(req, records)
  {
    var i := |records|;
    assert records[..i] == records;
    while i > 0
      invariant 0 <= i <= |records| && LastAttempt(req, records) == LastAttempt(req, records[..i])
    {
      i := i - 1;
      if Counts(req, records[i]) { return Some(records[i]); }
      assert records[..i + 1][..i] == records[..i];
    }
    return None;
  }

  predicate Receiptable(rec: ActionRecord) {
    rec.changes && rec.done && Trim(rec.message) != ""
  }

  predicate Mentioned(records: seq<ActionRecord>, message: string) {
    exists rec :: rec in records && Receiptable(rec) && rec.message == message
  }

  function ReceiptLine(rec: ActionRecord): string {
    "✓ " + Trim(rec.message)
  }

  /** The tools' own messages for what really was done, each message once, in the order they came. */
  function Receipts(records: seq<ActionRecord>): seq<string> {
    if records == [] then []
    else
      var earlier, rec := records[..|records| - 1], records[|records| - 1];
      Receipts(earlier) + if Receiptable(rec) && !Mentioned(earlier, rec.message) then [ReceiptLine(rec)] else []
  }

  lemma OneRecordMore(records: seq<ActionRecord>, i: nat)
    requires i < |records|
    ensures Receipts(records[..i + 1]) ==
            Receipts(records[..i]) +
            if Receiptable(records[i]) && !Mentioned(records[..i], records[i].message) then [ReceiptLine(records[i])]
            else []
    ensures forall m :: Mentioned(records[..i + 1], m)
                        <==> Mentioned(records[..i], m) || (Receiptable(records[i]) && records[i].message == m)
  {
    assert records[..i + 1][..i] == records[..i];
    assert records[..i + 1] == records[..i] + [records[i]];
  }

  /** The loop over the records with its set of messages already seen. */
  method BuildReceipts(records: seq<ActionRecord>) returns (out: seq<string>)
    ensures out == Receipts(records)
  {
    out := [];
    var seen: set<string> := {};
    for i := 0 to |records|
      invariant out == Receipts(records[..i])
      invariant forall m :: m in seen <==> Mentioned(records[..i], m)
    {
      var rec := records[i];
      OneRecordMore(records, i);
      if Receiptable(rec) && rec.message !in seen {
        seen := seen + {rec.message};
        out := out + [ReceiptLine(rec)];
      }
    }
    assert records[..|records|] == records;
  }

  /** Every receipt is the message of a change that really went through, and every such message has its receipt. */
  lemma {:induction false} ReceiptsAreTheChanges(records: seq<ActionRecord>, line: string)
    ensures line in Receipts(records)
            <==> exists rec :: rec in records && Receiptable(rec) && line == ReceiptLine(rec)
  {
    if records != [] {
      var earlier, last := records[..|records| - 1], records[|records| - 1];
      assert records == earlier + [last];
      ReceiptsAreTheChanges(earlier, line);
    }
  }

  function Lines(parts: seq<string>): string {
    if parts == [] then "" else parts[0] + (if |parts| == 1 then "" else "\n" + Lines(parts[1..]))
  }

  const WENT_THROUGH := "This went through" + ", but I couldn't confirm it was everything you asked for:\n"
  const PARTLY := "Part of that" + " went through, but I couldn't confirm all of it. Please check."
  const NOTHING_CHANGED := "Nothing was changed: "

  function WhyText(w: Why): string {
    match w
    case NotSaid => ""
    case DidNotGoThrough => "it didn't go through"
    case NotApproved => "it wasn't approved"
    case ConnectFirst => "you need to connect your account first"
    case TimeZoneFirst => "I need your time zone first"
    case Told(words) => words
  }

  /** What the platform says when the agent keeps claiming otherwise. */
  function NothingChangedMessage(req: Requirements, records: seq<ActionRecord>): string {
    if ChangedAnything(records) then
      if Receipts(records) != [] then WENT_THROUGH + Lines(Receipts(records)) else PARTLY
    else
      var last := LastAttempt(req, records);
      NOTHING_CHANGED
      + (if last.Some? && !last.value.done && WhyText(last.value.why) != "" then WhyText(last.value.why)
         else "I didn't carry that out")
      + "."
  }

  /** The platform's words deny a change exactly when there was none; when a change came with words of its own, they
      give every receipt. */
  lemma FactsMatchTheRecord(req: Requirements, records: seq<ActionRecord>)
    ensures HasPrefix(NothingChangedMessage(req, records), "Nothing was changed") <==> !ChangedAnything(records)
    ensures (exists rec :: rec in records && Receiptable(rec)) ==>
              && Receipts(records) != []
              && NothingChangedMessage(req, records) == WENT_THROUGH + Lines(Receipts(records))
  {
    var m := NothingChangedMessage(req, records);
    if ChangedAnything(records) {
      if Receipts(records) != [] {
        assert m == WENT_THROUGH + Lines(Receipts(records));
        assert WENT_THROUGH[0] == 'T';
      } else {
        assert m == PARTLY;
        assert PARTLY[0] == 'P';
      }
      assert "Nothing was changed"[0] == 'N';
      assert !HasPrefix(m, "Nothing was changed") by {
        assert m[0] != 'N';
      }
    } else {
      assert m[..|NOTHING_CHANGED|] == NOTHING_CHANGED;
      assert m[..19] == NOTHING_CHANGED[..19] == "Nothing was changed";
    }
    if rec :| rec in records && Receiptable(rec) {
      ReceiptsAreTheChanges(records, ReceiptLine(rec));
    }
  }

  /** Whether a finish is accepted under the requirements (the feedback otherwise is wording). */
  predicate FinishAccepted(args: Args, req: Requirements, records: seq<ActionRecord>) {
    var outcome := StringField(args, "outcome");
    outcome == OUTCOME_NEED_DETAILS || outcome == OUTCOME_CANNOT ||
    (outcome == OUTCOME_DONE && ReallyHappened(req, records))
  }

  /** A finish is accepted exactly when it says that details are needed or that it could not be done, or says done and a
      record that counts is of something done: of one of the tools named, or of any change when none is. */
  lemma FinishExactly(args: Args, req: Requirements, records: seq<ActionRecord>)
    ensures FinishAccepted(args, req, records) <==>
              && "outcome" in args && args["outcome"].Text?
              && (|| args["outcome"].s == "need_details" || args["outcome"].s == "cannot"
                  || (args["outcome"].s == "done"
                      && exists rec :: rec in records && rec.done && if req.tools == [] then rec.changes
                                                                     else rec.name in req.tools))
  {
  }

  /** The words kept of a result are its own message, and the reason it was not done what it says of it. */
  lemma OutcomeSays(r: Result)
    ensures OutcomeOf(r).message ==
            if r.fault.NoFault? && r.output.Obj? && "message" in r.output.fields && r.output.fields["message"].Text?
            then r.output.fields["message"].s else ""
    ensures !r.fault.NoFault? ==> OutcomeOf(r).why == DidNotGoThrough
    ensures r.fault.NoFault? && r.output == Text("not approved") ==> OutcomeOf(r).why == NotApproved
    ensures r.fault.NoFault? && r.output.Text? && HasPrefix(r.output.s, "auth_pending") ==>
              OutcomeOf(r).why == ConnectFirst
    ensures r.fault.NoFault? && r.output.Text? && HasPrefix(r.output.s, "timezone_pending") ==>
              OutcomeOf(r).why == TimeZoneFirst
    ensures OutcomeOf(r).done ==> OutcomeOf(r).why == NotSaid
  {
    assert "auth_pending"[0] == 'a' && "timezone_pending"[0] == 't' && "not approved"[0] == 'n';
  }
}
