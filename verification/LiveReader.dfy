/** domain/live.go: one string field read out of JSON that is still arriving.

    A Go string is a sequence of bytes: every char here stands for one byte. What encoding/json makes of a quoted
    literal, nothing when it refuses it, is the parameter unquote. */
module LiveReader {
  import opened Values

  type Unquote = string -> Option<string>

  /** What was read of a string, and whether its closing quote was there. */
  datatype Part = Part(text: string, closed: bool)

  function Before(text: string, p: Part): Part {
    Part(text + p.text, p.closed)
  }

  function LowerByte(c: char): char {
    if 'A' <= c <= 'Z' then c + 32 as char else c
  }

  /** The first two digits of the first half of a surrogate pair: between d8 and db, compared as text. */
  predicate High(a: char, b: char) {
    LowerByte(a) == 'd' && '8' <= LowerByte(b) <= 'b'
  }

  /** What an escape \u… with these digits adds: nothing when it cannot be decoded. */
  function Decoded(unquote: Unquote, digits: string): string {
    match unquote("\"\\u" + digits + "\"")
    case Some(r) => r
    case None => ""
  }

  function Short(c: char): string {
    if c == 'n' then "\n" else if c == 't' then "\t" else if c == 'r' then "\r"
    else if c == 'b' || c == 'f' then "" else [c]
  }

  /** How long the escape at the head of s is, 0 when it is cut short. */
  function EscapeLength(s: string): (n: nat)
    requires s != "" && s[0] == '\\'
    ensures n <= |s|
  {
    if |s| < 2 then 0
    else if s[1] != 'u' then 2
    else if |s| < 6 then 0
    else if !High(s[2], s[3]) then 6
    else if |s| < 12 then 0 else 12
  }

  function EscapeText(unquote: Unquote, s: string): string
    requires |s| >= 2
  {
    if s[1] == 'u' then Decoded(unquote, s[2..]) else Short(s[1])
  }

  /** partialString. */
  function Read(unquote: Unquote, s: string): Part
    decreases |s|
  {
    if s == "" then Part("", false)
    else if s[0] == '"' then Part("", true)
    else if s[0] != '\\' then Before([s[0]], Read(unquote, s[1..]))
    else
      var n := EscapeLength(s);
      if n == 0 then Part("", false) else Before(EscapeText(unquote, s[..n]), Read(unquote, s[n..]))
  }

  /** What the loop has read when it stands at i. */
  predicate SoFar(unquote: Unquote, s: string, b: string, i: nat) {
    i <= |s| && Read(unquote, s) == Before(b, Read(unquote, s[i..]))
  }

  lemma PlainStep(unquote: Unquote, s: string, b: string, i: nat)
    requires SoFar(unquote, s, b, i) && i < |s| && s[i] != '"' && s[i] != '\\'
    ensures SoFar(unquote, s, b + [s[i]], i + 1)
  {
    assert s[i..][1..] == s[i + 1..];
    BeforeTwice(b, [s[i]], Read(unquote, s[i + 1..]));
  }

  lemma EscapeStep(unquote: Unquote, s: string, b: string, i: nat, add: string, next: nat)
    requires SoFar(unquote, s, b, i) && i < |s| && s[i] == '\\'
    requires i + 2 <= next == i + EscapeLength(s[i..]) && add == EscapeText(unquote, s[i..next])
    ensures SoFar(unquote, s, b + add, next)
  {
    assert s[i..][..next - i] == s[i..next] && s[i..][next - i..] == s[next..];
    BeforeTwice(b, add, Read(unquote, s[next..]));
  }

  lemma BeforeTwice(b: string, add: string, p: Part)
    ensures Before(b, Before(add, p)) == Before(b + add, p)
  {
    assert b + (add + p.text) == b + add + p.text;
  }

  method PartialString(unquote: Unquote, s: string) returns (p: Part)
    ensures p == Read(unquote, s)
  {
    var b := "";
    var i := 0;
    while i < |s|
      invariant 0 <= i <= |s| && SoFar(unquote, s, b, i)
    {
      var c := s[i];
      if c == '"' {
        return Part(b, true);
      } else if c != '\\' {
        PlainStep(unquote, s, b, i);
        b, i := b + [c], i + 1;
      } else if i + 1 >= |s| {
        return Part(b, false);
      } else {
        var add, next := Short(s[i + 1]), i + 2;
        if s[i + 1] == 'u' {
          if i + 5 >= |s| { return Part(b, false); }
          var digits := s[i + 2..i + 6];
          if High(s[i + 2], s[i + 3]) {
            if i + 11 >= |s| { return Part(b, false); }
            digits := digits + s[i + 6..i + 12];
          }
          add, next := Decoded(unquote, digits), i + 2 + |digits|;
          assert s[i..next][2..] == digits;
        }
        EscapeStep(unquote, s, b, i, add, next);
        b, i := b + add, next;
      }
    }
    assert s[i..] == "";
    return Part(b, false);
  }

  // ── The reading only grows ──────────────────────────────────────────────────

  /** How much of s is read in one step, 0 when nothing can be: its end, the closing quote, an escape cut short. */
  function StepLength(s: string): (n: nat)
    ensures n <= |s|
  {
    if s == "" || s[0] == '"' then 0 else if s[0] == '\\' then EscapeLength(s) else 1
  }

  function StepText(unquote: Unquote, s: string): string
    requires StepLength(s) > 0
  {
    if s[0] == '\\' then EscapeText(unquote, s[..EscapeLength(s)]) else [s[0]]
  }

  lemma OneStep(unquote: Unquote, s: string)
    requires StepLength(s) > 0
    ensures Read(unquote, s) == Before(StepText(unquote, s), Read(unquote, s[StepLength(s)..]))
  {
  }

  lemma SameStep(unquote: Unquote, s: string, more: string)
    requires StepLength(s) > 0
    ensures StepLength(s + more) == StepLength(s) && StepText(unquote, s + more) == StepText(unquote, s)
    ensures (s + more)[StepLength(s)..] == s[StepLength(s)..] + more
  {
    assert (s + more)[..StepLength(s)] == s[..StepLength(s)];
  }

  lemma {:induction false} ReadGrows(unquote: Unquote, s: string, more: string)
    ensures Read(unquote, s).text <= Read(unquote, s + more).text
    ensures Read(unquote, s).closed ==> Read(unquote, s + more) == Read(unquote, s)
    decreases |s|
  {
    var n := StepLength(s);
    if n > 0 {
      OneStep(unquote, s);
      OneStep(unquote, s + more);
      SameStep(unquote, s, more);
      ReadGrows(unquote, s[n..], more);
    } else if s != "" && s[0] == '"' {
      assert (s + more)[0] == '"';
    }
  }

  // ── What a sender writes ────────────────────────────────────────────────────

  /** One piece of a string as section 7 of RFC 8259 lets it be written: a byte as it is, a two-character escape, a
      \uXXXX escape, or two of them that make a pair. \b and \f are left out: the reader drops them. */
  datatype Piece = Plain(c: char) | Esc(c: char) | Unit(hex: string) | Pair(high: string, low: string)

  predicate IsHex(s: string) {
    |s| == 4 && forall i :: 0 <= i < 4 ==> '0' <= s[i] <= '9' || 'a' <= s[i] <= 'f' || 'A' <= s[i] <= 'F'
  }

  predicate Written(p: Piece) {
    match p
    case Plain(c) => c != '"' && c != '\\'
    case Esc(c) => c in "\"\\/nrt"
    case Unit(h) => IsHex(h) && !(h[0] in "dD" && h[1] in "89abAB")
    case Pair(h, l) => IsHex(h) && h[0] in "dD" && h[1] in "89abAB" && IsHex(l)
  }

  function PieceWire(p: Piece): (w: string)
    ensures w != ""
  {
    match p
    case Plain(c) => [c]
    case Esc(c) => ['\\', c]
    case Unit(h) => "\\u" + h
    case Pair(h, l) => "\\u" + h + "\\u" + l
  }

  /** The bytes a piece stands for: those of an escape \u are what encoding/json decodes it to. */
  function PieceText(unquote: Unquote, p: Piece): string {
    match p
    case Plain(c) => [c]
    case Esc(c) => if c == 'n' then "\n" else if c == 'r' then "\r" else if c == 't' then "\t" else [c]
    case Unit(h) => (match unquote("\"\\u" + h + "\"") case Some(r) => r case None => "")
    case Pair(h, l) => (match unquote("\"\\u" + h + "\\u" + l + "\"") case Some(r) => r case None => "")
  }

  function Wire(ps: seq<Piece>): string {
    if ps == [] then "" else PieceWire(ps[0]) + Wire(ps[1..])
  }

  function TextOf(unquote: Unquote, ps: seq<Piece>): string {
    if ps == [] then "" else PieceText(unquote, ps[0]) + TextOf(unquote, ps[1..])
  }

  predicate AllWritten(ps: seq<Piece>) {
    forall p :: p in ps ==> Written(p)
  }

  lemma DecodedPair(unquote: Unquote, h: string, l: string)
    ensures PieceText(unquote, Pair(h, l)) == Decoded(unquote, h + "\\u" + l)
  {
    assert "\"\\u" + h + "\\u" + l + "\"" == "\"\\u" + (h + "\\u" + l) + "\"";
  }

  lemma HighDigits(h: string)
    requires IsHex(h)
    ensures High(h[0], h[1]) <==> h[0] in "dD" && h[1] in "89abAB"
  {
  }

  /** A whole piece is read as what it stands for. */
  lemma PieceRead(unquote: Unquote, p: Piece, rest: string)
    requires Written(p)
    ensures Read(unquote, PieceWire(p) + rest) == Before(PieceText(unquote, p), Read(unquote, rest))
  {
    var w := PieceWire(p);
    var s := w + rest;
    assert s[|w|..] == rest && s[..|w|] == w;
    match p
    case Plain(_) =>
    case Esc(_) =>
    case Unit(h) =>
      HighDigits(h);
      assert s[2] == h[0] && s[3] == h[1] && w[2..] == h;
    case Pair(h, l) =>
      HighDigits(h);
      DecodedPair(unquote, h, l);
      assert s[2] == h[0] && s[3] == h[1] && w[2..] == h + "\\u" + l;
  }

  /** A piece cut short is left out. */
  lemma PieceCut(unquote: Unquote, p: Piece, k: nat)
    requires Written(p) && k < |PieceWire(p)|
    ensures Read(unquote, PieceWire(p)[..k]) == Part("", false)
  {
    if k >= 4 && !p.Plain? && !p.Esc? {
      var h := if p.Unit? then p.hex else p.high;
      HighDigits(h);
      assert PieceWire(p)[..k][2] == h[0] && PieceWire(p)[..k][3] == h[1];
    }
  }

  /** Round trip: the closed string is read as exactly what was written, whatever comes after it. */
  lemma {:induction false} RoundTrip(unquote: Unquote, ps: seq<Piece>, rest: string)
    requires AllWritten(ps)
    ensures Read(unquote, Wire(ps) + "\"" + rest) == Part(TextOf(unquote, ps), true)
  {
    if ps == [] {
      assert Wire(ps) + "\"" + rest == "\"" + rest;
    } else {
      var tail := Wire(ps[1..]) + "\"" + rest;
      assert Wire(ps) + "\"" + rest == PieceWire(ps[0]) + tail;
      PieceRead(unquote, ps[0], tail);
      RoundTrip(unquote, ps[1..], rest);
    }
  }

  /** Cut anywhere, it is read as the pieces that are wholly there: j of them. */
  lemma {:induction false} ReadCut(unquote: Unquote, ps: seq<Piece>, k: nat) returns (j: nat)
    requires AllWritten(ps) && k <= |Wire(ps)|
    ensures j <= |ps| && |Wire(ps[..j])| <= k && (j < |ps| ==> k < |Wire(ps[..j + 1])|)
    ensures Read(unquote, Wire(ps)[..k]) == Part(TextOf(unquote, ps[..j]), false)
    ensures TextOf(unquote, ps[..j]) <= TextOf(unquote, ps)
  {
    if ps == [] { return 0; }
    var w := PieceWire(ps[0]);
    if k < |w| {
      CutInFirst(unquote, ps, k);
      return 0;
    }
    var n := k - |w|;
    var i := ReadCut(unquote, ps[1..], n);
    assert Wire(ps)[..k] == w + Wire(ps[1..])[..n];
    PieceRead(unquote, ps[0], Wire(ps[1..])[..n]);
    FirstOf(unquote, ps, i + 1);
    if i + 1 < |ps| { FirstOf(unquote, ps, i + 2); }
    return i + 1;
  }

  lemma CutInFirst(unquote: Unquote, ps: seq<Piece>, k: nat)
    requires AllWritten(ps) && ps != [] && k < |PieceWire(ps[0])|
    ensures Read(unquote, Wire(ps)[..k]) == Part("", false) && Wire(ps[..1]) == PieceWire(ps[0])
  {
    assert Wire(ps)[..k] == PieceWire(ps[0])[..k];
    PieceCut(unquote, ps[0], k);
    assert ps[..1] == [ps[0]] && Wire([]) == "";
  }

  lemma FirstOf(unquote: Unquote, ps: seq<Piece>, j: nat)
    requires 0 < j <= |ps|
    ensures Wire(ps[..j]) == PieceWire(ps[0]) + Wire(ps[1..][..j - 1])
    ensures TextOf(unquote, ps[..j]) == PieceText(unquote, ps[0]) + TextOf(unquote, ps[1..][..j - 1])
  {
    assert ps[..j][1..] == ps[1..][..j - 1];
  }

  // ── The field ───────────────────────────────────────────────────────────────

  predicate Blank(c: char) {
    c == ' ' || c == '\t' || c == '\r' || c == '\n'
  }

  /** strings.TrimLeft, of blanks. */
  function SkipBlanks(s: string): string {
    if s != "" && Blank(s[0]) then SkipBlanks(s[1..]) else s
  }

  lemma {:induction false} SkipsExactly(s: string) returns (front: string)
    ensures s == front + SkipBlanks(s) && forall i :: 0 <= i < |front| ==> Blank(front[i])
    ensures SkipBlanks(s) != "" ==> !Blank(SkipBlanks(s)[0])
  {
    front := "";
    if s != "" && Blank(s[0]) {
      var rest := SkipsExactly(s[1..]);
      front := [s[0]] + rest;
      assert s == [s[0]] + s[1..];
    }
  }

  /** Where a string whose contents begin at i closes. */
  function Closing(s: string, i: nat): (end: Option<nat>)
    ensures end.Some? ==> i <= end.value < |s| && s[end.value] == '"'
    decreases |s| - i
  {
    if i >= |s| then None
    else if s[i] == '"' then Some(i)
    else Closing(s, if s[i] == '\\' then i + 2 else i + 1)
  }

  /** The value of a closed string: as it stands when it cannot be decoded. */
  function Unquoted(unquote: Unquote, raw: string): string {
    match unquote("\"" + raw + "\"")
    case Some(v) => v
    case None => raw
  }

  datatype Meaning = NotAKey | NoText | Starts(at: nat)

  /** What stands at i, after the field's name: no colon, a value that is not (yet) text, or text from at. */
  function AfterKey(s: string, i: nat): (a: Meaning)
    ensures a.Starts? ==> i < a.at <= |s|
    decreases |s| - i
  {
    if i >= |s| then NotAKey
    else if Blank(s[i]) then AfterKey(s, i + 1)
    else if s[i] == ':' then AfterColon(s, i + 1) else NotAKey
  }

  function AfterColon(s: string, i: nat): (a: Meaning)
    ensures !a.NotAKey? && (a.Starts? ==> i < a.at <= |s|)
    decreases |s| - i
  {
    if i >= |s| then NoText
    else if Blank(s[i]) then AfterColon(s, i + 1)
    else if s[i] == '"' then Starts(i + 1) else NoText
  }

  /** What a string means that goes from i to end. */
  function Meant(unquote: Unquote, s: string, i: nat, end: nat, depth: int, field: string): (a: Meaning)
    requires i <= end < |s|
    ensures a.Starts? ==> end < a.at <= |s|
  {
    if depth == 1 && Unquoted(unquote, s[i..end]) == field then AfterKey(s, end + 1) else NotAKey
  }

  /** Where the value of the field begins, at i and at this depth of an object's text. */
  function Where(unquote: Unquote, s: string, i: nat, depth: int, field: string): (at: Option<nat>)
    ensures at.Some? ==> i < at.value <= |s|
    decreases |s| - i
  {
    if i >= |s| then None
    else if s[i] == '"' then
      match Closing(s, i + 1)
      case None => None
      case Some(end) =>
        match Meant(unquote, s, i + 1, end, depth, field)
        case NoText => None
        case Starts(at) => Some(at)
        case NotAKey => Where(unquote, s, end + 1, depth, field)
    else Where(unquote, s, i + 1, depth + Nesting(s[i]), field)
  }

  function Nesting(c: char): int {
    if c == '{' || c == '[' then 1 else if c == '}' || c == ']' then -1 else 0
  }

  /** The field in the text of an object. */
  function InObject(unquote: Unquote, s: string, field: string): Option<string> {
    if s == "" || s[0] != '{' then None
    else match Where(unquote, s, 1, 1, field)
      case None => None
      case Some(at) => Some(Read(unquote, s[at..]).text)
  }

  /** What was sent, without what it is wrapped in: an object may be sent as a string that holds it. */
  function Unwrapped(unquote: Unquote, partial: string): string {
    var s := SkipBlanks(partial);
    if s != "" && s[0] == '"' then SkipBlanks(Read(unquote, s[1..]).text) else s
  }

  /** PartialStringField. */
  function FieldOf(unquote: Unquote, partial: string, field: string): Option<string> {
    InObject(unquote, Unwrapped(unquote, partial), field)
  }

  lemma AsQuoted(s: string, from: nat, end: nat)
    requires 1 <= from <= end < |s| && s[from - 1] == '"' && s[end] == '"'
    ensures s[from - 1..end + 1] == "\"" + s[from..end] + "\""
  {
    assert s[from - 1..end + 1] == [s[from - 1]] + s[from..end] + [s[end]];
  }

  method ScanString(unquote: Unquote, s: string, from: nat) returns (value: string, end: int)
    requires 1 <= from <= |s| && s[from - 1] == '"'
    ensures match Closing(s, from)
            case None => value == "" && end == -1
            case Some(e) => value == Unquoted(unquote, s[from..e]) && end == e
  {
    var i := from;
    while i < |s|
      invariant from <= i && Closing(s, from) == Closing(s, i)
    {
      if s[i] == '"' {
        AsQuoted(s, from, i);
        match unquote(s[from - 1..i + 1])
        case Some(v) => return v, i;
        case None => return s[from..i], i;
      }
      if s[i] == '\\' { i := i + 1; }
      i := i + 1;
    }
    return "", -1;
  }

  method PartialStringField(unquote: Unquote, partial: string, field: string) returns (v: Option<string>)
    ensures v == FieldOf(unquote, partial, field)
  {
    var s := Unwrap(unquote, partial);
    if s == "" || s[0] != '{' { return None; }
    var at := FieldStart(unquote, s, field);
    if at == 0 { return None; }
    var part := PartialString(unquote, s[at..]);
    return Some(part.text);
  }

  method Unwrap(unquote: Unquote, partial: string) returns (s: string)
    ensures s == Unwrapped(unquote, partial)
  {
    s := SkipBlanks(partial);
    if s != "" && s[0] == '"' {
      var inner := PartialString(unquote, s[1..]);
      s := SkipBlanks(inner.text);
    }
  }

  /** The walk along the top level: where the field's value begins, 0 when it has not. */
  method FieldStart(unquote: Unquote, s: string, field: string) returns (at: nat)
    ensures match Where(unquote, s, 1, 1, field) case None => at == 0 case Some(found) => at == found
  {
    var i, depth := 1, 1;
    while i < |s|
      invariant Where(unquote, s, 1, 1, field) == Where(unquote, s, i, depth, field)
    {
      var c := s[i];
      if c == '"' {
        var str, end := ScanString(unquote, s, i + 1);
        if end < 0 { return 0; }
        i := end + 1;
        if depth == 1 && str == field {
          var after := AfterName(s, i);
          if after.NoText? { return 0; }
          if after.Starts? { return after.at; }
        }
      } else {
        depth, i := depth + Nesting(c), i + 1;
      }
    }
    return 0;
  }

  /** The colon and the opening quote, if they are there. */
  method AfterName(s: string, i: nat) returns (a: Meaning)
    ensures a == AfterKey(s, i)
  {
    var j := i;
    while j < |s| && Blank(s[j])
      invariant i <= j && AfterKey(s, i) == AfterKey(s, j)
    {
      j := j + 1;
    }
    if j >= |s| || s[j] != ':' { return NotAKey; }
    j := j + 1;
    while j < |s| && Blank(s[j])
      invariant i <= j && AfterKey(s, i) == AfterColon(s, j)
    {
      j := j + 1;
    }
    if j >= |s| || s[j] != '"' { return NoText; }
    return Starts(j + 1);
  }
}
