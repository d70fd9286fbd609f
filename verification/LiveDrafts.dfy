/** domain/live.go: what the incremental reader promises about a reply that is still being written, and the watcher that
    shows it as a draft. */
module LiveDrafts {
  import opened Values
  import opened LiveReader

  // ── A longer input never takes back what was read ───────────────────────────

  lemma {:induction false} ClosingStays(s: string, t: string, i: nat)
    requires s <= t && Closing(s, i).Some?
    ensures Closing(t, i) == Closing(s, i)
    decreases |s| - i
  {
    if s[i] != '"' { ClosingStays(s, t, if s[i] == '\\' then i + 2 else i + 1); }
  }

  lemma {:induction false} AfterColonStays(s: string, t: string, i: nat)
    requires s <= t && AfterColon(s, i).Starts?
    ensures AfterColon(t, i) == AfterColon(s, i)
    decreases |s| - i
  {
    if Blank(s[i]) { AfterColonStays(s, t, i + 1); }
  }

  /** No colon is there for good once something else is; before that the input goes on in blanks, and says nothing. */
  lemma {:induction false} AfterKeyStays(unquote: Unquote, s: string, t: string, i: nat, depth: int, field: string)
    requires s <= t
    ensures AfterKey(s, i).Starts? ==> AfterKey(t, i) == AfterKey(s, i)
    ensures AfterKey(s, i).NotAKey? && Where(unquote, s, i, depth, field).Some? ==> AfterKey(t, i).NotAKey?
    decreases |s| - i
  {
    if i < |s| {
      if Blank(s[i]) {
        AfterKeyStays(unquote, s, t, i + 1, depth, field);
      } else if s[i] == ':' && AfterColon(s, i + 1).Starts? {
        AfterColonStays(s, t, i + 1);
      }
    }
  }

  lemma {:induction false} WhereStays(unquote: Unquote, s: string, t: string, i: nat, depth: int, field: string)
    requires s <= t && Where(unquote, s, i, depth, field).Some?
    ensures Where(unquote, t, i, depth, field) == Where(unquote, s, i, depth, field)
    decreases |s| - i
  {
    if s[i] != '"' {
      WhereStays(unquote, s, t, i + 1, depth + Nesting(s[i]), field);
    } else {
      ClosingStays(s, t, i + 1);
      var end := Closing(s, i + 1).value;
      assert s[i + 1..end] == t[i + 1..end];
      AfterKeyStays(unquote, s, t, end + 1, depth, field);
      if Meant(unquote, s, i + 1, end, depth, field).NotAKey? { WhereStays(unquote, s, t, end + 1, depth, field); }
    }
  }

  /** What is read of a longer input extends what was read. */
  predicate Extends(v: Option<string>, longer: Option<string>) {
    v.Some? ==> longer.Some? && v.value <= longer.value
  }

  lemma ObjectGrows(unquote: Unquote, s: string, t: string, field: string)
    requires s <= t
    ensures Extends(InObject(unquote, s, field), InObject(unquote, t, field))
  {
    if InObject(unquote, s, field).Some? {
      WhereStays(unquote, s, t, 1, 1, field);
      var at := Where(unquote, s, 1, 1, field).value;
      assert t[at..] == s[at..] + t[|s|..];
      ReadGrows(unquote, s[at..], t[|s|..]);
    }
  }

  lemma {:induction false} TrimGrows(s: string, t: string)
    requires s <= t
    ensures SkipBlanks(s) == "" || SkipBlanks(s) <= SkipBlanks(t)
  {
    if s != "" && Blank(s[0]) { TrimGrows(s[1..], t[1..]); }
  }

  lemma UnwrappedGrows(unquote: Unquote, s: string, t: string)
    requires s <= t
    ensures Unwrapped(unquote, s) == "" || Unwrapped(unquote, s) <= Unwrapped(unquote, t)
  {
    TrimGrows(s, t);
    var a, b := SkipBlanks(s), SkipBlanks(t);
    if a != "" && a[0] == '"' {
      assert b[1..] == a[1..] + b[|a|..];
      ReadGrows(unquote, a[1..], b[|a|..]);
      TrimGrows(Read(unquote, a[1..]).text, Read(unquote, b[1..]).text);
    }
  }

  /** Once a value is found, every longer input gives a value it is a prefix of: also when the object is sent as a
      string. */
  lemma FieldGrows(unquote: Unquote, s: string, t: string, field: string)
    requires s <= t
    ensures Extends(FieldOf(unquote, s, field), FieldOf(unquote, t, field))
  {
    if FieldOf(unquote, s, field).Some? {
      UnwrappedGrows(unquote, s, t);
      ObjectGrows(unquote, Unwrapped(unquote, s), Unwrapped(unquote, t), field);
    }
  }

  // ── An object as a model writes it ──────────────────────────────────────────

  /** What an object's text is made of: strings, bracketed groups and other single bytes. */
  datatype Token = Str(raw: string) | Byte(c: char) | Group(square: bool, inner: seq<Token>)

  function Open(square: bool): char {
    if square then '[' else '{'
  }

  function Close(square: bool): char {
    if square then ']' else '}'
  }

  function Quoted(raw: string): (q: string)
    ensures |q| == |raw| + 2
  {
    ['"'] + (raw + ['"'])
  }

  function TokenWire(t: Token): string {
    match t
    case Str(raw) => Quoted(raw)
    case Byte(c) => [c]
    case Group(square, inner) => [Open(square)] + (TokensWire(inner) + [Close(square)])
  }

  function TokensWire(ts: seq<Token>): string {
    if ts == [] then "" else TokenWire(ts[0]) + TokensWire(ts[1..])
  }

  /** Strings end where they say, and no other byte is a quote or a bracket. */
  predicate Sound(t: Token) {
    match t
    case Str(raw) => Sealed(raw)
    case Byte(c) => c !in "\"{}[]"
    case Group(_, inner) => AllSound(inner)
  }

  predicate AllSound(ts: seq<Token>) {
    ts == [] || (Sound(ts[0]) && AllSound(ts[1..]))
  }

  /** No quote that is not escaped, and no escape cut short. */
  predicate Sealed(raw: string) {
    raw == "" || if raw[0] == '\\' then |raw| >= 2 && Sealed(raw[2..]) else raw[0] != '"' && Sealed(raw[1..])
  }

  /** s has w at i. */
  predicate Has(s: string, i: nat, w: string) {
    i + |w| <= |s| && forall k {:trigger w[k]} :: 0 <= k < |w| ==> s[i + k] == w[k]
  }

  lemma HasParts(s: string, i: nat, a: string, b: string)
    requires Has(s, i, a + b)
    ensures Has(s, i, a) && Has(s, i + |a|, b)
  {
    forall k | 0 <= k < |a| ensures s[i + k] == a[k] { assert (a + b)[k] == a[k]; }
    forall k | 0 <= k < |b| ensures s[i + |a| + k] == b[k] { assert (a + b)[|a| + k] == b[k]; }
  }

  lemma HasFirst(s: string, i: nat, c: char, w: string)
    requires Has(s, i, [c] + w)
    ensures s[i] == c && Has(s, i + 1, w)
  {
    assert s[i] == ([c] + w)[0];
    forall k | 0 <= k < |w| ensures s[i + 1 + k] == w[k] { assert ([c] + w)[1 + k] == w[k]; }
  }

  lemma HasRest(s: string, i: nat, w: string, n: nat)
    requires Has(s, i, w) && n <= |w|
    ensures Has(s, i + n, w[n..])
  {
    assert w == w[..n] + w[n..];
    HasParts(s, i, w[..n], w[n..]);
  }

  /** Contents without an open quote are closed by the quote that follows them. */
  lemma {:induction false} SealedCloses(s: string, i: nat, raw: string)
    requires Sealed(raw) && Has(s, i, raw) && i + |raw| < |s| && s[i + |raw|] == '"'
    ensures Closing(s, i) == Some(i + |raw|)
    decreases |raw|
  {
    if raw != "" {
      assert s[i] == raw[0];
      var n := if raw[0] == '\\' then 2 else 1;
      HasRest(s, i, raw, n);
      SealedCloses(s, i + n, raw[n..]);
    }
  }

  lemma HasSlice(s: string, i: nat, w: string)
    requires Has(s, i, w)
    ensures s[i..i + |w|] == w
  {
  }

  /** Where a quoted string closes. */
  lemma QuotedCloses(s: string, i: nat, raw: string)
    requires i < |s| && s[i] == '"' && Sealed(raw) && Has(s, i + 1, raw) && i + 1 + |raw| < |s|
    requires s[i + 1 + |raw|] == '"'
    ensures Closing(s, i + 1) == Some(i + 1 + |raw|) && s[i + 1..i + 1 + |raw|] == raw
  {
    SealedCloses(s, i + 1, raw);
    HasSlice(s, i + 1, raw);
  }

  lemma QuotedParts(s: string, i: nat, raw: string)
    requires Has(s, i, Quoted(raw))
    ensures s[i] == '"' && Has(s, i + 1, raw) && s[i + 1 + |raw|] == '"'
  {
    HasFirst(s, i, '"', raw + ['"']);
    HasParts(s, i + 1, raw, ['"']);
    assert s[i + 1 + |raw|] == ['"'][0];
  }

  /** No string among these tokens, which stand at i, is the field's key. */
  predicate NotAmong(unquote: Unquote, s: string, i: nat, ts: seq<Token>, field: string)
    decreases ts
  {
    ts != [] ==>
      var next := i + |TokenWire(ts[0])|;
      && (ts[0].Str? && Unquoted(unquote, ts[0].raw) == field ==> AfterKey(s, next).NotAKey?)
      && NotAmong(unquote, s, next, ts[1..], field)
  }

  /** The walk passes over tokens, at the top level only when none of them is the key. */
  lemma {:induction false} PastTokens(unquote: Unquote, s: string, i: nat, ts: seq<Token>, depth: int, field: string)
    requires Has(s, i, TokensWire(ts)) && AllSound(ts) && depth >= 1
    requires depth == 1 ==> NotAmong(unquote, s, i, ts, field)
    ensures Where(unquote, s, i, depth, field) == Where(unquote, s, i + |TokensWire(ts)|, depth, field)
    decreases ts, 0
  {
    if ts != [] {
      HasParts(s, i, TokenWire(ts[0]), TokensWire(ts[1..]));
      PastToken(unquote, s, i, ts[0], depth, field);
      PastTokens(unquote, s, i + |TokenWire(ts[0])|, ts[1..], depth, field);
    }
  }

  lemma PastToken(unquote: Unquote, s: string, i: nat, t: Token, depth: int, field: string)
    requires Has(s, i, TokenWire(t)) && Sound(t) && depth >= 1
    requires depth == 1 && t.Str? && Unquoted(unquote, t.raw) == field ==> AfterKey(s, i + |TokenWire(t)|).NotAKey?
    ensures Where(unquote, s, i, depth, field) == Where(unquote, s, i + |TokenWire(t)|, depth, field)
    decreases t
  {
    match t
    case Byte(c) => assert s[i] == [c][0];
    case Str(raw) =>
      QuotedParts(s, i, raw);
      QuotedCloses(s, i, raw);
    case Group(square, inner) => PastGroup(unquote, s, i, square, inner, depth, field);
  }

  lemma PastGroup(unquote: Unquote, s: string, i: nat, square: bool, inner: seq<Token>, depth: int, field: string)
    requires Has(s, i, TokenWire(Group(square, inner))) && AllSound(inner) && depth >= 1
    ensures Where(unquote, s, i, depth, field) == Where(unquote, s, i + 2 + |TokensWire(inner)|, depth, field)
    decreases inner, 1
  {
    var end := i + 1 + |TokensWire(inner)|;
    HasParts(s, i, [Open(square)], TokensWire(inner) + [Close(square)]);
    HasParts(s, i + 1, TokensWire(inner), [Close(square)]);
    assert s[i] == [Open(square)][0] && s[end] == [Close(square)][0];
    PastTokens(unquote, s, i + 1, inner, depth + 1, field);
  }

  // ── The draft of a reply ────────────────────────────────────────────────────

  predicate AllBlank(s: string) {
    forall i :: 0 <= i < |s| ==> Blank(s[i])
  }

  /** The text of an object up to the first byte of a field's value. */
  function Opening(head: seq<Token>, key: string, blanks1: string, blanks2: string): (o: string)
    ensures |o| == |TokensWire(head)| + |key| + |blanks1| + |blanks2| + 5
  {
    ['{'] + (TokensWire(head) + (Quoted(key) + (blanks1 + ([':'] + (blanks2 + ['"'])))))
  }

  /** s begins with an object whose first key that names the field is this one, and its value is text. */
  predicate FirstKey(unquote: Unquote, s: string, head: seq<Token>, key: string, blanks1: string, blanks2: string,
                     field: string) {
    && Opening(head, key, blanks1, blanks2) <= s
    && AllSound(head) && Sealed(key) && Unquoted(unquote, key) == field && AllBlank(blanks1) && AllBlank(blanks2)
    && NotAmong(unquote, s, 1, head, field)
  }

  lemma {:induction false} ColonThenText(s: string, i: nat, blanks: string)
    requires AllBlank(blanks) && Has(s, i, blanks + ['"'])
    ensures AfterColon(s, i) == Starts(i + |blanks| + 1)
    decreases |blanks|
  {
    assert s[i] == (blanks + ['"'])[0];
    if blanks != "" {
      assert blanks + ['"'] == [blanks[0]] + (blanks[1..] + ['"']);
      HasParts(s, i, [blanks[0]], blanks[1..] + ['"']);
      ColonThenText(s, i + 1, blanks[1..]);
    }
  }

  lemma {:induction false} KeyThenText(s: string, i: nat, blanks1: string, blanks2: string)
    requires AllBlank(blanks1) && AllBlank(blanks2) && Has(s, i, blanks1 + ([':'] + (blanks2 + ['"'])))
    ensures AfterKey(s, i) == Starts(i + |blanks1| + |blanks2| + 2)
    decreases |blanks1|
  {
    var rest := [':'] + (blanks2 + ['"']);
    assert s[i] == (blanks1 + rest)[0];
    if blanks1 == "" {
      assert blanks1 + rest == rest;
      HasParts(s, i, [':'], blanks2 + ['"']);
      ColonThenText(s, i + 1, blanks2);
    } else {
      assert blanks1 + rest == [blanks1[0]] + (blanks1[1..] + rest);
      HasParts(s, i, [blanks1[0]], blanks1[1..] + rest);
      KeyThenText(s, i + 1, blanks1[1..], blanks2);
    }
  }

  /** The walk stops at the field's key. */
  lemma KeyFound(unquote: Unquote, s: string, i: nat, key: string, at: nat, field: string)
    requires Has(s, i, Quoted(key)) && Sealed(key) && Unquoted(unquote, key) == field
    requires AfterKey(s, i + |key| + 2) == Starts(at)
    ensures Where(unquote, s, i, 1, field) == Some(at)
  {
    QuotedParts(s, i, key);
    QuotedCloses(s, i, key);
    StopsAt(unquote, s, i, i + 1 + |key|, at, field);
  }

  lemma StopsAt(unquote: Unquote, s: string, i: nat, end: nat, at: nat, field: string)
    requires i < end < |s| && s[i] == '"' && Closing(s, i + 1) == Some(end)
    requires Unquoted(unquote, s[i + 1..end]) == field && AfterKey(s, end + 1) == Starts(at)
    ensures Where(unquote, s, i, 1, field) == Some(at)
  {
  }

  lemma KeyAfterTokens(unquote: Unquote, s: string, head: seq<Token>, i: nat, key: string, at: nat, field: string)
    requires AllSound(head) && NotAmong(unquote, s, 1, head, field) && Has(s, 1, TokensWire(head))
    requires i == 1 + |TokensWire(head)|
    requires Has(s, i, Quoted(key)) && Sealed(key) && Unquoted(unquote, key) == field
    requires AfterKey(s, i + |key| + 2) == Starts(at)
    ensures Where(unquote, s, 1, 1, field) == Some(at)
  {
    KeyFound(unquote, s, i, key, at, field);
    PastTokens(unquote, s, 1, head, 1, field);
  }

  lemma KeyPlace(s: string, head: string, key: string, blanks1: string, blanks2: string) returns (i: nat)
    requires ['{'] + (head + (Quoted(key) + (blanks1 + ([':'] + (blanks2 + ['"']))))) <= s && AllBlank(blanks1)
    requires AllBlank(blanks2)
    ensures i == 1 + |head| && Has(s, 1, head) && Has(s, i, Quoted(key))
    ensures AfterKey(s, i + |key| + 2) == Starts(i + |key| + |blanks1| + |blanks2| + 4)
  {
    i := 1 + |head|;
    OpeningParts(s, head, Quoted(key), blanks1 + ([':'] + (blanks2 + ['"'])));
    KeyThenText(s, i + |key| + 2, blanks1, blanks2);
  }

  lemma FieldStarts(unquote: Unquote, s: string, head: seq<Token>, key: string, blanks1: string, blanks2: string,
                    at: nat, field: string)
    requires FirstKey(unquote, s, head, key, blanks1, blanks2, field) && at == |Opening(head, key, blanks1, blanks2)|
    ensures Where(unquote, s, 1, 1, field) == Some(at)
  {
    var i := KeyPlace(s, TokensWire(head), key, blanks1, blanks2);
    KeyAfterTokens(unquote, s, head, i, key, at, field);
  }

  lemma OpeningParts(s: string, head: string, key: string, end: string)
    requires ['{'] + (head + (key + end)) <= s
    ensures Has(s, 1, head) && Has(s, 1 + |head|, key) && Has(s, 1 + |head| + |key|, end)
  {
    assert Has(s, 0, ['{'] + (head + (key + end)));
    HasParts(s, 0, ['{'], head + (key + end));
    HasParts(s, 1, head, key + end);
    HasParts(s, 1 + |head|, key, end);
  }

  /** A whole document whose field holds what these pieces are written for. */
  predicate Writes(unquote: Unquote, s: string, opening: string, ps: seq<Piece>, rest: string, field: string) {
    && opening != "" && opening[0] == '{' && s == opening + (Wire(ps) + (['"'] + rest)) && AllWritten(ps)
    && Where(unquote, s, 1, 1, field) == Some(|opening|)
  }

  /** Before the value has begun, nothing is read. */
  lemma NothingYet(unquote: Unquote, s: string, opening: string, ps: seq<Piece>, rest: string, field: string, k: nat)
    requires Writes(unquote, s, opening, ps, rest, field) && k < |opening|
    ensures FieldOf(unquote, s[..k], field) == None
  {
    var cut := s[..k];
    if k > 0 {
      assert SkipBlanks(cut) == cut;
      if Where(unquote, cut, 1, 1, field).Some? { WhereStays(unquote, cut, s, 1, 1, field); }
    }
  }

  /** What there is of a string's contents, its closing quote and what follows when n bytes have come. */
  function Arrived(wire: string, rest: string, n: nat): string
    requires n <= |wire| + 1 + |rest|
  {
    if n <= |wire| then wire[..n] else wire + "\"" + rest[..n - |wire| - 1]
  }

  lemma ReadArrived(unquote: Unquote, ps: seq<Piece>, rest: string, n: nat) returns (j: nat)
    requires AllWritten(ps) && n <= |Wire(ps)| + 1 + |rest|
    ensures j <= |ps| && |Wire(ps[..j])| <= n && (j < |ps| ==> n < |Wire(ps[..j + 1])|)
    ensures Read(unquote, Arrived(Wire(ps), rest, n)).text == TextOf(unquote, ps[..j]) <= TextOf(unquote, ps)
  {
    if n <= |Wire(ps)| {
      j := ReadCut(unquote, ps, n);
    } else {
      j := |ps|;
      assert ps[..j] == ps;
      RoundTrip(unquote, ps, rest[..n - |Wire(ps)| - 1]);
    }
  }

  /** Once it has, what is read is the text of the pieces that are wholly there, and at the end all of it. */
  lemma DraftOf(unquote: Unquote, s: string, opening: string, ps: seq<Piece>, rest: string, field: string, k: nat)
    returns (j: nat)
    requires Writes(unquote, s, opening, ps, rest, field) && |opening| <= k <= |s|
    ensures j <= |ps| && |opening| + |Wire(ps[..j])| <= k && (j < |ps| ==> k < |opening| + |Wire(ps[..j + 1])|)
    ensures FieldOf(unquote, s[..k], field) == Some(TextOf(unquote, ps[..j]))
    ensures TextOf(unquote, ps[..j]) <= TextOf(unquote, ps)
  {
    ArrivedOf(s, opening, Wire(ps), rest, k);
    StartsInTheCut(unquote, s, opening, k, field, Arrived(Wire(ps), rest, k - |opening|));
    j := ReadArrived(unquote, ps, rest, k - |opening|);
  }

  lemma ArrivedOf(s: string, opening: string, wire: string, rest: string, k: nat)
    requires s == opening + (wire + (['"'] + rest)) && |opening| <= k <= |s|
    ensures s[..k][|opening|..] == Arrived(wire, rest, k - |opening|)
  {
  }

  lemma StartsInTheCut(unquote: Unquote, s: string, opening: string, k: nat, field: string, tail: string)
    requires opening != "" && opening[0] == '{' && opening <= s && |opening| <= k <= |s|
    requires Where(unquote, s, 1, 1, field) == Some(|opening|) && s[..k][|opening|..] == tail
    ensures FieldOf(unquote, s[..k], field) == Some(Read(unquote, tail).text)
  {
    assert s[..k][0] == '{';
    WhereInThePrefix(unquote, s[..k], s, 1, 1, field);
  }

  /** Where a longer input has the field begin, a prefix that reaches there has it begin too. */
  lemma {:induction false} WhereInThePrefix(unquote: Unquote, s: string, t: string, i: nat, depth: int, field: string)
    requires s <= t && Where(unquote, t, i, depth, field).Some? && Where(unquote, t, i, depth, field).value <= |s|
    ensures Where(unquote, s, i, depth, field) == Where(unquote, t, i, depth, field)
    decreases |s| - i
  {
    if t[i] != '"' {
      WhereInThePrefix(unquote, s, t, i + 1, depth + Nesting(s[i]), field);
    } else {
      var end := Closing(t, i + 1).value;
      ClosingInThePrefix(s, t, i + 1);
      assert s[i + 1..end] == t[i + 1..end];
      AfterKeyInThePrefix(s, t, end + 1);
      if Meant(unquote, t, i + 1, end, depth, field).NotAKey? {
        WhereInThePrefix(unquote, s, t, end + 1, depth, field);
      }
    }
  }

  lemma {:induction false} ClosingInThePrefix(s: string, t: string, i: nat)
    requires s <= t && Closing(t, i).Some? && Closing(t, i).value < |s|
    ensures Closing(s, i) == Closing(t, i)
    decreases |t| - i
  {
    if t[i] != '"' { ClosingInThePrefix(s, t, if t[i] == '\\' then i + 2 else i + 1); }
  }

  lemma {:induction false} AfterKeyInThePrefix(s: string, t: string, i: nat)
    requires s <= t
    ensures AfterKey(t, i).NotAKey? ==> AfterKey(s, i).NotAKey?
    ensures AfterKey(t, i).Starts? && AfterKey(t, i).at <= |s| ==> AfterKey(s, i) == AfterKey(t, i)
    decreases |s| - i
  {
    if i < |s| {
      if Blank(s[i]) { AfterKeyInThePrefix(s, t, i + 1); } else if s[i] == ':' { AfterColonInThePrefix(s, t, i + 1); }
    }
  }

  lemma {:induction false} AfterColonInThePrefix(s: string, t: string, i: nat)
    requires s <= t
    ensures AfterColon(t, i).Starts? && AfterColon(t, i).at <= |s| ==> AfterColon(s, i) == AfterColon(t, i)
    decreases |s| - i
  {
    if i < |s| && Blank(s[i]) { AfterColonInThePrefix(s, t, i + 1); }
  }

  /** An object sent as a string that holds it: cut anywhere, the field is that of the pieces that are wholly there. */
  lemma SentAsAString(unquote: Unquote, outer: seq<Piece>, field: string, k: nat) returns (j: nat)
    requires AllWritten(outer) && k <= |Wire(outer)|
    requires TextOf(unquote, outer) != "" && TextOf(unquote, outer)[0] == '{'
    ensures j <= |outer| && TextOf(unquote, outer[..j]) <= TextOf(unquote, outer)
    ensures (k == |Wire(outer)| ==> j == |outer|)
    ensures FieldOf(unquote, ['"'] + Wire(outer)[..k], field) == FieldOf(unquote, TextOf(unquote, outer[..j]), field)
  {
    var s := ['"'] + Wire(outer)[..k];
    assert SkipBlanks(s) == s && s[1..] == Wire(outer)[..k];
    j := ReadCut(unquote, outer, k);
    if j < |outer| && k == |Wire(outer)| { WireGrows(outer, j + 1); }
    var inner := TextOf(unquote, outer[..j]);
    if inner != "" { assert inner[0] == '{'; }
    assert SkipBlanks(inner) == inner;
  }

  lemma {:induction false} WireGrows(ps: seq<Piece>, j: nat)
    requires j <= |ps|
    ensures |Wire(ps[..j])| <= |Wire(ps)|
  {
    if j > 0 {
      assert ps[..j][1..] == ps[1..][..j - 1];
      WireGrows(ps[1..], j - 1);
    }
  }
}
