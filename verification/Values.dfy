/** What every part of the model shares: optional values, the decoded JSON a tool call carries, and trimming. */
module Values {

  datatype Option<+T> = None | Some(value: T)

  /** A decoded input or output, by the kind of value Go holds it in. Whole stands for int and int64, Float and Single
      for a finite float64 and float32, NonFinite for a NaN or an infinity under the name Go writes it by, Numeral for
      json.Number, Slice for a slice whose element type is not `any`. */
  datatype Value =
    | Null
    | Text(s: string)
    | Flag(b: bool)
    | Float(r: real)
    | Single(f: real)
    | NonFinite(name: string)
    | Whole(n: int)
    | Numeral(digits: string)
    | List(items: seq<Value>)
    | Slice(elems: seq<Value>)
    | Obj(fields: map<string, Value>)

  type Args = map<string, Value>

  /** `args[key].(string)`, "" when it is absent or not text. */
  function StringField(args: Args, key: string): string {
    if key in args && args[key].Text? then args[key].s else ""
  }

  predicate HasPrefix(s: string, p: string) {
    |p| <= |s| && s[..|p|] == p
  }

  /** unicode.IsSpace. */
  predicate IsSpace(c: char) {
    var n := c as int;
    9 <= n <= 13 || n == 0x20 || n == 0x85 || n == 0xA0 || n == 0x1680 || 0x2000 <= n <= 0x200a
    || n == 0x2028 || n == 0x2029 || n == 0x202f || n == 0x205f || n == 0x3000
  }

  function TrimLeft(s: string): string {
    if s != "" && IsSpace(s[0]) then TrimLeft(s[1..]) else s
  }

  function TrimRight(s: string): string {
    if s != "" && IsSpace(s[|s| - 1]) then TrimRight(s[..|s| - 1]) else s
  }

  /** strings.TrimSpace. */
  function Trim(s: string): string {
    TrimRight(TrimLeft(s))
  }

  predicate AllSpace(s: string) {
    forall i :: 0 <= i < |s| ==> IsSpace(s[i])
  }

  lemma {:induction false} TrimLeftExactly(s: string) returns (front: string)
    ensures s == front + TrimLeft(s) && AllSpace(front) && (TrimLeft(s) != "" ==> !IsSpace(TrimLeft(s)[0]))
  {
    front := "";
    if s != "" && IsSpace(s[0]) {
      var rest := TrimLeftExactly(s[1..]);
      front := [s[0]] + rest;
      assert s == [s[0]] + s[1..];
    }
  }

  lemma {:induction false} TrimRightExactly(s: string) returns (back: string)
    ensures s == TrimRight(s) + back && AllSpace(back)
    ensures (TrimRight(s) != "" ==> !IsSpace(TrimRight(s)[|TrimRight(s)| - 1]))
  {
    back := "";
    if s != "" && IsSpace(s[|s| - 1]) {
      var rest := TrimRightExactly(s[..|s| - 1]);
      back := rest + [s[|s| - 1]];
      assert s == s[..|s| - 1] + [s[|s| - 1]];
    }
  }

  /** Trimming takes spaces off both ends, and leaves none there. */
  lemma {:induction false} TrimExactly(s: string) returns (front: string, back: string)
    ensures s == front + Trim(s) + back && AllSpace(front) && AllSpace(back)
    ensures Trim(s) != "" ==> !IsSpace(Trim(s)[0]) && !IsSpace(Trim(s)[|Trim(s)| - 1])
  {
    front := TrimLeftExactly(s);
    back := TrimRightExactly(TrimLeft(s));
    assert s == front + (Trim(s) + back);
  }
}
