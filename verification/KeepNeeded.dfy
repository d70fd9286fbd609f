/** runtime/requirements.go: what trimming left out but an offered action relies on is put back, and what that relies
    on, and so on. */
module KeepNeeded {
  import opened Values

  /** A bound action, as far as being offered goes: what must run first, what it relies on, and the connection it is of.
      */
  datatype Action = Action(name: string, needs: seq<string>, relied: seq<string>, app: string, declared: bool,
                           readOnly: bool)

  /** The names trimming picked; none when nothing was trimmed. */
  type Picked = Option<set<string>>

  function Names(actions: seq<Action>): set<string> {
    set a | a in actions :: a.name
  }

  predicate BringsLookUps(picked: Picked, a: Action) {
    picked.None? || a.name in picked.value
  }

  function Relies(picked: Picked, a: Action): seq<string> {
    if BringsLookUps(picked, a) then a.needs + a.relied else a.needs
  }

  /** An action whose connection does not list what its abilities rely on brings every look-up of it. */
  predicate BringsApp(picked: Picked, a: Action) {
    BringsLookUps(picked, a) && a.app != "" && !a.declared
  }

  /** The first action of a name. */
  function Named(all: seq<Action>, name: string): (t: Option<Action>)
    ensures t.None? <==> name !in Names(all)
    ensures t.Some? ==> t.value in all && t.value.name == name
  {
    if all == [] then None
    else if all[0].name == name then Some(all[0])
    else
      assert all == [all[0]] + all[1..];
      Named(all[1..], name)
  }

  /** a, once offered, has t offered too. */
  predicate Brings(all: seq<Action>, picked: Picked, a: Action, t: Action) {
    || (t.name in Relies(picked, a) && Named(all, t.name) == Some(t))
    || (BringsApp(picked, a) && t in all && t.app == a.app && t.readOnly)
  }

  /** t is the first action of its name. */
  predicate IsFirst(all: seq<Action>, t: Action) {
    exists k :: 0 <= k < |all| && all[k] == t && forall j :: 0 <= j < k ==> all[j].name != t.name
  }

  lemma {:induction false} NamedIsFirst(all: seq<Action>, t: Action)
    ensures Named(all, t.name) == Some(t) <==> IsFirst(all, t)
  {
    if all != [] && all[0].name != t.name {
      NamedIsFirst(all[1..], t);
      if k :| 0 <= k < |all[1..]| && all[1..][k] == t && forall j :: 0 <= j < k ==> all[1..][j].name != t.name {
        forall j | 0 <= j < k + 1 ensures all[j].name != t.name { if j > 0 { assert all[j] == all[1..][j - 1]; } }
        assert all[k + 1] == t;
      }
      if k :| 0 <= k < |all| && all[k] == t && forall j :: 0 <= j < k ==> all[j].name != t.name {
        assert all[1..][k - 1] == t && forall j :: 0 <= j < k - 1 ==> all[1..][j].name == all[j + 1].name;
      }
    } else if all != [] && all[0] == t {
      assert IsFirst(all, t);
    }
  }

  /** What must run first always comes with an action; what it relies on, and the look-ups of a connection that does not
      list these, come with what trimming picked, or with everything when nothing was trimmed. */
  lemma {:induction false} BringsExactly(all: seq<Action>, picked: Picked, a: Action, t: Action)
    ensures Brings(all, picked, a, t) <==>
              || (t.name in a.needs && IsFirst(all, t))
              || ((picked.None? || a.name in picked.value) && t.name in a.relied && IsFirst(all, t))
              || ((picked.None? || a.name in picked.value) && a.app != "" && !a.declared
                  && t in all && t.app == a.app && t.readOnly)
  {
    NamedIsFirst(all, t);
  }

  /** Everything a brings is there, by name. */
  predicate Provided(all: seq<Action>, picked: Picked, a: Action, have: set<string>) {
    forall t :: t in all && Brings(all, picked, a, t) ==> t.name in have
  }

  /** What was put back is of all, is new, and an earlier one brings it. */
  predicate Justified(all: seq<Action>, picked: Picked, out: seq<Action>, k: nat)
    requires k < |out|
  {
    && out[k] in all && out[k].name !in Names(out[..k])
    && exists j :: 0 <= j < k && Brings(all, picked, out[j], out[k])
  }

  ghost predicate AllJustified(all: seq<Action>, picked: Picked, offered: seq<Action>, out: seq<Action>) {
    offered <= out && forall k :: |offered| <= k < |out| ==> Justified(all, picked, out, k)
  }

  lemma OneMore(all: seq<Action>, picked: Picked, offered: seq<Action>, out: seq<Action>, j: nat, t: Action)
    requires AllJustified(all, picked, offered, out) && j < |out|
    requires t in all && t.name !in Names(out) && Brings(all, picked, out[j], t)
    ensures AllJustified(all, picked, offered, out + [t]) && Names(out + [t]) == Names(out) + {t.name}
    ensures Names(all) - Names(out + [t]) < Names(all) - Names(out)
  {
    var more := out + [t];
    forall k | |offered| <= k < |more| ensures Justified(all, picked, more, k) {
      assert more[..k] == out[..k];
      if k < |out| {
        assert Justified(all, picked, out, k);
        var i :| 0 <= i < k && Brings(all, picked, out[i], out[k]);
        assert Brings(all, picked, more[i], more[k]);
      } else {
        assert out[..k] == out;
        assert Brings(all, picked, more[j], more[k]);
      }
    }
    assert t.name in Names(all);
  }

  /** Everything the action at i brings. */
  method Bring(ghost offered: seq<Action>, all: seq<Action>, picked: Picked, so: seq<Action>, i: nat)
    returns (out: seq<Action>)
    requires i < |so| && AllJustified(all, picked, offered, so)
    ensures AllJustified(all, picked, offered, out) && so <= out && Names(so) <= Names(out)
    ensures out == so || Names(all) - Names(out) < Names(all) - Names(so)
    ensures Provided(all, picked, so[i], Names(out))
  {
    out := BringRelied(offered, all, picked, so, i);
    out := BringApp(offered, all, picked, out, i);
    ItsNeedsAreThere(all, picked, so[i], Names(out));
  }

  ghost predicate DoneTo(all: seq<Action>, picked: Picked, out: seq<Action>, i: nat) {
    i <= |out| && forall k :: 0 <= k < i ==> Provided(all, picked, out[k], Names(out))
  }

  lemma DoneOn(all: seq<Action>, picked: Picked, was: seq<Action>, out: seq<Action>, i: nat)
    requires DoneTo(all, picked, was, i) && was <= out && Names(was) <= Names(out) && i < |out|
    requires Provided(all, picked, out[i], Names(out))
    ensures DoneTo(all, picked, out, i + 1)
  {
    forall k | 0 <= k < i ensures Provided(all, picked, out[k], Names(out)) {
      assert Provided(all, picked, was[k], Names(was)) && out[k] == was[k];
    }
  }

  /** keepNeeded: the list grows while it is gone through. */
  method Keep(offered: seq<Action>, all: seq<Action>, picked: Picked) returns (out: seq<Action>)
    ensures AllJustified(all, picked, offered, out)
    ensures forall a :: a in out ==> Provided(all, picked, a, Names(out))
  {
    out := offered;
    var i := 0;
    while i < |out|
      invariant 0 <= i <= |out| && AllJustified(all, picked, offered, out)
      invariant DoneTo(all, picked, out, i)
      decreases |Names(all) - Names(out)|, |out| - i
    {
      ghost var was := out;
      out := Bring(offered, all, picked, out, i);
      FewerLeft(all, was, out);
      DoneOn(all, picked, was, out, i);
      i := i + 1;
    }
  }

  lemma FewerLeft(all: seq<Action>, was: seq<Action>, out: seq<Action>)
    requires Names(was) <= Names(out) && (out == was || Names(all) - Names(out) < Names(all) - Names(was))
    ensures out == was || |Names(all) - Names(out)| < |Names(all) - Names(was)|
  {
    if out != was { Smaller(Names(all) - Names(out), Names(all) - Names(was)); }
  }

  lemma Smaller<T>(a: set<T>, b: set<T>)
    requires a < b
    ensures |a| < |b|
  {
    assert b == a + (b - a) && a !! b - a;
    assert b - a != {};
  }

  lemma ItsNeedsAreThere(all: seq<Action>, picked: Picked, a: Action, have: set<string>)
    requires forall name :: name in Relies(picked, a) && name in Names(all) ==> name in have
    requires BringsApp(picked, a) ==> forall t :: t in all && t.app == a.app && t.readOnly ==> t.name in have
    ensures Provided(all, picked, a, have)
  {
  }

  /** What the action at i relies on by name. */
  method BringRelied(ghost offered: seq<Action>, all: seq<Action>, picked: Picked, so: seq<Action>, i: nat)
    returns (out: seq<Action>)
    requires i < |so| && AllJustified(all, picked, offered, so)
    ensures AllJustified(all, picked, offered, out) && so <= out && Names(so) <= Names(out)
    ensures out == so || Names(all) - Names(out) < Names(all) - Names(so)
    ensures forall name :: name in Relies(picked, so[i]) && name in Names(all) ==> name in Names(out)
  {
    out := so;
    var relies := Relies(picked, so[i]);
    for n := 0 to |relies|
      invariant AllJustified(all, picked, offered, out) && so <= out && Names(so) <= Names(out)
      invariant out == so || Names(all) - Names(out) < Names(all) - Names(so)
      invariant forall m :: 0 <= m < n && relies[m] in Names(all) ==> relies[m] in Names(out)
    {
      if relies[n] in Names(out) { continue; }
      var t := Find(all, relies[n]);
      if t.Some? {
        OneMore(all, picked, offered, out, i, t.value);
        out := out + [t.value];
      }
    }
  }

  method Find(all: seq<Action>, name: string) returns (t: Option<Action>)
    ensures t == Named(all, name)
  {
    for i := 0 to |all|
      invariant Named(all, name) == Named(all[i..], name)
    {
      if all[i].name == name { return Some(all[i]); }
      assert all[i..][1..] == all[i + 1..];
    }
    return None;
  }

  /** The look-ups of the connection of the action at i. */
  method BringApp(ghost offered: seq<Action>, all: seq<Action>, picked: Picked, so: seq<Action>, i: nat)
    returns (out: seq<Action>)
    requires i < |so| && AllJustified(all, picked, offered, so)
    ensures AllJustified(all, picked, offered, out) && so <= out && Names(so) <= Names(out)
    ensures out == so || Names(all) - Names(out) < Names(all) - Names(so)
    ensures BringsApp(picked, so[i]) ==> forall t :: t in all && t.app == so[i].app && t.readOnly ==>
              t.name in Names(out)
  {
    out := so;
    if !BringsApp(picked, so[i]) { return; }
    for n := 0 to |all|
      invariant AllJustified(all, picked, offered, out) && so <= out && Names(so) <= Names(out)
      invariant out == so || Names(all) - Names(out) < Names(all) - Names(so)
      invariant forall m :: 0 <= m < n && all[m].app == so[i].app && all[m].readOnly ==> all[m].name in Names(out)
    {
      var t := all[n];
      if t.app == so[i].app && t.readOnly && t.name !in Names(out) {
        OneMore(all, picked, offered, out, i, t);
        out := out + [t];
      }
    }
  }

  // ── The least there is ──────────────────────────────────────────────────────

  predicate Closed(all: seq<Action>, picked: Picked, s: set<Action>) {
    forall a, t :: a in s && t in all && Brings(all, picked, a, t) ==> t in s
  }

  predicate DistinctNames(all: seq<Action>) {
    forall a, b :: a in all && b in all && a.name == b.name ==> a == b
  }

  function Set(actions: seq<Action>): set<Action> {
    set a | a in actions
  }

  /** Whatever holds what was offered and all it brings holds what was put back. */
  lemma {:induction false} WithinEveryClosed(all: seq<Action>, picked: Picked, offered: seq<Action>, out: seq<Action>,
                                             s: set<Action>, k: nat)
    requires AllJustified(all, picked, offered, out) && Closed(all, picked, s) && Set(offered) <= s && k <= |out|
    ensures Set(out[..k]) <= s
  {
    if k > 0 {
      WithinEveryClosed(all, picked, offered, out, s, k - 1);
      if k - 1 < |offered| {
        assert out[k - 1] == offered[k - 1] && offered[k - 1] in Set(offered);
      } else {
        assert Justified(all, picked, out, k - 1);
        var j :| 0 <= j < k - 1 && Brings(all, picked, out[j], out[k - 1]);
        assert out[j] in out[..k - 1] && out[j] in Set(out[..k - 1]);
      }
      assert out[..k] == out[..k - 1] + [out[k - 1]];
    }
  }

  /** With distinct names, what is offered in the end is the least that holds what was offered and all it brings. */
  lemma LeastClosed(all: seq<Action>, picked: Picked, offered: seq<Action>, out: seq<Action>)
    requires DistinctNames(all) && Set(offered) <= Set(all)
    requires AllJustified(all, picked, offered, out) && forall a :: a in out ==> Provided(all, picked, a, Names(out))
    ensures Set(offered) <= Set(out) && Closed(all, picked, Set(out))
    ensures forall s :: Set(offered) <= s && Closed(all, picked, s) ==> Set(out) <= s
  {
    forall a | a in offered ensures a in out {
      var i :| 0 <= i < |offered| && offered[i] == a;
      assert out[i] == a;
    }
    forall a | a in out ensures a in all {
      var k :| 0 <= k < |out| && out[k] == a;
      if k < |offered| { assert a == offered[k] && a in Set(offered) && a in Set(all); }
      else { assert Justified(all, picked, out, k); }
    }
    forall a, t | a in Set(out) && t in all && Brings(all, picked, a, t) ensures t in Set(out) {
      assert Provided(all, picked, a, Names(out));
      var b :| b in out && b.name == t.name;
      assert b in all;
    }
    forall s | Set(offered) <= s && Closed(all, picked, s) ensures Set(out) <= s {
      WithinEveryClosed(all, picked, offered, out, s, |out|);
      assert out[..|out|] == out;
    }
  }

  // ── What a request asks for ─────────────────────────────────────────────────

  /** keepRequired: an action the request needs is offered, trimmed or not. */
  method KeepRequired(offered: seq<Action>, all: seq<Action>, tools: seq<string>) returns (out: seq<Action>)
    ensures offered <= out && forall name :: name in tools && name in Names(all) ==> name in Names(out)
    ensures forall k :: |offered| <= k < |out| ==>
              out[k] in all && out[k].name in tools && out[k].name !in Names(out[..k])
  {
    out := offered;
    for n := 0 to |tools|
      invariant offered <= out && forall m :: 0 <= m < n && tools[m] in Names(all) ==> tools[m] in Names(out)
      invariant forall k :: |offered| <= k < |out| ==>
                  out[k] in all && out[k].name in tools && out[k].name !in Names(out[..k])
    {
      if tools[n] in Names(out) { continue; }
      var t := Find(all, tools[n]);
      if t.Some? {
        ghost var was := out;
        out := out + [t.value];
        forall k | |offered| <= k < |out|
          ensures out[k] in all && out[k].name in tools && out[k].name !in Names(out[..k])
        {
          if k < |was| { assert out[..k] == was[..k] && out[k] == was[k]; } else { assert out[..k] == was; }
        }
        assert forall a :: a in was ==> a in out;
        assert t.value in out;
      }
    }
  }
}
