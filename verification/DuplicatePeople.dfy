/** Finding persons who are one human (postgres/sender.go:48-175): union-find with path compression over the messenger
    accounts they share. */
module DuplicatePeople {
  datatype Id = Id(text: string)

  /** A channel row: the account (a service and a sender id) and the person it is kept for. */
  datatype Account = Account(service: string, sender: string)

  datatype Row = Row(account: Account, person: Id)

  // ── What one human means ────────────────────────────────────────────────────

  ghost predicate Share(rows: set<Row>, p: Id, q: Id) {
    exists r, s :: r in rows && s in rows && r.account == s.account && r.person == p && s.person == q
  }

  /** A chain of n shared accounts leads from p to q. */
  ghost predicate LinkedIn(rows: set<Row>, p: Id, q: Id, n: nat)
    decreases n
  {
    if n == 0 then p == q else exists m :: LinkedIn(rows, p, m, n - 1) && Share(rows, m, q)
  }

  ghost predicate Linked(rows: set<Row>, p: Id, q: Id) {
    exists n: nat :: LinkedIn(rows, p, q, n)
  }

  lemma LinkedBySharing(rows: set<Row>, p: Id, q: Id)
    requires Share(rows, p, q)
    ensures Linked(rows, p, q)
  {
    assert LinkedIn(rows, p, p, 0);
    assert LinkedIn(rows, p, q, 1);
  }

  lemma {:induction false} LinkedOnIn(rows: set<Row>, p: Id, q: Id, r: Id, n: nat)
    requires Linked(rows, p, q) && LinkedIn(rows, q, r, n)
    ensures Linked(rows, p, r)
    decreases n
  {
    if n > 0 {
      var m :| LinkedIn(rows, q, m, n - 1) && Share(rows, m, r);
      LinkedOnIn(rows, p, q, m, n - 1);
      var k: nat :| LinkedIn(rows, p, m, k);
      assert LinkedIn(rows, p, r, k + 1);
    }
  }

  lemma LinkedOn(rows: set<Row>, p: Id, q: Id, r: Id)
    requires Linked(rows, p, q) && Linked(rows, q, r)
    ensures Linked(rows, p, r)
  {
    var n: nat :| LinkedIn(rows, q, r, n);
    LinkedOnIn(rows, p, q, r, n);
  }

  lemma {:induction false} LinkedBackIn(rows: set<Row>, p: Id, q: Id, n: nat)
    requires LinkedIn(rows, p, q, n)
    ensures Linked(rows, q, p)
    decreases n
  {
    if n == 0 {
      assert LinkedIn(rows, q, p, 0);
    } else {
      var m :| LinkedIn(rows, p, m, n - 1) && Share(rows, m, q);
      LinkedBackIn(rows, p, m, n - 1);
      LinkedBySharing(rows, q, m);
      LinkedOn(rows, q, m, p);
    }
  }

  lemma LinkedBack(rows: set<Row>, p: Id, q: Id)
    requires Linked(rows, p, q)
    ensures Linked(rows, q, p)
  {
    var n: nat :| LinkedIn(rows, p, q, n);
    LinkedBackIn(rows, p, q, n);
  }

  ghost predicate TogetherAt(rows: set<Row>, root: map<Id, Id>, p: Id, q: Id) {
    Share(rows, p, q) && p != q ==> p in root && q in root && root[p] == root[q]
  }

  /** Every account with more than one person has all of them in one part. */
  ghost predicate Together(rows: set<Row>, root: map<Id, Id>) {
    forall p, q {:trigger TogetherAt(rows, root, p, q)} :: TogetherAt(rows, root, p, q)
  }

  /** A partition that keeps every account together keeps every chain together. */
  lemma {:induction false} ChainsStayTogether(rows: set<Row>, root: map<Id, Id>, p: Id, q: Id, n: nat)
    requires Together(rows, root) && p in root && LinkedIn(rows, p, q, n)
    ensures q in root && root[q] == root[p]
    decreases n
  {
    if n > 0 {
      var m :| LinkedIn(rows, p, m, n - 1) && Share(rows, m, q);
      ChainsStayTogether(rows, root, p, m, n - 1);
      assert TogetherAt(rows, root, m, q);
    }
  }

  // ── The forest ──────────────────────────────────────────────────────────────

  /** How parent stands for root at x; depth falls along every step. */
  ghost predicate Step(parent: map<Id, Id>, root: map<Id, Id>, depth: map<Id, nat>, x: Id)
    requires x in parent && parent.Keys == root.Keys == depth.Keys
  {
    && parent[x] in parent && root[x] in root
    && root[root[x]] == root[x] && root[parent[x]] == root[x]
    && (parent[x] == x <==> root[x] == x)
    && (parent[x] != x ==> depth[parent[x]] < depth[x])
    && depth[root[x]] <= depth[x]
  }

  ghost predicate Forested(parent: map<Id, Id>, root: map<Id, Id>, depth: map<Id, nat>) {
    && parent.Keys == root.Keys == depth.Keys
    && forall x {:trigger Step(parent, root, depth, x)} :: x in parent ==> Step(parent, root, depth, x)
  }

  lemma NewStandsAlone(parent: map<Id, Id>, root: map<Id, Id>, depth: map<Id, nat>, x: Id)
    requires Forested(parent, root, depth) && x !in parent
    ensures Forested(parent[x := x], root[x := x], depth[x := 0])
  {
    var parent', root', depth' := parent[x := x], root[x := x], depth[x := 0];
    forall y | y in parent' ensures Step(parent', root', depth', y) {
      if y != x { assert Step(parent, root, depth, y); }
    }
  }

  lemma CompressionKeeps(parent: map<Id, Id>, root: map<Id, Id>, depth: map<Id, nat>, x: Id)
    requires Forested(parent, root, depth) && x in parent && parent[x] != x
    ensures root[x] in root && Forested(parent[x := root[x]], root, depth)
  {
    assert Step(parent, root, depth, x);
    assert Step(parent, root, depth, root[x]) && Step(parent, root, depth, parent[x]);
    forall y | y in parent ensures Step(parent[x := root[x]], root, depth, y) {
      assert Step(parent, root, depth, y);
    }
  }

  function JoinedRoot(root: map<Id, Id>, r: Id, s: Id): map<Id, Id> {
    map x | x in root :: if root[x] == r then s else root[x]
  }

  function JoinedDepth(root: map<Id, Id>, depth: map<Id, nat>, r: Id, s: Id): map<Id, nat>
    requires root.Keys == depth.Keys && s in depth
  {
    map x | x in root :: if root[x] == r then depth[x] + depth[s] + 1 else depth[x]
  }

  lemma JoiningKeeps(parent: map<Id, Id>, root: map<Id, Id>, depth: map<Id, nat>, r: Id, s: Id)
    requires Forested(parent, root, depth) && r in parent && s in parent && r != s && root[r] == r && root[s] == s
    ensures Forested(parent[r := s], JoinedRoot(root, r, s), JoinedDepth(root, depth, r, s))
  {
    forall y | y in parent ensures Step(parent[r := s], JoinedRoot(root, r, s), JoinedDepth(root, depth, r, s), y) {
      assert Step(parent, root, depth, y) && Step(parent, root, depth, r) && Step(parent, root, depth, s);
      assert Step(parent, root, depth, parent[y]) && Step(parent, root, depth, root[y]);
    }
  }

  function Standing(root: map<Id, Id>, x: Id): (r: map<Id, Id>)
    ensures x in r && r.Keys == root.Keys + {x}
  {
    if x in root then root else root[x := x]
  }

  /** The representatives after p's part and q's part have become one. */
  function Joined(root: map<Id, Id>, p: Id, q: Id): map<Id, Id> {
    var was := Standing(Standing(root, p), q);
    JoinedRoot(was, was[p], was[q])
  }

  lemma JoinedToItself(root: map<Id, Id>, r: Id)
    ensures JoinedRoot(root, r, r) == root
  {
    var joined := JoinedRoot(root, r, r);
    forall x ensures x in joined <==> x in root {}
    forall x | x in root ensures joined[x] == root[x] {}
  }

  lemma JoinedKeepsParts(root: map<Id, Id>, p: Id, q: Id)
    ensures var r := Joined(root, p, q);
            && r.Keys == root.Keys + {p, q} && r[p] == r[q]
            && forall x, y :: x in root && y in root && root[x] == root[y] ==> r[x] == r[y]
  {
  }

  /** parent is the source's map. root and depth are what it stands for: each person's representative, and a measure
      that falls along every step towards it. */
  class Forest {
    var parent: map<Id, Id>
    ghost var root: map<Id, Id>
    ghost var depth: map<Id, nat>

    ghost predicate Valid() reads this {
      Forested(parent, root, depth)
    }

    constructor ()
      ensures Valid() && parent == map[]
    {
      parent, root, depth := map[], map[], map[];
    }

    /** A person met for the first time stands alone; otherwise only the map's shape changes. */
    method Find(x: Id) returns (r: Id)
      requires Valid()
      modifies this
      ensures Valid() && x in root && r == root[x] && root == if x in old(root) then old(root) else old(root)[x := x]
      ensures depth == if x in old(depth) then old(depth) else old(depth)[x := 0]
      decreases if x in parent && x in depth then depth[x] + 1 else 1
    {
      if x !in parent {
        NewStandsAlone(parent, root, depth, x);
        parent, root, depth := parent[x := x], root[x := x], depth[x := 0];
      }
      assert Step(parent, root, depth, x);
      if parent[x] != x {
        var p := Find(parent[x]);
        assert Step(parent, root, depth, x);
        CompressionKeeps(parent, root, depth, x);
        parent := parent[x := p];
      }
      r := parent[x];
    }

    /** parent[find(p)] = find(q). */
    method Join(p: Id, q: Id)
      requires Valid()
      modifies this
      ensures Valid() && root == Joined(old(root), p, q)
    {
      var r := Find(p);
      var s := Find(q);
      assert Step(parent, root, depth, p) && Step(parent, root, depth, q);
      assert Step(parent, root, depth, r);
      ghost var was := root;
      assert was == Standing(Standing(old(root), p), q);
      if r != s {
        JoiningKeeps(parent, root, depth, r, s);
        root, depth := JoinedRoot(root, r, s), JoinedDepth(root, depth, r, s);
      } else {
        JoinedToItself(root, r);
        assert parent[r := s] == parent;
      }
      assert root == JoinedRoot(was, r, s);
      parent := parent[r := s];
    }
  }

  // ── Putting accounts' people together ───────────────────────────────────────

  function Accounts(rows: set<Row>): set<Account> { set r | r in rows :: r.account }

  function PeopleOf(rows: set<Row>, a: Account): set<Id> {
    set r | r in rows && r.account == a :: r.person
  }

  lemma OneRowMore(rows: set<Row>, r: Row)
    ensures Accounts(rows + {r}) == Accounts(rows) + {r.account}
    ensures r.account !in Accounts(rows) ==> PeopleOf(rows, r.account) == {}
    ensures PeopleOf(rows + {r}, r.account) == PeopleOf(rows, r.account) + {r.person}
    ensures forall a :: a != r.account ==> PeopleOf(rows + {r}, a) == PeopleOf(rows, a)
  {
  }

  /** byAccount: every account with the set of its people; the rows come in any order. */
  method GroupByAccount(rows: set<Row>) returns (byAccount: map<Account, set<Id>>)
    ensures byAccount.Keys == Accounts(rows) && forall a :: a in byAccount ==> byAccount[a] == PeopleOf(rows, a)
  {
    byAccount := map[];
    var todo := rows;
    ghost var seen: set<Row> := {};
    while todo != {}
      invariant seen + todo == rows && byAccount.Keys == Accounts(seen)
      invariant forall a :: a in byAccount ==> byAccount[a] == PeopleOf(seen, a)
      decreases |todo|
    {
      var r :| r in todo;
      OneRowMore(seen, r);
      byAccount := byAccount[r.account := (if r.account in byAccount then byAccount[r.account] else {}) + {r.person}];
      todo, seen := todo - {r}, seen + {r};
    }
    assert seen == rows;
  }

  /** Only people a chain links are in one part. */
  ghost predicate Sound(rows: set<Row>, root: map<Id, Id>) {
    && root.Values <= root.Keys
    && forall p, q {:trigger Linked(rows, p, q)} :: p in root && q in root && root[p] == root[q] ==> Linked(rows, p, q)
  }

  lemma StandingIsSound(rows: set<Row>, root: map<Id, Id>, x: Id)
    requires Sound(rows, root)
    ensures Sound(rows, Standing(root, x))
  {
    var root' := Standing(root, x);
    assert LinkedIn(rows, x, x, 0);
    forall p, q | p in root' && q in root' && root'[p] == root'[q] ensures Linked(rows, p, q) {
      if p in root { assert root[p] in root.Values; }
      if q in root { assert root[q] in root.Values; }
    }
    assert root'.Values <= root'.Keys;
  }

  lemma JoiningIsSound(rows: set<Row>, root: map<Id, Id>, p: Id, q: Id)
    requires Sound(rows, root) && p in root && q in root && Share(rows, p, q)
    ensures Sound(rows, JoinedRoot(root, root[p], root[q]))
  {
    var root' := JoinedRoot(root, root[p], root[q]);
    assert root[q] in root.Values && root'.Values <= root.Values;
    forall x, y | x in root' && y in root' && root'[x] == root'[y] ensures Linked(rows, x, y) {
      if root[x] != root[y] {
        LinkedBySharing(rows, p, q);
        LinkedBack(rows, p, q);
        if root[x] == root[p] {
          LinkedOn(rows, x, p, q);
          LinkedOn(rows, x, q, y);
        } else {
          LinkedOn(rows, x, q, p);
          LinkedOn(rows, x, p, y);
        }
      }
    }
  }

  ghost predicate OnePart(root: map<Id, Id>, people: set<Id>) {
    people <= root.Keys && forall p, q :: p in people && q in people ==> root[p] == root[q]
  }

  /** Everyone who shares an account with somebody else. */
  ghost function Sharers(rows: set<Row>): set<Id> {
    set r | r in rows && exists q :: q != r.person && Share(rows, r.person, q) :: r.person
  }

  lemma SharersShare(rows: set<Row>, p: Id, q: Id)
    requires Share(rows, p, q) && p != q
    ensures {p, q} <= Sharers(rows)
  {
    assert Share(rows, q, p);
  }

  ghost predicate DoneFor(rows: set<Row>, root: map<Id, Id>, done: set<Account>) {
    forall a :: a in done && |PeopleOf(rows, a)| >= 2 ==> OnePart(root, PeopleOf(rows, a))
  }

  ghost predicate Kept(rows: set<Row>, root: map<Id, Id>, done: set<Account>) {
    && (forall p {:trigger Met(rows, p)} :: p in root ==> Met(rows, p))
    && Sound(rows, root) && DoneFor(rows, root, done)
  }

  ghost predicate Met(rows: set<Row>, p: Id) { p in Sharers(rows) }

  /** What one Join of two people of an account leaves. */
  lemma JoinKeeps(rows: set<Row>, root: map<Id, Id>, p: Id, q: Id, done: set<Account>)
    requires Kept(rows, root, done) && Share(rows, p, q) && p != q
    ensures Kept(rows, Joined(root, p, q), done)
  {
    var root' := Joined(root, p, q);
    assert Sound(rows, root') by {
      StandingIsSound(rows, root, p);
      StandingIsSound(rows, Standing(root, p), q);
      JoiningIsSound(rows, Standing(Standing(root, p), q), p, q);
    }
    SharersShare(rows, p, q);
    JoinedKeepsParts(root, p, q);
    forall x {:trigger Met(rows, x)} | x in root' ensures Met(rows, x) {
      assert x in root ==> Met(rows, x);
    }
    forall a | a in done && |PeopleOf(rows, a)| >= 2 ensures OnePart(root', PeopleOf(rows, a)) {
      assert OnePart(root, PeopleOf(rows, a));
    }
  }

  lemma OneMoreJoined(root: map<Id, Id>, people: set<Id>, others: set<Id>, first: Id, p: Id)
    requires first in people && others <= people - {first} && p in others
    requires others == people - {first} || OnePart(root, people - others)
    ensures OnePart(Joined(root, p, first), people - (others - {p}))
  {
    JoinedKeepsParts(root, p, first);
  }

  /** One account: everyone after the first is joined to the first, in some order. */
  method JoinPeople(rows: set<Row>, people: set<Id>, forest: Forest, ghost done: set<Account>) returns (first: Id)
    requires |people| >= 2 && forall p, q {:trigger Share(rows, p, q)} :: p in people && q in people ==>
               Share(rows, p, q)
    requires forest.Valid() && Kept(rows, forest.root, done)
    modifies forest
    ensures forest.Valid() && Kept(rows, forest.root, done) && OnePart(forest.root, people) && first in people
  {
    first :| first in people;
    var others := people - {first};
    while others != {}
      invariant forest.Valid() && Kept(rows, forest.root, done)
      invariant others <= people - {first}
      invariant others == people - {first} || OnePart(forest.root, people - others)
      decreases |others|
    {
      var p :| p in others;
      JoinKeeps(rows, forest.root, p, first, done);
      OneMoreJoined(forest.root, people, others, first, p);
      forest.Join(p, first);
      others := others - {p};
    }
    assert people - others == people;
  }

  /** For every one of these accounts that has two people or more, one of them. */
  ghost predicate LinksOf(rows: set<Row>, links: map<Account, Id>, done: set<Account>) {
    && (forall a :: a in links <==> a in done && |PeopleOf(rows, a)| >= 2)
    && forall a :: a in links ==> links[a] in PeopleOf(rows, a)
  }

  lemma OneAccountMore(rows: set<Row>, root: map<Id, Id>, links: map<Account, Id>, done: set<Account>, a: Account,
                       first: Id)
    requires Kept(rows, root, done) && LinksOf(rows, links, done)
    requires |PeopleOf(rows, a)| >= 2 && OnePart(root, PeopleOf(rows, a)) && first in PeopleOf(rows, a)
    ensures Kept(rows, root, done + {a}) && LinksOf(rows, links[a := first], done + {a})
  {
  }

  lemma NoLinkMore(rows: set<Row>, root: map<Id, Id>, links: map<Account, Id>, done: set<Account>, a: Account)
    requires Kept(rows, root, done) && LinksOf(rows, links, done) && |PeopleOf(rows, a)| < 2
    ensures Kept(rows, root, done + {a}) && LinksOf(rows, links, done + {a})
  {
  }

  /** The first loop: one Join for each person of an account after its first. */
  method JoinAccounts(rows: set<Row>, forest: Forest) returns (links: map<Account, Id>)
    requires forest.Valid() && forest.parent == map[]
    modifies forest
    ensures forest.Valid() && Kept(rows, forest.root, Accounts(rows)) && LinksOf(rows, links, Accounts(rows))
  {
    var byAccount := GroupByAccount(rows);
    var todo := byAccount.Keys;
    links := map[];
    ghost var done: set<Account> := {};
    while todo != {}
      invariant done + todo == Accounts(rows) && (todo == {} ==> done == Accounts(rows))
      invariant forest.Valid() && Kept(rows, forest.root, done) && LinksOf(rows, links, done)
      decreases |todo|
    {
      var a :| a in todo;
      var people := byAccount[a];
      OneLess(Accounts(rows), done, todo, a);
      if |people| >= 2 {
        SameAccountShare(rows, a);
        var first := JoinPeople(rows, people, forest, done);
        OneAccountMore(rows, forest.root, links, done, a, first);
        links := links[a := first];
      } else {
        NoLinkMore(rows, forest.root, links, done, a);
      }
      todo, done := todo - {a}, done + {a};
    }
  }

  lemma SameAccountShare(rows: set<Row>, a: Account)
    ensures forall p, q :: p in PeopleOf(rows, a) && q in PeopleOf(rows, a) ==> Share(rows, p, q)
  {
  }

  // ── The groups ──────────────────────────────────────────────────────────────

  /** One more of a worklist is done. */
  lemma OneLess<T>(all: set<T>, done: set<T>, todo: set<T>, x: T)
    requires done + todo == all && x in todo
    ensures done + {x} + (todo - {x}) == all && |todo - {x}| < |todo|
    ensures done !! todo ==> done + {x} !! todo - {x}
    ensures todo - {x} == {} ==> done + {x} == all
  {
  }

  function At<V>(sets: map<Id, set<V>>, r: Id): set<V> {
    if r in sets then sets[r] else {}
  }

  function Added<V>(sets: map<Id, set<V>>, r: Id, v: V): (more: map<Id, set<V>>)
    ensures forall x :: At(more, x) == At(sets, x) + if x == r then {v} else {}
    ensures more.Keys == sets.Keys + {r}
  {
    sets[r := At(sets, r) + {v}]
  }

  /** The people of seen whose representative is r. */
  function SeenOf(root: map<Id, Id>, seen: set<Id>, r: Id): set<Id> {
    set p | p in seen && p in root && root[p] == r
  }

  /** Those seen so far, each under its representative. */
  ghost predicate Under(root: map<Id, Id>, groups: map<Id, set<Id>>, seen: set<Id>) {
    forall r :: At(groups, r) == SeenOf(root, seen, r) && (r in groups ==> At(groups, r) != {})
  }

  lemma OnePersonMore(root: map<Id, Id>, groups: map<Id, set<Id>>, seen: set<Id>, p: Id)
    requires p in root && Under(root, groups, seen)
    ensures Under(root, Added(groups, root[p], p), seen + {p})
  {
    forall r ensures At(Added(groups, root[p], p), r) == SeenOf(root, seen + {p}, r) {
      assert SeenOf(root, seen + {p}, r) == SeenOf(root, seen, r) + if root[p] == r then {p} else {};
    }
  }

  /** The second loop: every person met, under its representative. */
  method Collect(forest: Forest) returns (groups: map<Id, set<Id>>)
    requires forest.Valid()
    modifies forest
    ensures forest.Valid() && forest.root == old(forest.root)
    ensures groups == Parts(forest.root)
  {
    groups := map[];
    var todo := forest.parent.Keys;
    ghost var seen: set<Id> := {};
    while todo != {}
      invariant forest.Valid() && forest.root == old(forest.root)
      invariant seen + todo == forest.root.Keys && (todo == {} ==> seen == forest.root.Keys)
      invariant Under(forest.root, groups, seen)
      decreases |todo|
    {
      var p :| p in todo;
      OneLess(forest.root.Keys, seen, todo, p);
      OnePersonMore(forest.root, groups, seen, p);
      var r := forest.Find(p);
      groups := Added(groups, r, p);
      todo, seen := todo - {p}, seen + {p};
    }
    SeenAreTheParts(forest.root, groups);
  }

  lemma SeenAreTheParts(root: map<Id, Id>, groups: map<Id, set<Id>>)
    requires Under(root, groups, root.Keys)
    ensures groups == Parts(root)
  {
    forall r | r in groups ensures r in root.Values && groups[r] == PartOf(root, r) {
      var p :| p in groups[r];
    }
    forall r | r in root.Values ensures r in groups {
      var p :| p in root && root[p] == r;
      assert p in SeenOf(root, root.Keys, r);
    }
  }

  function PartOf(root: map<Id, Id>, r: Id): set<Id> {
    set p | p in root && root[p] == r
  }

  /** Everyone a chain of shared accounts links p to. */
  ghost function ComponentOf(rows: set<Row>, p: Id): set<Id> {
    set q | q in Sharers(rows) && Linked(rows, p, q)
  }

  /** What the groups must be: of everyone who shares an account with somebody else, exactly those a chain of shared
      accounts links. No order of accounts or people comes into it. */
  ghost function Components(rows: set<Row>): set<set<Id>> {
    set p | p in Sharers(rows) :: ComponentOf(rows, p)
  }

  lemma EveryAccountTogether(rows: set<Row>, root: map<Id, Id>)
    requires DoneFor(rows, root, Accounts(rows))
    ensures Together(rows, root) && Sharers(rows) <= root.Keys
  {
    forall p, q {:trigger TogetherAt(rows, root, p, q)} ensures TogetherAt(rows, root, p, q) {
      if Share(rows, p, q) && p != q {
        var r, s :| r in rows && s in rows && r.account == s.account && r.person == p && s.person == q;
        TwoPeople(PeopleOf(rows, r.account), p, q);
        assert OnePart(root, PeopleOf(rows, r.account));
      }
    }
    forall p | p in Sharers(rows) ensures p in root {
      var q :| q != p && Share(rows, p, q);
      assert TogetherAt(rows, root, p, q);
    }
  }

  lemma TwoPeople(people: set<Id>, p: Id, q: Id)
    requires p in people && q in people && p != q
    ensures |people| >= 2
  {
    assert people == {p, q} + (people - {p, q});
  }

  lemma PartIsComponent(rows: set<Row>, root: map<Id, Id>, p: Id)
    requires Kept(rows, root, Accounts(rows)) && p in root
    ensures PartOf(root, root[p]) == ComponentOf(rows, p) && |PartOf(root, root[p])| >= 2
  {
    EveryAccountTogether(rows, root);
    forall q | q in PartOf(root, root[p]) ensures q in ComponentOf(rows, p) {
      assert Met(rows, q) && Linked(rows, p, q);
    }
    forall q | q in ComponentOf(rows, p) ensures q in PartOf(root, root[p]) {
      var n: nat :| LinkedIn(rows, p, q, n);
      ChainsStayTogether(rows, root, p, q, n);
    }
    assert Met(rows, p);
    var q :| q != p && Share(rows, p, q);
    assert TogetherAt(rows, root, p, q);
    TwoPeople(PartOf(root, root[p]), p, q);
  }

  lemma PartIsAComponent(rows: set<Row>, root: map<Id, Id>, p: Id)
    requires Kept(rows, root, Accounts(rows)) && p in root
    ensures PartOf(root, root[p]) in Components(rows) && |PartOf(root, root[p])| >= 2
  {
    assert Met(rows, p);
    PartIsComponent(rows, root, p);
  }

  lemma ComponentIsAPart(rows: set<Row>, root: map<Id, Id>, g: set<Id>) returns (p: Id)
    requires Kept(rows, root, Accounts(rows)) && g in Components(rows)
    ensures p in root && g == PartOf(root, root[p])
  {
    EveryAccountTogether(rows, root);
    p :| p in Sharers(rows) && g == ComponentOf(rows, p);
    PartIsComponent(rows, root, p);
  }

  /** The parts of the forest, by representative. */
  function Parts(root: map<Id, Id>): map<Id, set<Id>> {
    map r | r in root.Values :: PartOf(root, r)
  }

  lemma PartsAreComponents(rows: set<Row>, root: map<Id, Id>)
    requires Kept(rows, root, Accounts(rows))
    ensures Parts(root).Values == Components(rows) && forall r :: r in Parts(root) ==> |Parts(root)[r]| >= 2
  {
    forall r | r in Parts(root) ensures Parts(root)[r] in Components(rows) && |Parts(root)[r]| >= 2 {
      var p :| p in root && root[p] == r;
      PartIsAComponent(rows, root, p);
    }
    forall g | g in Components(rows) ensures g in Parts(root).Values {
      var p := ComponentIsAPart(rows, root, g);
      assert root[p] in Parts(root) && Parts(root)[root[p]] == g;
    }
  }

  // ── What linked a group ─────────────────────────────────────────────────────

  function ServicesAt(root: map<Id, Id>, links: map<Account, Id>, done: set<Account>, r: Id): set<string> {
    set a | a in done && a in links && links[a] in root && root[links[a]] == r :: a.service
  }

  /** The loop over the links. */
  method CollectVia(forest: Forest, links: map<Account, Id>) returns (via: map<Id, set<string>>)
    requires forest.Valid() && forall a :: a in links ==> links[a] in forest.root
    modifies forest
    ensures forest.Valid() && forest.root == old(forest.root)
    ensures ViaIs(forest.root, links, via, links.Keys)
  {
    via := map[];
    var todo := links.Keys;
    ghost var done: set<Account> := {};
    while todo != {}
      invariant forest.Valid() && forest.root == old(forest.root)
      invariant done + todo == links.Keys && (todo == {} ==> done == links.Keys)
      invariant ViaIs(forest.root, links, via, done)
      decreases |todo|
    {
      var a :| a in todo;
      var r := forest.Find(links[a]);
      OneLess(links.Keys, done, todo, a);
      OneServiceMore(forest.root, links, via, done, a);
      via := Added(via, r, a.service);
      todo, done := todo - {a}, done + {a};
    }
  }

  ghost predicate ViaIs(root: map<Id, Id>, links: map<Account, Id>, via: map<Id, set<string>>, done: set<Account>) {
    forall r :: At(via, r) == ServicesAt(root, links, done, r)
  }

  lemma OneServiceMore(root: map<Id, Id>, links: map<Account, Id>, via: map<Id, set<string>>, done: set<Account>,
                       a: Account)
    requires a in links && links[a] in root && ViaIs(root, links, via, done)
    ensures ViaIs(root, links, Added(via, root[links[a]], a.service), done + {a})
  {
    forall r ensures At(Added(via, root[links[a]], a.service), r) == ServicesAt(root, links, done + {a}, r) {
      assert ServicesAt(root, links, done + {a}, r) ==
             ServicesAt(root, links, done, r) + if root[links[a]] == r then {a.service} else {};
    }
  }

  /** The services of the accounts that two or more of a group share. */
  function Services(rows: set<Row>, g: set<Id>): set<string> {
    set a | a in Accounts(rows) && |PeopleOf(rows, a)| >= 2 && PeopleOf(rows, a) <= g :: a.service
  }

  lemma AccountInPart(rows: set<Row>, root: map<Id, Id>, links: map<Account, Id>, a: Account)
    requires Kept(rows, root, Accounts(rows)) && LinksOf(rows, links, Accounts(rows)) && a in links
    ensures links[a] in root && PeopleOf(rows, a) <= PartOf(root, root[links[a]])
  {
    assert OnePart(root, PeopleOf(rows, a));
  }

  lemma LinkedAreMet(rows: set<Row>, root: map<Id, Id>, links: map<Account, Id>)
    requires Kept(rows, root, Accounts(rows)) && LinksOf(rows, links, Accounts(rows))
    ensures forall a :: a in links ==> links[a] in root
  {
    forall a | a in links ensures links[a] in root { AccountInPart(rows, root, links, a); }
  }

  lemma ViaIsServices(rows: set<Row>, root: map<Id, Id>, links: map<Account, Id>, r: Id)
    requires Kept(rows, root, Accounts(rows)) && LinksOf(rows, links, Accounts(rows))
    ensures ServicesAt(root, links, links.Keys, r) == Services(rows, PartOf(root, r))
  {
    forall a | a in links
      ensures links[a] in root && (root[links[a]] == r <==> PeopleOf(rows, a) <= PartOf(root, r))
    {
      AccountInPart(rows, root, links, a);
    }
  }

  // ── Who stays (postgres/sender.go:153-175) ──────────────────────────────────

  /** Ids are compared as text in the source; here by their place in that order. */
  datatype Member = Member(person: Id, place: nat, verifiedEmail: bool, messages: nat, channels: nat)

  predicate Better(a: Member, b: Member) {
    if a.verifiedEmail != b.verifiedEmail then a.verifiedEmail
    else if a.messages != b.messages then a.messages > b.messages
    else if a.channels != b.channels then a.channels > b.channels
    else a.place < b.place
  }

  /** The one member every other one is worse than, so the choice does not depend on the order they come in. */
  method ChooseSurvivor(members: seq<Member>) returns (best: Member)
    requires members != []
    ensures best in members && forall m :: m in members && m.place != best.place ==> Better(best, m)
  {
    best := members[0];
    for i := 1 to |members|
      invariant best in members
      invariant forall k :: 0 <= k < i ==> !Better(members[k], best)
    {
      if Better(members[i], best) { best := members[i]; }
    }
  }

  /** What is known of each person: no two have one place. */
  ghost predicate Ranked(known: Id -> Member) {
    (forall p: Id :: known(p).person == p) && forall p: Id, q: Id :: known(p).place == known(q).place ==> p == q
  }

  /** The one of a group who is better than every other. */
  ghost predicate IsBest(known: Id -> Member, g: set<Id>, best: Id) {
    best in g && forall m :: m in g && m != best ==> Better(known(best), known(m))
  }

  /** The best of a group: with a verified email before without, then who has said more, then who writes from more
      chats, then the lower id. */
  lemma BestExactly(known: Id -> Member, g: set<Id>, best: Id, other: Id)
    requires IsBest(known, g, best) && other in g && other != best
    ensures var b, m := known(best), known(other);
            && (m.verifiedEmail ==> b.verifiedEmail)
            && (m.verifiedEmail == b.verifiedEmail ==> b.messages >= m.messages)
            && (m.verifiedEmail == b.verifiedEmail && b.messages == m.messages ==> b.channels >= m.channels)
            && (m.verifiedEmail == b.verifiedEmail && b.messages == m.messages && b.channels == m.channels ==>
                  b.place < m.place)
  {
  }

  ghost predicate InOrder(order: seq<Id>, people: set<Id>) {
    (forall p :: p in order <==> p in people) && forall i, j :: 0 <= i < j < |order| ==> order[i] != order[j]
  }

  method SomeOrder(people: set<Id>) returns (order: seq<Id>)
    ensures InOrder(order, people)
  {
    order := [];
    var todo := people;
    while todo != {}
      invariant todo <= people && InOrder(order, people - todo)
      decreases |todo|
    {
      var p :| p in todo;
      order := order + [p];
      todo := todo - {p};
    }
  }

  method BestOf(known: Id -> Member, g: set<Id>) returns (best: Id)
    requires Ranked(known) && g != {}
    ensures IsBest(known, g, best)
  {
    var order := SomeOrder(g);
    var members := seq(|order|, i requires 0 <= i < |order| => known(order[i]));
    assert order != [] by { var p :| p in g; assert p in order; }
    var member := ChooseSurvivor(members);
    best := member.person;
    forall m | m in g && m != best ensures Better(known(best), known(m)) {
      var i :| 0 <= i < |order| && order[i] == m;
      assert members[i] == known(m);
    }
  }

  // ── The whole search ────────────────────────────────────────────────────────

  datatype Group = Group(members: set<Id>, via: set<string>, survivor: Id)

  ghost predicate Described(known: Id -> Member, groups: map<Id, set<Id>>, via: map<Id, set<string>>, r: Id, g: Group) {
    r in groups && g.members == groups[r] && g.via == At(via, r) && IsBest(known, g.members, g.survivor)
  }

  /** The third loop: every group of two or more, with the services that link it and who of it is to stay. */
  method Describe(known: Id -> Member, groups: map<Id, set<Id>>, via: map<Id, set<string>>)
    returns (found: seq<Group>, order: seq<Id>)
    requires Ranked(known) && forall r :: r in groups ==> |groups[r]| >= 2
    ensures InOrder(order, groups.Keys) && |found| == |order|
    ensures forall i :: 0 <= i < |found| ==> Described(known, groups, via, order[i], found[i])
  {
    order := SomeOrder(groups.Keys);
    found := [];
    for i := 0 to |order|
      invariant |found| == i && forall k :: 0 <= k < i ==> Described(known, groups, via, order[k], found[k])
    {
      var r := order[i];
      assert r in groups.Keys;
      if |groups[r]| >= 2 {
        var survivor := BestOf(known, groups[r]);
        found := found + [Group(groups[r], At(via, r), survivor)];
      }
    }
  }

  ghost predicate GroupRight(rows: set<Row>, known: Id -> Member, g: Group) {
    |g.members| >= 2 && g.via == Services(rows, g.members) && IsBest(known, g.members, g.survivor)
  }

  function MembersFound(found: seq<Group>): set<set<Id>> {
    set g | g in found :: g.members
  }

  predicate Disjoint(found: seq<Group>) {
    forall i, j :: 0 <= i < j < |found| ==> found[i].members !! found[j].members
  }

  /** postgres/sender.go:63-150: the groups of people found to be one human. The empty id marks who was not met yet, so
      nobody who shares may have it. */
  method FindGroups(rows: set<Row>, known: Id -> Member) returns (found: seq<Group>)
    requires Id("") !in Sharers(rows) && Ranked(known)
    ensures MembersFound(found) == Components(rows) && Disjoint(found)
    ensures forall i :: 0 <= i < |found| ==> GroupRight(rows, known, found[i])
  {
    var forest := new Forest();
    var links := JoinAccounts(rows, forest);
    LinkedAreMet(rows, forest.root, links);
    var via := CollectVia(forest, links);
    var groups := Collect(forest);
    PartsAreComponents(rows, forest.root);
    var order;
    found, order := Describe(known, groups, via);
    FoundAll(forest.root, known, via, found, order);
    FoundRight(rows, forest.root, links, known, via, found, order);
  }

  lemma FoundAll(root: map<Id, Id>, known: Id -> Member, via: map<Id, set<string>>, found: seq<Group>, order: seq<Id>)
    requires InOrder(order, Parts(root).Keys) && |found| == |order|
    requires forall i :: 0 <= i < |found| ==> Described(known, Parts(root), via, order[i], found[i])
    ensures MembersFound(found) == Parts(root).Values && Disjoint(found)
  {
    forall g | g in Parts(root).Values ensures g in MembersFound(found) {
      var r :| r in Parts(root) && Parts(root)[r] == g;
      assert r in Parts(root).Keys;
      var i :| 0 <= i < |order| && order[i] == r;
      assert found[i] in found && Described(known, Parts(root), via, order[i], found[i]);
    }
    forall g | g in found ensures g.members in Parts(root).Values {
      var i :| 0 <= i < |found| && found[i] == g;
      assert Described(known, Parts(root), via, order[i], found[i]);
    }
    forall i, j | 0 <= i < j < |found| ensures found[i].members !! found[j].members {
      assert Described(known, Parts(root), via, order[i], found[i]) &&
             Described(known, Parts(root), via, order[j], found[j]);
    }
  }

  lemma FoundRight(rows: set<Row>, root: map<Id, Id>, links: map<Account, Id>, known: Id -> Member,
                   via: map<Id, set<string>>, found: seq<Group>, order: seq<Id>)
    requires Kept(rows, root, Accounts(rows)) && LinksOf(rows, links, Accounts(rows))
    requires ViaIs(root, links, via, links.Keys)
    requires |found| == |order| && forall r :: r in Parts(root) ==> |Parts(root)[r]| >= 2
    requires forall i :: 0 <= i < |found| ==> Described(known, Parts(root), via, order[i], found[i])
    ensures forall i :: 0 <= i < |found| ==> GroupRight(rows, known, found[i])
  {
    forall i | 0 <= i < |found| ensures GroupRight(rows, known, found[i]) {
      assert Described(known, Parts(root), via, order[i], found[i]);
      ViaIsServices(rows, root, links, order[i]);
    }
  }
}
