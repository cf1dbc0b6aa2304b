/** Expanding the tree of scopes from the root, level by level, with a cache of children. */
module Scopes {
  import opened Wrappers
  import opened Seqs
  import opened Texts

  predicate HasPrefix(s: string, prefix: string) { prefix <= s }

  /** The filter of the source: which names are children of a scope. */
  predicate IsChild(parent: string, name: string) {
    if parent == "" then |name| > 0 && ' ' !in name
    else HasPrefix(name, parent + " ") && ' ' !in name[|parent| + 1..]
  }

  function Filter(names: seq<string>, parent: string): (r: seq<string>)
    ensures forall n | n in r :: n in names && IsChild(parent, n)
  {
    if names == [] then []
    else
      var last := names[|names| - 1];
      Filter(names[..|names| - 1], parent) + (if IsChild(parent, last) then [last] else [])
  }

  /** Children come in the order of the response. */
  lemma {:induction false} FilterKeepsOrder(names: seq<string>, parent: string, i: nat, j: nat)
      returns (k: nat, l: nat)
    requires i < j < |Filter(names, parent)|
    ensures k < l < |names| && names[k] == Filter(names, parent)[i] && names[l] == Filter(names, parent)[j]
  {
    var n := |names| - 1;
    var front := Filter(names[..n], parent);
    if j < |front| {
      k, l := FilterKeepsOrder(names[..n], parent, i, j);
    } else {
      assert front[i] in front;
      k :| 0 <= k < n && names[..n][k] == front[i];
      l := n;
    }
  }

  function LastSpace(name: string): (i: int)
    ensures -1 <= i < |name|
    ensures i >= 0 ==> name[i] == ' '
    ensures forall j | i < j < |name| :: name[j] != ' '
  {
    if name == "" then -1
    else if name[|name| - 1] == ' ' then |name| - 1
    else LastSpace(name[..|name| - 1])
  }

  /** The identifier of the parent's full name: all components but the last. */
  function Parent(name: string): (p: string)
    requires name != ""
    ensures |p| < |name|
  {
    if LastSpace(name) >= 0 then name[..LastSpace(name)] else ""
  }

  /** Dropping the last component of the full name is what `Parent` does. */
  lemma ParentIsFullNameWithoutLast(name: string)
    requires name != ""
    ensures var full := Split(name, ' ');
            Parent(name) == if |full| == 1 then "" else Join(full[..|full| - 1], " ")
  {
    var i := LastSpace(name);
    if i < 0 {
      SplitFree(name, ' ');
    } else {
      var last := name[i + 1..];
      assert name == name[..i] + [' '] + last;
      SplitAtSeparator(name[..i], last, ' ');
      SplitFree(last, ' ');
      JoinSplit(name[..i], ' ');
      assert Split(name, ' ')[..|Split(name[..i], ' ')|] == Split(name[..i], ' ');
    }
  }

  /** A space with none after it is the last one. */
  lemma LastSpaceUnique(name: string, k: nat)
    requires k < |name| && name[k] == ' ' && ' ' !in name[k + 1..]
    ensures LastSpace(name) == k
  {
    assert forall j | k < j < |name| :: name[j] == name[k + 1..][j - k - 1];
  }

  lemma ChildHasParent(parent: string, name: string)
    requires IsChild(parent, name)
    ensures name != "" && parent == Parent(name) && (parent == "" ==> name[0] != ' ')
  {
    if parent == "" {
      assert name[0] in name;
    } else {
      assert (parent + " ")[|parent|] == ' ';
      LastSpaceUnique(name, |parent|);
      assert parent == (parent + " ")[..|parent|] == name[..|parent|];
    }
  }

  lemma ParentHasChild(name: string)
    requires name != "" && (Parent(name) == "" ==> name[0] != ' ')
    ensures IsChild(Parent(name), name)
  {
    var i := LastSpace(name);
    if i > 0 {
      assert name[..i] + " " == name[..i + 1];
    }
  }

  /** A name passes the filter of exactly one scope, its parent, unless it starts with a space and hangs off the
      root. */
  lemma ChildOfParentOnly(parent: string, name: string)
    ensures IsChild(parent, name) <==> name != "" && parent == Parent(name) && (parent == "" ==> name[0] != ' ')
  {
    if IsChild(parent, name) {
      ChildHasParent(parent, name);
    } else if name != "" && (Parent(name) == "" ==> name[0] != ' ') {
      ParentHasChild(name);
    }
  }

  // ---------------------------------------------------------------- the cache

  /** The server's scopes, and what it answers when asked for those in a scope: at least the children. */
  datatype Design = Design(scopes: seq<string>, answer: string -> seq<string>) {
    ghost predicate Valid() {
      && Distinct(scopes)
      && forall id :: Filter(answer(id), id) == Filter(scopes, id)
    }
  }

  /** The cache, and the list_scopes commands by what became of them. */
  datatype Browsing = Browsing(
    cache: map<string, seq<string>>,
    sent: multiset<string>,
    waiting: multiset<string>,   // sent and not settled
    rejected: multiset<string>   // settled without a response
  )

  const Unbrowsed: Browsing := Browsing(map[], multiset{}, multiset{}, multiset{})

  /** A call is cut at its await: `Ask` is all of it for a cached scope. */
  datatype Action = Ask(scope: string) | Reply(scope: string) | Reject(scope: string)

  ghost predicate Enabled(s: Browsing, a: Action) { a.Ask? || a.scope in s.waiting }

  function Next(design: Design, s: Browsing, a: Action): Browsing
    requires Enabled(s, a)
  {
    match a
    case Ask(id) => if id in s.cache then s else s.(sent := s.sent + multiset{id}, waiting := s.waiting + multiset{id})
    case Reply(id) => s.(waiting := s.waiting - multiset{id}, cache := s.cache[id := Filter(design.answer(id), id)])
    case Reject(id) => s.(waiting := s.waiting - multiset{id}, rejected := s.rejected + multiset{id})
  }

  /** What is cached is exact, and it is cached exactly what some response came for. */
  ghost predicate CacheInv(design: Design, s: Browsing) {
    && (forall id | id in s.cache :: s.cache[id] == Filter(design.scopes, id))
    && (forall id :: s.waiting[id] + s.rejected[id] <= s.sent[id])
    && (forall id :: id in s.cache <==> s.waiting[id] + s.rejected[id] < s.sent[id])
  }

  lemma CacheStep(design: Design, s: Browsing, a: Action)
    requires design.Valid() && CacheInv(design, s) && Enabled(s, a)
    ensures CacheInv(design, Next(design, s, a))
  {
  }

  /** Only a call for a scope that is not cached sends a command; and then none was sent for it, or a call for it is
      under way or was rejected. */
  lemma SentBy(design: Design, s: Browsing, a: Action, id: string)
    requires CacheInv(design, s) && Enabled(s, a)
    ensures Next(design, s, a).sent[id] == s.sent[id] + if a == Ask(id) && id !in s.cache then 1 else 0
    ensures id !in s.cache ==> (s.sent[id] == 0 <==> !(id in s.waiting || id in s.rejected))
    ensures id in s.cache ==> s.sent[id] >= 1
  {
  }

  /** The actions can happen one after the other. */
  ghost predicate Legal(design: Design, actions: seq<Action>)
    decreases |actions|, 0
  {
    actions == [] ||
    var front, last := actions[..|actions| - 1], actions[|actions| - 1];
    Legal(design, front) && Enabled(Run(design, front), last)
  }

  ghost function Run(design: Design, actions: seq<Action>): Browsing
    requires Legal(design, actions)
    decreases |actions|, 1
  {
    if actions == [] then Unbrowsed else Next(design, Run(design, actions[..|actions| - 1]), actions[|actions| - 1])
  }

  /** However calls for the same and other scopes overlap, and whichever are rejected, the cache stays exact. */
  lemma {:induction false} CacheIsExact(design: Design, actions: seq<Action>)
    requires design.Valid() && Legal(design, actions)
    ensures CacheInv(design, Run(design, actions))
    decreases |actions|
  {
    if actions != [] {
      CacheIsExact(design, actions[..|actions| - 1]);
      CacheStep(design, Run(design, actions[..|actions| - 1]), actions[|actions| - 1]);
    }
  }

  /** A scope is asked for before any response came for it, although a call for it is under way or was rejected. */
  ghost predicate Overlaps(design: Design, actions: seq<Action>, id: string)
    requires Legal(design, actions)
    decreases |actions|
  {
    actions != [] &&
    var front, last := actions[..|actions| - 1], actions[|actions| - 1];
    var s := Run(design, front);
    Overlaps(design, front, id) || (last == Ask(id) && id !in s.cache && (id in s.waiting || id in s.rejected))
  }

  /** In every run a scope is asked of the server exactly when some call is for it. */
  lemma {:induction false} AskedIff(design: Design, actions: seq<Action>, id: string)
    requires design.Valid() && Legal(design, actions)
    ensures Run(design, actions).sent[id] >= 1 <==> Ask(id) in actions
    decreases |actions|
  {
    if actions != [] {
      var front, last := actions[..|actions| - 1], actions[|actions| - 1];
      AskedIff(design, front, id);
      CacheIsExact(design, front);
      SentBy(design, Run(design, front), last, id);
      InFrontOrLast(actions, Ask(id));
    }
  }

  /** In every run a scope is asked of the server more than once exactly when calls for it overlap, or follow a rejected
      one, before a response came. */
  lemma {:induction false} AskedOnceIff(design: Design, actions: seq<Action>, id: string)
    requires design.Valid() && Legal(design, actions)
    ensures Run(design, actions).sent[id] <= 1 <==> !Overlaps(design, actions, id)
    decreases |actions|
  {
    if actions != [] {
      var front, last := actions[..|actions| - 1], actions[|actions| - 1];
      AskedOnceIff(design, front, id);
      CacheIsExact(design, front);
      SentBy(design, Run(design, front), last, id);
    }
  }

  /** Two calls for one scope before any response: both ask the server. */
  lemma OverlapAsksTwice(design: Design, id: string)
    ensures var calls := [Ask(id), Ask(id)]; Legal(design, calls) && Run(design, calls).sent[id] == 2
  {
    var one, two := [Ask(id)], [Ask(id), Ask(id)];
    assert one[..0] == [] && two[..1] == one;
    assert Run(design, one) == Next(design, Unbrowsed, Ask(id));
    assert Run(design, two) == Next(design, Run(design, one), Ask(id));
  }

  class ScopeBrowser {
    const design: Design
    var scopeCache: map<string, seq<string>>
    ghost var sent: multiset<string>
    ghost var waiting: multiset<string>
    ghost var rejected: multiset<string>

    ghost function Model(): Browsing
      reads this
    {
      Browsing(scopeCache, sent, waiting, rejected)
    }

    ghost predicate Valid()
      reads this
    {
      design.Valid() && CacheInv(design, Model())
    }

    constructor (design: Design)
      requires design.Valid()
      ensures Valid() && this.design == design && Model() == Unbrowsed
    {
      this.design, scopeCache := design, map[];
      sent, waiting, rejected := multiset{}, multiset{}, multiset{};
    }

    /** A call up to its await: a cached scope is answered at once, otherwise the command is sent. */
    method ListScopesInScope(scopeIdentifier: string) returns (cached: Option<seq<string>>)
      requires Valid()
      modifies this
      ensures Valid() && Model() == Next(design, old(Model()), Ask(scopeIdentifier))
      ensures cached == if scopeIdentifier in scopeCache then Some(Filter(design.scopes, scopeIdentifier)) else None
    {
      if scopeIdentifier in scopeCache {
        return Some(scopeCache[scopeIdentifier]);
      }
      CacheStep(design, Model(), Ask(scopeIdentifier));
      sent := sent + multiset{scopeIdentifier};
      waiting := waiting + multiset{scopeIdentifier};
      return None;
    }

    /** A call from its await on, whatever other calls did meanwhile. */
    method Resume(scopeIdentifier: string, response: seq<string>) returns (names: seq<string>)
      requires Valid() && scopeIdentifier in waiting && response == design.answer(scopeIdentifier)
      modifies this
      ensures Valid() && Model() == Next(design, old(Model()), Reply(scopeIdentifier))
      ensures names == Filter(design.scopes, scopeIdentifier)
    {
      CacheStep(design, Model(), Reply(scopeIdentifier));
      names := Filter(response, scopeIdentifier);
      scopeCache := scopeCache[scopeIdentifier := names];
      waiting := waiting - multiset{scopeIdentifier};
    }
  }

  // ---------------------------------------------------------------- repeated expansion

  ghost function MaxLength(names: seq<string>): (m: nat)
    ensures forall n | n in names :: |n| <= m
  {
    if names == [] then 0
    else
      var m := MaxLength(names[..|names| - 1]);
      if |names[|names| - 1]| > m then |names[|names| - 1]| else m
  }

  /** Names listed one after the other, each followed by the expansion of its children. */
  ghost function Expand(scopes: seq<string>, names: seq<string>, level: nat): seq<string>
    requires forall n | n in names :: n in scopes && |n| >= level
    decreases MaxLength(scopes) + 1 - level, |names|
  {
    if names == [] then []
    else
      var last := names[|names| - 1];
      assert last in names;
      forall c | c in Filter(scopes, last) ensures |c| > |last| { ChildOfParentOnly(last, c); }
      Expand(scopes, names[..|names| - 1], level) + [last] + Expand(scopes, Filter(scopes, last), level + 1)
  }

  /** n is in the expansion of p: going from parent to parent through known scopes leads from n to p. */
  ghost predicate Below(scopes: seq<string>, n: string, p: string)
    decreases |n|
  {
    n != "" && n in scopes && IsChild(Parent(n), n) && (Parent(n) == p || Below(scopes, Parent(n), p))
  }

  ghost predicate AtOrBelow(scopes: seq<string>, n: string, p: string) { n == p || Below(scopes, n, p) }

  lemma {:induction false} BelowIsLonger(scopes: seq<string>, n: string, p: string)
    requires Below(scopes, n, p)
    ensures |n| > |p|
    decreases |n|
  {
    if Parent(n) != p { BelowIsLonger(scopes, Parent(n), p); }
  }

  /** Two different children of one scope have nothing below them in common. */
  lemma {:induction false} SiblingsShareNothing(scopes: seq<string>, n: string, p: string, x: string, y: string)
    requires IsChild(p, x) && IsChild(p, y) && AtOrBelow(scopes, n, x) && AtOrBelow(scopes, n, y)
    ensures x == y
    decreases |n|
  {
    ChildOfParentOnly(p, x);
    ChildOfParentOnly(p, y);
    if n == x && n != y {
      if p != y { BelowIsLonger(scopes, p, y); }
    } else if n != x && n == y {
      if p != x { BelowIsLonger(scopes, p, x); }
    } else if n != x {
      SiblingsShareNothing(scopes, Parent(n), p, x, y);
    }
  }

  lemma {:induction false} FilterIsExact(names: seq<string>, parent: string)
    requires Distinct(names)
    ensures Distinct(Filter(names, parent))
    ensures forall n :: n in Filter(names, parent) <==> n in names && IsChild(parent, n)
  {
    if names != [] { FilterIsExact(names[..|names| - 1], parent); }
  }

  /** What is below a scope is at or below one of its children. */
  lemma {:induction false} BelowThroughChild(scopes: seq<string>, n: string, p: string)
    ensures Below(scopes, n, p) <==> exists c :: c in scopes && IsChild(p, c) && AtOrBelow(scopes, n, c)
    decreases |n|
  {
    if n != "" {
      ChildOfParentOnly(Parent(n), n);
      BelowThroughChild(scopes, Parent(n), p);
      if Below(scopes, n, p) {
        if Parent(n) == p {
          assert AtOrBelow(scopes, n, n);
        } else {
          var c :| c in scopes && IsChild(p, c) && AtOrBelow(scopes, Parent(n), c);
          assert AtOrBelow(scopes, n, c);
        }
      }
      forall c | c in scopes && IsChild(p, c) && AtOrBelow(scopes, n, c)
        ensures Below(scopes, n, p)
      {
        ChildOfParentOnly(p, c);
        if n != c { assert AtOrBelow(scopes, Parent(n), c); }
      }
    } else {
      forall c | c in scopes && IsChild(p, c) ensures c != "" { ChildOfParentOnly(p, c); }
    }
  }

  ghost predicate Covers(scopes: seq<string>, names: seq<string>, n: string) {
    exists c :: c in names && AtOrBelow(scopes, n, c)
  }

  /** The expansion of children of one scope lists what is at or below them, each name once. */
  lemma {:induction false} ExpandListsOnce(scopes: seq<string>, p: string, names: seq<string>, level: nat, n: string)
    requires Distinct(scopes) && Distinct(names)
    requires forall c | c in names :: c in scopes && IsChild(p, c) && |c| >= level
    ensures multiset(Expand(scopes, names, level))[n] == if Covers(scopes, names, n) then 1 else 0
    decreases MaxLength(scopes) + 1 - level, |names|
  {
    if names != [] {
      var front, last := names[..|names| - 1], names[|names| - 1];
      ExpandUnfolds(scopes, names, level, n);
      assert multiset(Expand(scopes, front, level))[n] == if Covers(scopes, front, n) then 1 else 0 by {
        FrontInherits(scopes, p, names, level);
        ExpandListsOnce(scopes, p, front, level, n);
      }
      assert multiset(Expand(scopes, Filter(scopes, last), level + 1))[n] ==
             if Below(scopes, n, last) then 1 else 0 by {
        FilterIsExact(scopes, last);
        ExpandListsOnce(scopes, last, Filter(scopes, last), level + 1, n);
        CoversChildren(scopes, last, n);
      }
      if Below(scopes, n, last) { BelowIsLonger(scopes, n, last); }
      CoversSplit(scopes, p, names, n);
    }
  }

  lemma FrontInherits(scopes: seq<string>, p: string, names: seq<string>, level: nat)
    requires names != [] && Distinct(names) && forall c | c in names :: c in scopes && IsChild(p, c) && |c| >= level
    ensures var front := names[..|names| - 1];
            Distinct(front) && forall c | c in front :: c in scopes && IsChild(p, c) && |c| >= level
  {
    forall c | c in names[..|names| - 1] ensures c in names {}
  }

  lemma ExpandUnfolds(scopes: seq<string>, names: seq<string>, level: nat, n: string)
    requires names != [] && forall c | c in names :: c in scopes && |c| >= level
    ensures var front, last := names[..|names| - 1], names[|names| - 1];
            && (forall c | c in front + Filter(scopes, last) :: c in scopes)
            && (forall c | c in front :: |c| >= level) && (forall c | c in Filter(scopes, last) :: |c| >= level + 1)
            && multiset(Expand(scopes, names, level))[n] == multiset(Expand(scopes, front, level))[n] +
                 (if n == last then 1 else 0) + multiset(Expand(scopes, Filter(scopes, last), level + 1))[n]
  {
    var last := names[|names| - 1];
    assert last in names;
    forall c | c in Filter(scopes, last) ensures |c| > |last| { ChildOfParentOnly(last, c); }
  }

  lemma CoversChildren(scopes: seq<string>, p: string, n: string)
    requires Distinct(scopes)
    ensures Covers(scopes, Filter(scopes, p), n) <==> Below(scopes, n, p)
  {
    FilterIsExact(scopes, p);
    BelowThroughChild(scopes, n, p);
  }

  lemma CoversSplit(scopes: seq<string>, p: string, names: seq<string>, n: string)
    requires names != [] && Distinct(names) && forall c | c in names :: IsChild(p, c)
    ensures var front, last := names[..|names| - 1], names[|names| - 1];
            && (Covers(scopes, names, n) <==> Covers(scopes, front, n) || AtOrBelow(scopes, n, last))
            && !(Covers(scopes, front, n) && AtOrBelow(scopes, n, last))
  {
    var front, last := names[..|names| - 1], names[|names| - 1];
    assert last in names && forall c :: c in names <==> c in front || c == last;
    if AtOrBelow(scopes, n, last) {
      forall c | c in front
        ensures !AtOrBelow(scopes, n, c)
      {
        var i :| 0 <= i < |front| && front[i] == c;
        assert names[i] != names[|front|];
        if AtOrBelow(scopes, n, c) { SiblingsShareNothing(scopes, n, p, c, last); }
      }
    }
  }

  ghost predicate ParentClosed(scopes: seq<string>) {
    forall n | n in scopes && n != "" :: Parent(n) in scopes
  }

  lemma {:induction false} BelowRoot(scopes: seq<string>, n: string)
    requires ParentClosed(scopes) && n in scopes && n != ""
    ensures Below(scopes, n, "") <==> n[0] != ' '
    decreases |n|
  {
    ChildOfParentOnly(Parent(n), n);
    if Parent(n) != "" { BelowRoot(scopes, Parent(n)); }
  }

  /** Expanding the tree from the root lists every scope but the root exactly once, directly among the children of its
      parent, exactly when its name does not start with a space; and it lists nothing else. */
  lemma ExpansionPartition(scopes: seq<string>, n: string)
    requires Distinct(scopes) && ParentClosed(scopes)
    ensures (forall c | c in Filter(scopes, "") :: c in scopes && |c| >= 1)
    ensures multiset(Expand(scopes, Filter(scopes, ""), 1))[n] == if n in scopes && n != "" && n[0] != ' ' then 1 else 0
    ensures forall p :: n in Filter(scopes, p) ==> n != "" && p == Parent(n)
  {
    FilterIsExact(scopes, "");
    forall c | c in Filter(scopes, "") ensures |c| >= 1 { ChildOfParentOnly("", c); }
    ExpandListsOnce(scopes, "", Filter(scopes, ""), 1, n);
    CoversChildren(scopes, "", n);
    if n in scopes && n != "" { BelowRoot(scopes, n); }
    forall p | n in Filter(scopes, p) ensures n != "" && p == Parent(n) { ChildOfParentOnly(p, n); }
  }
}
