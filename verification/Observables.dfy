/** One observable: its value, and its callbacks, which an update filters while they can change the list. */
module Observables {
  import opened Wrappers
  import opened Seqs
  import opened Layout

  /** Identity comparison: a range is delivered as a new iterable each time, so it never compares equal. */
  predicate Differs(current: Option<Value>, newValue: Value) {
    newValue.Many? || current != Some(newValue)
  }

  /** The index of the first occurrence. */
  function IndexOf(callbacks: seq<nat>, callback: nat): (i: int)
    ensures callback in callbacks ==> 0 <= i < |callbacks| && callbacks[i] == callback && callback !in callbacks[..i]
    ensures callback !in callbacks ==> i == -1
  {
    IndexFrom(callbacks, callback, 0)
  }

  function IndexFrom(callbacks: seq<nat>, callback: nat, from: nat): (i: int)
    requires from <= |callbacks| && callback !in callbacks[..from]
    ensures callback in callbacks ==> 0 <= i < |callbacks| && callbacks[i] == callback && callback !in callbacks[..i]
    ensures callback !in callbacks ==> i == -1
    decreases |callbacks| - from
  {
    if from == |callbacks| then -1
    else if callbacks[from] == callback then from
    else IndexFrom(callbacks, callback, from + 1)
  }

  /** Removing one element at an index, where -1 counts from the end; nothing is removed from an empty list. */
  function Spliced(callbacks: seq<nat>, index: int): (rest: seq<nat>)
    requires -1 <= index < |callbacks|
    ensures |rest| == if callbacks == [] then 0 else |callbacks| - 1
    ensures forall i | 0 <= i < |rest| :: rest[i] == callbacks[if index == -1 || i < index then i else i + 1]
  {
    if callbacks == [] then []
    else
      seq<nat>(|callbacks| - 1, i requires 0 <= i < |callbacks| - 1 =>
        callbacks[if index == -1 || i < index then i else i + 1])
  }

  /** What a callback can do to the list of callbacks while it runs. */
  datatype ListOp = Registering(callback: nat) | Disposing(callback: nat)

  /** What a callback does when it is called, and whether it wants to be called again. */
  datatype Reaction = Reaction(ops: seq<ListOp>, retain: bool)

  function Changed(callbacks: seq<nat>, op: ListOp): seq<nat> {
    match op
    case Registering(c) => callbacks + [c]
    case Disposing(c) => Spliced(callbacks, IndexOf(callbacks, c))
  }

  /** The list after the first n changes. */
  function After(callbacks: seq<nat>, ops: seq<ListOp>, n: nat): seq<nat>
    requires n <= |ops|
  {
    if n == 0 then callbacks else Changed(After(callbacks, ops, n - 1), ops[n - 1])
  }

  /** How far a filter has come: the list as it is by now, the callbacks called, and those of them to be kept. */
  datatype Pass = Pass(live: seq<nat>, called: seq<nat>, kept: seq<nat>)

  /** A filter runs over the indexes the list had at first, skipping those it has no longer, while the callbacks it
      calls change the list. `reactions(c, k)` is what callback c does when it is called at index k. */
  function Filtered(callbacks: seq<nat>, reactions: (nat, nat) -> Reaction, n: nat): Pass {
    if n == 0 then Pass(callbacks, [], []) else Visited(Filtered(callbacks, reactions, n - 1), reactions, n - 1)
  }

  function Visited(p: Pass, reactions: (nat, nat) -> Reaction, k: nat): Pass {
    if k >= |p.live| then p
    else
      var c := p.live[k];
      var r := reactions(c, k);
      Pass(After(p.live, r.ops, |r.ops|), p.called + [c], if r.retain then p.kept + [c] else p.kept)
  }

  class Observable {
    var callbacks: seq<nat>
    var value: Option<Value>

    constructor ()
      ensures callbacks == [] && value == None
    {
      callbacks, value := [], None;
    }

    method Register(callback: nat)
      modifies this`callbacks
      ensures callbacks == old(callbacks) + [callback]
    {
      callbacks := callbacks + [callback];
    }

    /** The disposer handed out by `Register`. */
    method Dispose(callback: nat)
      modifies this`callbacks
      ensures callbacks == Spliced(old(callbacks), IndexOf(old(callbacks), callback))
    {
      callbacks := Spliced(callbacks, IndexOf(callbacks, callback));
    }

    /** One callback runs. */
    method React(ops: seq<ListOp>)
      modifies this`callbacks
      ensures callbacks == After(old(callbacks), ops, |ops|)
    {
      for i := 0 to |ops|
        invariant callbacks == After(old(callbacks), ops, i)
      {
        match ops[i]
        case Registering(c) => Register(c);
        case Disposing(c) => Dispose(c);
      }
    }

    /** The new value is stored first; the filtered list replaces the live one only when every callback has run. */
    method Update(newValue: Value, reactions: (nat, nat) -> Reaction) returns (called: seq<nat>)
      modifies this
      ensures value == Some(newValue)
      ensures newValue.Many? || old(value) != Some(newValue) ==>
                var p := Filtered(old(callbacks), reactions, |old(callbacks)|);
                called == p.called && callbacks == p.kept
      ensures newValue.One? && old(value) == Some(newValue) ==> called == [] && callbacks == old(callbacks)
      ensures newValue.Many? || old(value) != Some(newValue) ==>
                && callbacks == Retained(called, reactions, |called|)
                && (NoDisposer(reactions) ==> called == old(callbacks))
    {
      called := [];
      if Differs(value, newValue) {
        value := Some(newValue);
        var kept: seq<nat> := [];
        for k := 0 to |callbacks|
          modifies this`callbacks
          invariant Filtered(old(callbacks), reactions, k) == Pass(callbacks, called, kept)
        {
          if k < |callbacks| {
            var callback := callbacks[k];
            var reaction := reactions(callback, k);
            React(reaction.ops);
            called := called + [callback];
            if reaction.retain {
              kept := kept + [callback];
            }
          }
        }
        callbacks := kept;
        UpdateKeepsTheCalled(old(callbacks), reactions, |old(callbacks)|);
        if NoDisposer(reactions) { UpdateCallsEach(old(callbacks), reactions); }
      }
    }
  }

  // ---------------------------------------------------------------- disposers used outside updates

  lemma RemoveAt(s: seq<nat>, i: nat)
    requires i < |s|
    ensures multiset(Spliced(s, i)) == multiset(s) - multiset{s[i]}
  {
    assert s == s[..i] + ([s[i]] + s[i + 1..]);
    assert Spliced(s, i) == s[..i] + s[i + 1..];
  }

  /** Outside an update a disposer removes its own callback, and only that, exactly when the callback is still
      registered (or none is). */
  lemma DisposeRemovesOwnIff(callbacks: seq<nat>, callback: nat)
    ensures multiset(Spliced(callbacks, IndexOf(callbacks, callback))) == multiset(callbacks) - multiset{callback}
            <==> callback in callbacks || callbacks == []
  {
    if callback in callbacks {
      RemoveAt(callbacks, IndexOf(callbacks, callback));
    } else if callbacks != [] {
      assert callback !in multiset(callbacks);
      assert |multiset(callbacks) - multiset{callback}| == |callbacks|;
      assert |multiset(Spliced(callbacks, -1))| == |callbacks| - 1;
    }
  }

  // ---------------------------------------------------------------- keeping and dropping

  /** The first n callbacks without those dropped. */
  function KeptFirst(callbacks: seq<nat>, dropped: set<nat>, n: nat): seq<nat>
    requires n <= |callbacks|
  {
    if n == 0 then []
    else if callbacks[n - 1] in dropped then KeptFirst(callbacks, dropped, n - 1)
    else KeptFirst(callbacks, dropped, n - 1) + [callbacks[n - 1]]
  }

  function Kept(callbacks: seq<nat>, dropped: set<nat>): seq<nat> { KeptFirst(callbacks, dropped, |callbacks|) }

  lemma {:induction false} KeptFrame(a: seq<nat>, b: seq<nat>, dropped: set<nat>, n: nat)
    requires n <= |a| && n <= |b| && forall i | 0 <= i < n :: a[i] == b[i]
    ensures KeptFirst(a, dropped, n) == KeptFirst(b, dropped, n)
  {
    if n > 0 { KeptFrame(a, b, dropped, n - 1); }
  }

  lemma KeptAppend(front: seq<nat>, c: nat, dropped: set<nat>)
    ensures Kept(front + [c], dropped) == if c in dropped then Kept(front, dropped) else Kept(front, dropped) + [c]
  {
    KeptFrame(front, front + [c], dropped, |front|);
  }

  lemma {:induction false} KeptIn(callbacks: seq<nat>, dropped: set<nat>, n: nat, c: nat)
    requires n <= |callbacks|
    ensures c in KeptFirst(callbacks, dropped, n) <==> c !in dropped && exists i | 0 <= i < n :: callbacks[i] == c
  {
    if n > 0 { KeptIn(callbacks, dropped, n - 1, c); }
  }

  lemma {:induction false} KeptTwice(callbacks: seq<nat>, first: set<nat>, second: set<nat>, n: nat)
    requires n <= |callbacks|
    ensures Kept(KeptFirst(callbacks, first, n), second) == KeptFirst(callbacks, first + second, n)
  {
    if n > 0 {
      KeptTwice(callbacks, first, second, n - 1);
      if callbacks[n - 1] !in first { KeptAppend(KeptFirst(callbacks, first, n - 1), callbacks[n - 1], second); }
    }
  }

  // ---------------------------------------------------------------- updates

  /** Those called that wanted to be kept, in order. */
  function Retained(called: seq<nat>, reactions: (nat, nat) -> Reaction, n: nat): seq<nat>
    requires n <= |called|
  {
    if n == 0 then []
    else if reactions(called[n - 1], n - 1).retain then Retained(called, reactions, n - 1) + [called[n - 1]]
    else Retained(called, reactions, n - 1)
  }

  lemma {:induction false} RetainedFrame(a: seq<nat>, b: seq<nat>, reactions: (nat, nat) -> Reaction, n: nat)
    requires n <= |a| && n <= |b| && forall i | 0 <= i < n :: a[i] == b[i]
    ensures Retained(a, reactions, n) == Retained(b, reactions, n)
  {
    if n > 0 { RetainedFrame(a, b, reactions, n - 1); }
  }

  /** Those kept are those called that wanted to be, and each index has been called as long as the list reached that
      far. */
  ghost predicate KeepsTheCalled(p: Pass, reactions: (nat, nat) -> Reaction, n: nat) {
    && p.kept == Retained(p.called, reactions, |p.called|)
    && |p.called| <= n && (|p.called| < n ==> |p.called| >= |p.live|)
  }

  lemma VisitKeepsTheCalled(p: Pass, reactions: (nat, nat) -> Reaction, k: nat)
    requires KeepsTheCalled(p, reactions, k)
    ensures KeepsTheCalled(Visited(p, reactions, k), reactions, k + 1)
  {
    if k < |p.live| { RetainedFrame(p.called, p.called + [p.live[k]], reactions, k); }
  }

  /** Whatever the callbacks do: the list left by an update has exactly those that were called and wanted to be kept. */
  lemma {:induction false} UpdateKeepsTheCalled(callbacks: seq<nat>, reactions: (nat, nat) -> Reaction, n: nat)
    ensures KeepsTheCalled(Filtered(callbacks, reactions, n), reactions, n)
  {
    if n > 0 {
      UpdateKeepsTheCalled(callbacks, reactions, n - 1);
      VisitKeepsTheCalled(Filtered(callbacks, reactions, n - 1), reactions, n - 1);
    }
  }

  /** Each of the first n changes, if it disposes, hits a callback that is still to come after index k. */
  predicate Ahead(live: seq<nat>, ops: seq<ListOp>, k: nat, n: nat)
    requires n <= |ops|
  {
    n == 0 ||
    (&& Ahead(live, ops, k, n - 1)
     && (ops[n - 1].Disposing? ==> IndexOf(After(live, ops, n - 1), ops[n - 1].callback) > k))
  }

  lemma {:induction false} AheadKeepsFront(live: seq<nat>, ops: seq<ListOp>, k: nat, n: nat)
    requires n <= |ops| && Ahead(live, ops, k, n) && k < |live|
    ensures k < |After(live, ops, n)| && forall i | 0 <= i <= k :: After(live, ops, n)[i] == live[i]
  {
    if n > 0 { AheadKeepsFront(live, ops, k, n - 1); }
  }

  /** In the first n steps of the filter every disposer used is that of a callback still to come. */
  ghost predicate AllAhead(callbacks: seq<nat>, reactions: (nat, nat) -> Reaction, n: nat) {
    n == 0 ||
    (AllAhead(callbacks, reactions, n - 1) && VisitsAhead(Filtered(callbacks, reactions, n - 1).live, reactions, n - 1))
  }

  ghost predicate VisitsAhead(live: seq<nat>, reactions: (nat, nat) -> Reaction, k: nat) {
    k < |live| ==> var ops := reactions(live[k], k).ops; Ahead(live, ops, k, |ops|)
  }

  /** Those called are the first n of the list as it is by now, or all of it. */
  ghost predicate CalledInOrder(p: Pass, n: nat) {
    && |p.called| == (if n < |p.live| then n else |p.live|)
    && forall i | 0 <= i < |p.called| :: p.called[i] == p.live[i]
  }

  lemma VisitAhead(p: Pass, reactions: (nat, nat) -> Reaction, k: nat)
    requires CalledInOrder(p, k) && VisitsAhead(p.live, reactions, k)
    ensures CalledInOrder(Visited(p, reactions, k), k + 1)
  {
    if k < |p.live| {
      var ops := reactions(p.live[k], k).ops;
      AheadKeepsFront(p.live, ops, k, |ops|);
    }
  }

  lemma {:induction false} CalledSoFar(callbacks: seq<nat>, reactions: (nat, nat) -> Reaction, n: nat)
    requires AllAhead(callbacks, reactions, n)
    ensures CalledInOrder(Filtered(callbacks, reactions, n), n)
  {
    if n > 0 {
      CalledSoFar(callbacks, reactions, n - 1);
      VisitAhead(Filtered(callbacks, reactions, n - 1), reactions, n - 1);
    }
  }

  /** As long as every disposer used during an update is that of a callback still to come: the callbacks called are, in
      order, those that were in the list at the end, up to as many as there were at first; so nobody is skipped. */
  lemma DisposersAheadAreHonoured(callbacks: seq<nat>, reactions: (nat, nat) -> Reaction)
    requires AllAhead(callbacks, reactions, |callbacks|)
    ensures var p := Filtered(callbacks, reactions, |callbacks|);
            CalledInOrder(p, |callbacks|) && p.kept == Retained(p.called, reactions, |p.called|)
  {
    CalledSoFar(callbacks, reactions, |callbacks|);
    UpdateKeepsTheCalled(callbacks, reactions, |callbacks|);
  }

  ghost predicate OnlyDisposers(reactions: (nat, nat) -> Reaction) {
    forall c, k, i | 0 <= i < |reactions(c, k).ops| :: reactions(c, k).ops[i].Disposing?
  }

  /** The callback has not been called, and from index k on it is not in the list. */
  ghost predicate Passed(p: Pass, k: nat, c: nat) {
    c !in p.called && forall i | k <= i < |p.live| :: p.live[i] != c
  }

  lemma {:induction false} DisposingOnlyMovesDown(live: seq<nat>, ops: seq<ListOp>, k: nat, c: nat, n: nat)
    requires n <= |ops| && forall i | 0 <= i < |ops| :: ops[i].Disposing?
    requires forall i | k <= i < |live| :: live[i] != c
    ensures forall i | k <= i < |After(live, ops, n)| :: After(live, ops, n)[i] != c
  {
    if n > 0 { DisposingOnlyMovesDown(live, ops, k, c, n - 1); }
  }

  lemma VisitPassed(p: Pass, reactions: (nat, nat) -> Reaction, k: nat, c: nat)
    requires OnlyDisposers(reactions) && Passed(p, k, c)
    ensures Passed(Visited(p, reactions, k), k + 1, c)
  {
    if k < |p.live| {
      var ops := reactions(p.live[k], k).ops;
      DisposingOnlyMovesDown(p.live, ops, k, c, |ops|);
    }
  }

  /** However many disposers are used during an update: once one has moved a callback that was not called yet before the
      index the filter goes on with, that callback is neither called nor kept. */
  lemma {:induction false} PassedIsLost(callbacks: seq<nat>, reactions: (nat, nat) -> Reaction, k: nat, n: nat, c: nat)
    requires OnlyDisposers(reactions) && k <= n && Passed(Filtered(callbacks, reactions, k), k, c)
    ensures Passed(Filtered(callbacks, reactions, n), n, c) && c !in Filtered(callbacks, reactions, n).kept
  {
    UpdateKeepsTheCalled(callbacks, reactions, n);
    if k < n {
      PassedIsLost(callbacks, reactions, k, n - 1, c);
      VisitPassed(Filtered(callbacks, reactions, n - 1), reactions, n - 1, c);
    }
    var called := Filtered(callbacks, reactions, n).called;
    RetainedIn(called, reactions, |called|, c);
  }

  lemma {:induction false} RetainedIn(called: seq<nat>, reactions: (nat, nat) -> Reaction, n: nat, c: nat)
    requires n <= |called| && c !in called
    ensures c !in Retained(called, reactions, n)
  {
    if n > 0 { RetainedIn(called, reactions, n - 1, c); }
  }

  ghost predicate NoDisposer(reactions: (nat, nat) -> Reaction) {
    forall c, k, i | 0 <= i < |reactions(c, k).ops| :: reactions(c, k).ops[i].Registering?
  }

  lemma {:induction false} RegisteringAdds(callbacks: seq<nat>, ops: seq<ListOp>, n: nat)
    requires n <= |ops| && forall i | 0 <= i < |ops| :: ops[i].Registering?
    ensures callbacks <= After(callbacks, ops, n)
  {
    if n > 0 { RegisteringAdds(callbacks, ops, n - 1); }
  }

  /** The first n callbacks were called, each once, in order. */
  ghost predicate CallsEach(callbacks: seq<nat>, p: Pass, n: nat) {
    callbacks <= p.live && |p.called| == n <= |callbacks| && forall i | 0 <= i < n :: p.called[i] == callbacks[i]
  }

  lemma VisitCallsEach(callbacks: seq<nat>, p: Pass, reactions: (nat, nat) -> Reaction, k: nat)
    requires NoDisposer(reactions) && k < |callbacks| && CallsEach(callbacks, p, k)
    ensures CallsEach(callbacks, Visited(p, reactions, k), k + 1)
  {
    var ops := reactions(p.live[k], k).ops;
    RegisteringAdds(p.live, ops, |ops|);
  }

  lemma {:induction false} FilterCallsEach(callbacks: seq<nat>, reactions: (nat, nat) -> Reaction, n: nat)
    requires NoDisposer(reactions) && n <= |callbacks|
    ensures CallsEach(callbacks, Filtered(callbacks, reactions, n), n)
  {
    if n > 0 {
      FilterCallsEach(callbacks, reactions, n - 1);
      VisitCallsEach(callbacks, Filtered(callbacks, reactions, n - 1), reactions, n - 1);
    }
  }

  /** Without disposers used during the update every callback is called once, in order, and those that refuse are
      dropped; whatever is registered during the update is lost. */
  lemma UpdateCallsEach(callbacks: seq<nat>, reactions: (nat, nat) -> Reaction)
    requires NoDisposer(reactions)
    ensures var p := Filtered(callbacks, reactions, |callbacks|);
            p.called == callbacks && p.kept == Retained(callbacks, reactions, |callbacks|)
  {
    FilterCallsEach(callbacks, reactions, |callbacks|);
    UpdateKeepsTheCalled(callbacks, reactions, |callbacks|);
  }

  // ---------------------------------------------------------------- one disposer used during an update

  /** Only the callback at index k does anything to the list: it uses the disposer of callback c. */
  ghost predicate OneDisposal(callbacks: seq<nat>, k: nat, c: nat, dropped: set<nat>,
                              reactions: (nat, nat) -> Reaction) {
    k < |callbacks| &&
    forall x, i :: reactions(x, i) == Reaction(if x == callbacks[k] then [Disposing(c)] else [], x !in dropped)
  }

  /** What the user of the disposer expects: every other callback is called, in order, and stays unless it refuses; the
      callback disposed is gone. */
  ghost predicate AsExpected(callbacks: seq<nat>, c: nat, dropped: set<nat>, p: Pass) {
    Kept(p.called, {c}) == Kept(callbacks, {c}) && p.kept == Kept(Kept(callbacks, {c}), dropped)
  }

  /** The list after the disposal. */
  function Shortened(callbacks: seq<nat>, c: nat): (rest: seq<nat>) { Spliced(callbacks, IndexOf(callbacks, c)) }

  /** The callbacks called in n steps: up to index k those of the original list, then those of the shortened one. */
  function CalledIn(callbacks: seq<nat>, k: nat, c: nat, n: nat): (called: seq<nat>)
    requires k < |callbacks| && n <= |callbacks|
    ensures |called| == if n > k + 1 && n == |callbacks| then n - 1 else n
    ensures forall i | 0 <= i < |called| :: called[i] == if i <= k then callbacks[i] else Shortened(callbacks, c)[i]
  {
    var m := if n > k + 1 && n == |callbacks| then n - 1 else n;
    seq<nat>(m, i requires 0 <= i < m => if i <= k then callbacks[i] else Shortened(callbacks, c)[i])
  }

  /** The filter after n steps of an update with one disposal. */
  function PassOf(callbacks: seq<nat>, k: nat, c: nat, dropped: set<nat>, n: nat): Pass
    requires k < |callbacks| && n <= |callbacks|
  {
    var called := CalledIn(callbacks, k, c, n);
    Pass(if n <= k then callbacks else Shortened(callbacks, c), called, Kept(called, dropped))
  }

  /** After the disposal no index yields the callback at k again. */
  lemma DisposesOnce(callbacks: seq<nat>, k: nat, c: nat, i: nat)
    requires Distinct(callbacks) && k < i < |callbacks| - 1
    ensures Shortened(callbacks, c)[i] != callbacks[k]
  {
  }

  /** A step that calls one more. */
  lemma VisitCalls(callbacks: seq<nat>, k: nat, c: nat, dropped: set<nat>, reactions: (nat, nat) -> Reaction, n: nat)
    requires OneDisposal(callbacks, k, c, dropped, reactions) && n < |callbacks|
    requires n < |PassOf(callbacks, k, c, dropped, n).live|
    ensures var p, q := PassOf(callbacks, k, c, dropped, n), PassOf(callbacks, k, c, dropped, n + 1);
            && q.called == p.called + [p.live[n]]
            && q.kept == if p.live[n] in dropped then p.kept else p.kept + [p.live[n]]
  {
    var p := PassOf(callbacks, k, c, dropped, n);
    assert CalledIn(callbacks, k, c, n + 1) == p.called + [p.live[n]];
    KeptAppend(p.called, p.live[n], dropped);
  }

  lemma VisitWithDisposal(callbacks: seq<nat>, k: nat, c: nat, dropped: set<nat>, reactions: (nat, nat) -> Reaction,
                          n: nat)
    requires Distinct(callbacks) && OneDisposal(callbacks, k, c, dropped, reactions) && n < |callbacks|
    ensures Visited(PassOf(callbacks, k, c, dropped, n), reactions, n) == PassOf(callbacks, k, c, dropped, n + 1)
  {
    var p := PassOf(callbacks, k, c, dropped, n);
    if n < |p.live| {
      VisitCalls(callbacks, k, c, dropped, reactions, n);
      if n > k { DisposesOnce(callbacks, k, c, n); }
      AfterOne(callbacks, c);
    } else {
      assert CalledIn(callbacks, k, c, n + 1) == p.called;
    }
  }

  lemma AfterOne(callbacks: seq<nat>, c: nat)
    ensures After(callbacks, [Disposing(c)], 1) == Shortened(callbacks, c)
  {
    assert After(callbacks, [Disposing(c)], 0) == callbacks;
  }

  /** A sequence of what a filter has come to, step by step. */
  ghost predicate IsTrace(callbacks: seq<nat>, reactions: (nat, nat) -> Reaction, trace: seq<Pass>) {
    && trace != [] && trace[0] == Pass(callbacks, [], [])
    && forall k | 0 <= k < |trace| - 1 :: Visited(trace[k], reactions, k) == trace[k + 1]
  }

  lemma {:induction false} FilterFollows(callbacks: seq<nat>, reactions: (nat, nat) -> Reaction, trace: seq<Pass>,
                                         n: nat)
    requires IsTrace(callbacks, reactions, trace) && n < |trace|
    ensures Filtered(callbacks, reactions, n) == trace[n]
  {
    if n > 0 { FilterFollows(callbacks, reactions, trace, n - 1); }
  }

  function Passes(callbacks: seq<nat>, k: nat, c: nat, dropped: set<nat>): (trace: seq<Pass>)
    requires k < |callbacks|
    ensures |trace| == |callbacks| + 1
    ensures forall n | 0 <= n < |trace| :: trace[n] == PassOf(callbacks, k, c, dropped, n)
  {
    seq<Pass>(|callbacks| + 1, n requires 0 <= n <= |callbacks| => PassOf(callbacks, k, c, dropped, n))
  }

  lemma PassesStart(callbacks: seq<nat>, k: nat, c: nat, dropped: set<nat>)
    requires k < |callbacks|
    ensures Passes(callbacks, k, c, dropped)[0] == Pass(callbacks, [], [])
  {
    assert CalledIn(callbacks, k, c, 0) == [];
  }

  lemma PassesAreTrace(callbacks: seq<nat>, k: nat, c: nat, dropped: set<nat>, reactions: (nat, nat) -> Reaction)
    requires Distinct(callbacks) && OneDisposal(callbacks, k, c, dropped, reactions)
    ensures IsTrace(callbacks, reactions, Passes(callbacks, k, c, dropped))
  {
    PassesStart(callbacks, k, c, dropped);
    var trace := Passes(callbacks, k, c, dropped);
    forall n | 0 <= n < |trace| - 1 ensures Visited(trace[n], reactions, n) == trace[n + 1] {
      VisitWithDisposal(callbacks, k, c, dropped, reactions, n);
    }
  }

  lemma FilteredWithDisposal(callbacks: seq<nat>, k: nat, c: nat, dropped: set<nat>, reactions: (nat, nat) -> Reaction)
    requires Distinct(callbacks) && OneDisposal(callbacks, k, c, dropped, reactions)
    ensures Filtered(callbacks, reactions, |callbacks|) == PassOf(callbacks, k, c, dropped, |callbacks|)
  {
    PassesAreTrace(callbacks, k, c, dropped, reactions);
    FilterFollows(callbacks, reactions, Passes(callbacks, k, c, dropped), |callbacks|);
  }

  /** The first callback skipped: the one that moved into the place of the disposer's caller, or the last one. */
  function Lost(callbacks: seq<nat>, k: nat, c: nat): nat
    requires k < |callbacks| - 1
  {
    if c in callbacks then callbacks[k + 1] else callbacks[|callbacks| - 1]
  }

  lemma LostIsNotCalled(callbacks: seq<nat>, k: nat, c: nat)
    requires Distinct(callbacks) && k < |callbacks| - 1 && IndexOf(callbacks, c) <= k
    ensures Lost(callbacks, k, c) in callbacks && Lost(callbacks, k, c) != c
    ensures Lost(callbacks, k, c) !in CalledIn(callbacks, k, c, |callbacks|)
  {
  }

  /** A disposal of a callback still to come leaves the others to be called. */
  lemma OthersAreCalled(callbacks: seq<nat>, k: nat, c: nat)
    requires k < |callbacks| && IndexOf(callbacks, c) > k
    ensures CalledIn(callbacks, k, c, |callbacks|) == Shortened(callbacks, c)
  {
  }

  lemma {:induction false} KeptWithoutOne(callbacks: seq<nat>, j: nat, n: nat)
    requires j < |callbacks| && n <= |callbacks|
    requires forall i | 0 <= i < |callbacks| && i != j :: callbacks[i] != callbacks[j]
    ensures var m := if n <= j then n else n - 1;
            |KeptFirst(callbacks, {callbacks[j]}, n)| == m &&
            forall i | 0 <= i < m :: KeptFirst(callbacks, {callbacks[j]}, n)[i] == callbacks[if i < j then i else i + 1]
  {
    if n > 0 { KeptWithoutOne(callbacks, j, n - 1); }
  }

  lemma NoneDropped(callbacks: seq<nat>, c: nat, n: nat)
    requires c !in callbacks && n <= |callbacks|
    ensures KeptFirst(callbacks, {c}, n) == callbacks[..n]
  {
    if n > 0 { NoneDropped(callbacks, c, n - 1); }
  }

  lemma UnexpectedIfLost(callbacks: seq<nat>, k: nat, c: nat, dropped: set<nat>, p: Pass)
    requires Distinct(callbacks) && k < |callbacks| - 1 && IndexOf(callbacks, c) <= k
    requires p == PassOf(callbacks, k, c, dropped, |callbacks|)
    ensures !AsExpected(callbacks, c, dropped, p)
  {
    LostIsNotCalled(callbacks, k, c);
    KeptIn(p.called, {c}, |p.called|, Lost(callbacks, k, c));
    KeptIn(callbacks, {c}, |callbacks|, Lost(callbacks, k, c));
  }

  lemma ExpectedIfAhead(callbacks: seq<nat>, k: nat, c: nat, dropped: set<nat>, p: Pass)
    requires Distinct(callbacks) && k < |callbacks| && IndexOf(callbacks, c) > k
    requires p == PassOf(callbacks, k, c, dropped, |callbacks|)
    ensures AsExpected(callbacks, c, dropped, p)
  {
    OthersAreCalled(callbacks, k, c);
    KeptWithoutOne(callbacks, IndexOf(callbacks, c), |callbacks|);
    assert p.called == Kept(callbacks, {c});
    KeptTwice(callbacks, {c}, {c}, |callbacks|);
    assert {c} + {c} == {c};
  }

  lemma LastExpectsRefusal(callbacks: seq<nat>, c: nat, dropped: set<nat>, p: Pass)
    requires p.called == callbacks && p.kept == Kept(callbacks, dropped)
    ensures AsExpected(callbacks, c, dropped, p) <==> c !in callbacks || c in dropped
  {
    if c !in callbacks {
      NoneDropped(callbacks, c, |callbacks|);
      assert callbacks[..|callbacks|] == callbacks;
    } else {
      KeptTwice(callbacks, {c}, dropped, |callbacks|);
      if c in dropped {
        assert {c} + dropped == dropped;
      } else {
        KeptIn(callbacks, dropped, |callbacks|, c);
        KeptIn(callbacks, {c} + dropped, |callbacks|, c);
      }
    }
  }

  /** One disposer used during an update has the effect expected exactly when its callback is still to come, or is
      that of the last one and refuses to be kept; one that was dropped already, exactly when the last one uses it. */
  lemma DisposeInUpdateIff(callbacks: seq<nat>, k: nat, c: nat, dropped: set<nat>, reactions: (nat, nat) -> Reaction)
    requires Distinct(callbacks) && OneDisposal(callbacks, k, c, dropped, reactions)
    ensures AsExpected(callbacks, c, dropped, Filtered(callbacks, reactions, |callbacks|)) <==>
            IndexOf(callbacks, c) > k || (k == |callbacks| - 1 && (c in callbacks ==> c in dropped))
  {
    var p := Filtered(callbacks, reactions, |callbacks|);
    FilteredWithDisposal(callbacks, k, c, dropped, reactions);
    if IndexOf(callbacks, c) > k {
      ExpectedIfAhead(callbacks, k, c, dropped, p);
    } else if k < |callbacks| - 1 {
      UnexpectedIfLost(callbacks, k, c, dropped, p);
    } else {
      assert p.called == callbacks;
      LastExpectsRefusal(callbacks, c, dropped, p);
    }
  }

  /** Of three callbacks the first uses its own disposer and asks for nothing: the second is neither called nor kept,
      and the first stays. */
  lemma SelfDisposalLosesNext(a: nat, b: nat, c: nat, reactions: (nat, nat) -> Reaction)
    requires a != b && b != c && c != a && OneDisposal([a, b, c], 0, a, {}, reactions)
    ensures var p := Filtered([a, b, c], reactions, 3); p.called == [a, c] == p.kept
  {
    var all := [a, b, c];
    FilteredWithDisposal(all, 0, a, {}, reactions);
    assert IndexOf(all, a) == 0 && Shortened(all, a)[1] == c;
    assert CalledIn(all, 0, a, 3) == [a, c];
    KeptIsAll([a, c], 2);
  }

  lemma KeptIsAll(callbacks: seq<nat>, n: nat)
    requires n <= |callbacks|
    ensures KeptFirst(callbacks, {}, n) == callbacks[..n]
  {
    if n > 0 { KeptIsAll(callbacks, n - 1); }
  }
}
