/**
 Loading fixtures whose references may not be there yet (env-refresh.py,
 `_load_fixtures_with_deferred_retry`). Whether a fixture deserialises is a given
 relation between it and the fixtures loaded so far.
 */
module FixtureLoader {
  import opened Sets

  type Loads = (string, set<string>) -> bool

  /** What is in the database never makes a fixture fail. */
  ghost predicate Monotone(loads: Loads) {
    forall f: string, s: set<string>, t: set<string> :: loads(f, s) && s <= t ==> loads(f, t)
  }

  // ----- What the loops compute -------------------------------------------

  /** What is loaded so far, in order, and what failed. */
  datatype Batch = Batch(loaded: seq<string>, failed: seq<string>)

  function After(failed: seq<string>, b: Batch): Batch { Batch(b.loaded, failed + b.failed) }

  /** One pass over a queue. */
  function Pass(queue: seq<string>, done: seq<string>, loads: Loads): Batch {
    if queue == [] then Batch(done, [])
    else if loads(queue[0], Elements(done)) then Pass(queue[1..], done + [queue[0]], loads)
    else After([queue[0]], Pass(queue[1..], done, loads))
  }

  lemma {:induction false} PassPartitions(queue: seq<string>, done: seq<string>, loads: Loads)
    ensures var b := Pass(queue, done, loads);
            && |b.loaded| + |b.failed| == |done| + |queue| && |b.failed| <= |queue|
            && multiset(b.loaded) + multiset(b.failed) == multiset(done) + multiset(queue)
  {
    if queue != [] {
      assert queue == [queue[0]] + queue[1..];
      assert multiset(queue) == multiset{queue[0]} + multiset(queue[1..]);
      if loads(queue[0], Elements(done)) {
        PassPartitions(queue[1..], done + [queue[0]], loads);
      } else {
        PassPartitions(queue[1..], done, loads);
        var b := Pass(queue[1..], done, loads);
        assert Pass(queue, done, loads) == Batch(b.loaded, [queue[0]] + b.failed);
        calc {
          multiset(b.loaded) + multiset([queue[0]] + b.failed);
          (multiset(b.loaded) + multiset(b.failed)) + multiset{queue[0]};
          multiset(done) + multiset(queue);
        }
      }
    }
  }

  /** Passes over the deferred fixtures until one loads nothing. */
  function Retry(deferred: seq<string>, done: seq<string>, loads: Loads): Batch
    decreases |deferred|
  {
    if deferred == [] then Batch(done, [])
    else
      var b := Pass(deferred, done, loads);
      if |b.failed| >= |deferred| then b else Retry(b.failed, b.loaded, loads)
  }

  /** The whole load; what fails in the end is skipped. */
  function Load(order: seq<string>, loads: Loads): Batch {
    var first := Pass(order, [], loads);
    Retry(first.failed, first.loaded, loads)
  }

  lemma {:induction false} LeastKey(keys: set<int>) returns (least: int)
    requires keys != {}
    ensures least in keys && forall k :: k in keys ==> least <= k
  {
    assert (forall k :: k !in keys) ==> keys == {};
    var some :| some in keys;
    least := some;
    if keys != {least} {
      var rest := keys - {least};
      assert keys == rest + {least};
      var other := LeastKey(rest);
      if other < least { least := other; }
    }
  }

  /** The fixtures by ascending priority. */
  ghost function InPriorityOrder(patched: map<int, seq<string>>, keys: set<int>): seq<string>
    requires keys <= patched.Keys
  {
    if keys == {} then []
    else
      assert exists p :: p in keys && (forall k :: k in keys ==> p <= k) by { var p := LeastKey(keys); }
      var p :| p in keys && forall k :: k in keys ==> p <= k;
      patched[p] + InPriorityOrder(patched, keys - {p})
  }

  // ----- The loader --------------------------------------------------------

  lemma {:induction false} AfterAfter(f: seq<string>, g: seq<string>, b: Batch)
    ensures After(f, After(g, b)) == After(f + g, b)
    ensures After([], b) == b
  {
    assert f + (g + b.failed) == (f + g) + b.failed;
    assert [] + b.failed == b.failed;
  }

  /** One pass, as the loops run it; `tried` counts the attempts. */
  method LoadPass(queue: seq<string>, done: seq<string>, loads: Loads, tried: nat)
    returns (loaded: seq<string>, remaining: seq<string>, attempts: nat)
    ensures Batch(loaded, remaining) == Pass(queue, done, loads)
    ensures |remaining| <= |queue| && attempts == tried + |queue|
  {
    loaded, remaining, attempts := done, [], tried;
    AfterAfter([], [], Pass(queue, done, loads));
    assert queue[0..] == queue;
    for i := 0 to |queue|
      invariant Pass(queue, done, loads) == After(remaining, Pass(queue[i..], loaded, loads))
      invariant |remaining| <= i && attempts == tried + i
    {
      assert queue[i..][1..] == queue[i + 1..];
      attempts := attempts + 1;
      if loads(queue[i], Elements(loaded)) {
        loaded := loaded + [queue[i]];
      } else {
        AfterAfter(remaining, [queue[i]], Pass(queue[i + 1..], loaded, loads));
        remaining := remaining + [queue[i]];
      }
    }
    assert remaining + [] == remaining;
  }

  lemma {:induction false} FirstComesFirst(patched: map<int, seq<string>>, keys: set<int>, p: int)
    requires keys <= patched.Keys && p in keys && forall k :: k in keys ==> p <= k
    ensures InPriorityOrder(patched, keys) == patched[p] + InPriorityOrder(patched, keys - {p})
  {}

  lemma {:induction false} PassConcat(a: seq<string>, b: seq<string>, done: seq<string>, loads: Loads)
    ensures var x := Pass(a, done, loads);
            Pass(a + b, done, loads) == After(x.failed, Pass(b, x.loaded, loads))
  {
    if a == [] {
      assert a + b == b;
      AfterAfter([], [], Pass(b, done, loads));
    } else {
      assert (a + b)[1..] == a[1..] + b;
      if loads(a[0], Elements(done)) {
        PassConcat(a[1..], b, done + [a[0]], loads);
      } else {
        PassConcat(a[1..], b, done, loads);
        var x := Pass(a[1..], done, loads);
        AfterAfter([a[0]], x.failed, Pass(b, x.loaded, loads));
      }
    }
  }

  /** The first pass, priority by priority. */
  method LoadByPriority(patched: map<int, seq<string>>, loads: Loads)
    returns (loaded: seq<string>, deferred: seq<string>, attempts: nat)
    ensures Batch(loaded, deferred) == Pass(InPriorityOrder(patched, patched.Keys), [], loads)
    ensures attempts == |InPriorityOrder(patched, patched.Keys)|
  {
    ghost var whole := Pass(InPriorityOrder(patched, patched.Keys), [], loads);
    var priorities := patched.Keys;
    loaded, deferred, attempts := [], [], 0;
    AfterAfter([], [], whole);
    while priorities != {}
      invariant priorities <= patched.Keys
      invariant attempts + |InPriorityOrder(patched, priorities)| == |InPriorityOrder(patched, patched.Keys)|
      invariant whole == After(deferred, Pass(InPriorityOrder(patched, priorities), loaded, loads))
      decreases |priorities|
    {
      ghost var least := LeastKey(priorities);
      var priority :| priority in priorities && forall k :: k in priorities ==> priority <= k;
      ghost var rest := InPriorityOrder(patched, priorities - {priority});
      FirstComesFirst(patched, priorities, priority);
      PassConcat(patched[priority], rest, loaded, loads);
      var more, remaining;
      more, remaining, attempts := LoadPass(patched[priority], loaded, loads, attempts);
      AfterAfter(deferred, remaining, Pass(rest, more, loads));
      loaded, deferred, priorities := more, deferred + remaining, priorities - {priority};
    }
    assert deferred + [] == deferred;
  }

  /** The worst case: each pass over what is deferred loads one more. */
  function Triangle(n: nat): nat { n * (n + 1) / 2 }

  lemma {:induction false} TriangleStep(m: nat, n: nat)
    requires m < n
    ensures n + Triangle(m) <= Triangle(n)
    decreases n - m
  {
    assert n * (n + 1) == (n - 1) * n + 2 * n;
    if m + 1 < n { TriangleStep(m, n - 1); }
  }

  /** `_load_fixtures_with_deferred_retry` */
  method LoadFixturesWithDeferredRetry(patched: map<int, seq<string>>, loads: Loads)
    returns (loaded: seq<string>, skipped: seq<string>, attempts: nat)
    ensures Batch(loaded, skipped) == Load(InPriorityOrder(patched, patched.Keys), loads)
    ensures var n := |InPriorityOrder(patched, patched.Keys)|; n <= attempts <= n + Triangle(n)
  {
    ghost var n := |InPriorityOrder(patched, patched.Keys)|;
    var deferred;
    loaded, deferred, attempts := LoadByPriority(patched, loads);
    PassPartitions(InPriorityOrder(patched, patched.Keys), [], loads);
    if |deferred| < n { TriangleStep(|deferred|, n); }
    while deferred != []
      invariant Load(InPriorityOrder(patched, patched.Keys), loads) == Retry(deferred, loaded, loads)
      invariant n <= attempts && attempts + Triangle(|deferred|) <= n + Triangle(n)
      decreases |deferred|
    {
      var remaining;
      ghost var before := attempts;
      loaded, remaining, attempts := LoadPass(deferred, loaded, loads, attempts);
      if |remaining| >= |deferred| {
        TriangleStep(0, |deferred|);
        return loaded, remaining, attempts;
      }
      TriangleStep(|remaining|, |deferred|);
      deferred := remaining;
    }
    skipped := [];
  }

  // ----- What it means -----------------------------------------------------

  /** Every loaded fixture found what it needed among those loaded before it. */
  ghost predicate Derivation(loaded: seq<string>, loads: Loads) {
    forall k :: 0 <= k < |loaded| ==> loads(loaded[k], Elements(loaded[..k]))
  }

  /** Every occurrence is loaded once or skipped; the loaded are a derivation; the skipped all fail at the end. */
  ghost predicate Settled(order: seq<string>, end: Batch, loads: Loads) {
    && multiset(end.loaded) + multiset(end.failed) == multiset(order)
    && Derivation(end.loaded, loads)
    && forall f :: f in end.failed ==> !loads(f, Elements(end.loaded))
  }

  lemma {:induction false} PassDerives(queue: seq<string>, done: seq<string>, loads: Loads)
    requires Derivation(done, loads)
    ensures var b := Pass(queue, done, loads);
            && Derivation(b.loaded, loads)
            && (|b.failed| >= |queue| ==> b.loaded == done && forall f :: f in b.failed ==> !loads(f, Elements(done)))
  {
    if queue != [] {
      if loads(queue[0], Elements(done)) {
        var next := done + [queue[0]];
        assert next[..|done|] == done;
        assert forall k :: 0 <= k < |done| ==> next[..k] == done[..k];
        PassDerives(queue[1..], next, loads);
        PassPartitions(queue[1..], next, loads);
      } else {
        PassDerives(queue[1..], done, loads);
      }
    }
  }

  lemma {:induction false} RetrySettles(order: seq<string>, deferred: seq<string>, done: seq<string>, loads: Loads)
    requires Derivation(done, loads) && multiset(done) + multiset(deferred) == multiset(order)
    ensures Settled(order, Retry(deferred, done, loads), loads)
    decreases |deferred|
  {
    if deferred != [] {
      PassDerives(deferred, done, loads);
      PassPartitions(deferred, done, loads);
      var b := Pass(deferred, done, loads);
      if |b.failed| < |deferred| { RetrySettles(order, b.failed, b.loaded, loads); }
    }
  }

  /** Each fixture succeeds at most once, and those skipped all fail in the final state. */
  lemma {:induction false} LoadSettles(order: seq<string>, loads: Loads)
    ensures Settled(order, Load(order, loads), loads)
  {
    PassDerives(order, [], loads);
    PassPartitions(order, [], loads);
    var b := Pass(order, [], loads);
    RetrySettles(order, b.failed, b.loaded, loads);
  }

  /** No fixture outside `s` could still load once those of `s` are in. */
  ghost predicate Closed(all: set<string>, s: set<string>, loads: Loads) {
    forall f :: f in all && loads(f, s) ==> f in s
  }

  lemma {:induction false} DerivedWithin(loaded: seq<string>, n: nat, all: set<string>, s: set<string>, loads: Loads)
    requires Monotone(loads) && Derivation(loaded, loads) && Elements(loaded) <= all
    requires Closed(all, s, loads) && n <= |loaded|
    ensures Elements(loaded[..n]) <= s
  {
    if n > 0 {
      DerivedWithin(loaded, n - 1, all, s, loads);
      assert loaded[n - 1] in Elements(loaded);
      assert loads(loaded[n - 1], s);
      assert loaded[..n] == loaded[..n - 1] + [loaded[n - 1]];
    }
  }

  lemma {:induction false} InMultiset(order: seq<string>, loaded: seq<string>, skipped: seq<string>)
    requires multiset(loaded) + multiset(skipped) == multiset(order)
    ensures forall f :: f in order <==> f in loaded || f in skipped
  {
    forall f ensures f in order <==> f in loaded || f in skipped {
      assert f in order <==> f in multiset(order);
      assert f in loaded <==> f in multiset(loaded);
      assert f in skipped <==> f in multiset(skipped);
    }
  }

  /** With a monotone relation the loaded set is the least closed one. */
  lemma {:induction false} LoadsLeastClosedSet(order: seq<string>, loads: Loads)
    requires Monotone(loads)
    ensures var loaded := Elements(Load(order, loads).loaded);
            && loaded <= Elements(order)
            && Closed(Elements(order), loaded, loads)
            && forall s :: Closed(Elements(order), s, loads) ==> loaded <= s
  {
    LoadSettles(order, loads);
    var Batch(loaded, skipped) := Load(order, loads);
    InMultiset(order, loaded, skipped);
    forall s | Closed(Elements(order), s, loads) ensures Elements(loaded) <= s {
      DerivedWithin(loaded, |loaded|, Elements(order), s, loads);
      assert loaded[..|loaded|] == loaded;
    }
  }

  /** The result does not depend on priorities or on the order of the lists. */
  lemma {:induction false} OrderDoesNotMatter(order: seq<string>, other: seq<string>, loads: Loads)
    requires Monotone(loads) && Elements(order) == Elements(other)
    ensures Elements(Load(order, loads).loaded) == Elements(Load(other, loads).loaded)
  {
    LoadsLeastClosedSet(order, loads);
    LoadsLeastClosedSet(other, loads);
  }
}
