/** The worst-case-stack analysis of tools/WCS.py, over the resolved call graph. */
module WorstCaseStack {

  /** The identity of a function's dictionary. */
  type Fxn = nat

  datatype Wcs = Unbounded | Bounded(bytes: nat)

  datatype Node = Node(localStack: nat, hasPtrCall: bool, rCalls: seq<Fxn>, unresolved: set<string>)

  type Graph = map<Fxn, Node>

  /** Resolved calls lead to functions of the graph. */
  ghost predicate Closed(g: Graph) {
    forall f, c {:trigger c in g[f].rCalls} :: f in g && c in g[f].rCalls ==> c in g
  }

  // ------------------------------------------------------------------------------------------
  // What the analysis is to find
  // ------------------------------------------------------------------------------------------

  /** A chain of calls. */
  ghost predicate Path(g: Graph, p: seq<Fxn>) {
    && p != []
    && (forall k :: 0 <= k < |p| ==> p[k] in g)
    && (forall k, l {:trigger p[k], p[l]} :: 0 <= k && l == k + 1 && l < |p| ==> p[l] in g[p[k]].rCalls)
  }

  ghost predicate PathFrom(g: Graph, f: Fxn, p: seq<Fxn>) {
    Path(g, p) && p[0] == f
  }

  ghost predicate Repeats(p: seq<Fxn>) {
    exists i, j :: 0 <= i < j < |p| && p[i] == p[j]
  }

  /** A call through a pointer, or a call cycle, can be reached from `f`. */
  ghost predicate Endless(g: Graph, f: Fxn) {
    exists p :: PathFrom(g, f, p) && (g[p[|p| - 1]].hasPtrCall || Repeats(p))
  }

  ghost function Weight(g: Graph, p: seq<Fxn>): nat
    requires forall k :: 0 <= k < |p| ==> p[k] in g
  {
    if p == [] then 0 else g[p[0]].localStack + Weight(g, p[1..])
  }

  /** `n` is the largest stack use of a chain of calls from `f`, and one needs that much. */
  ghost predicate IsWorst(g: Graph, f: Fxn, n: nat) {
    && (exists p :: PathFrom(g, f, p) && Weight(g, p) == n)
    && (forall p :: PathFrom(g, f, p) ==> Weight(g, p) <= n)
  }

  ghost predicate Correct(g: Graph, f: Fxn, w: Wcs) {
    match w
    case Unbounded => Endless(g, f)
    case Bounded(n) => !Endless(g, f) && IsWorst(g, f, n)
  }

  /** `u` are the unresolved calls of all functions that can be reached from `f`. */
  ghost predicate Collects(g: Graph, f: Fxn, u: set<string>) {
    forall x :: x in u <==> exists p :: PathFrom(g, f, p) && x in g[p[|p| - 1]].unresolved
  }

  /** There is only one correct answer: no visiting order can give another. */
  lemma CorrectIsUnique(g: Graph, f: Fxn, w: Wcs, w': Wcs)
    requires Correct(g, f, w) && Correct(g, f, w')
    ensures w == w'
  {}

  // ------------------------------------------------------------------------------------------
  // One call more
  // ------------------------------------------------------------------------------------------

  lemma Extend(g: Graph, f: Fxn, p: seq<Fxn>)
    requires f in g && Path(g, p) && p[0] in g[f].rCalls
    ensures PathFrom(g, f, [f] + p) && Weight(g, [f] + p) == g[f].localStack + Weight(g, p)
    ensures ([f] + p)[|[f] + p| - 1] == p[|p| - 1]
  {
    var q := [f] + p;
    assert q[1..] == p;
    forall k, l | 0 <= k && l == k + 1 && l < |q| ensures q[l] in g[q[k]].rCalls {
      if k > 0 { assert p[l - 1] in g[p[k - 1]].rCalls; }
    }
  }

  lemma Single(g: Graph, f: Fxn)
    requires f in g
    ensures PathFrom(g, f, [f]) && Weight(g, [f]) == g[f].localStack
  {}

  lemma Rest(g: Graph, p: seq<Fxn>)
    requires Path(g, p) && |p| > 1
    ensures PathFrom(g, p[1], p[1..]) && p[1] in g[p[0]].rCalls
      && Weight(g, p) == g[p[0]].localStack + Weight(g, p[1..])
  {
    var q := p[1..];
    forall k, l | 0 <= k && l == k + 1 && l < |q| ensures q[l] in g[q[k]].rCalls {
      assert p[l + 1] in g[p[k + 1]].rCalls;
    }
  }

  lemma EndlessPtr(g: Graph, f: Fxn)
    requires f in g && g[f].hasPtrCall
    ensures Endless(g, f)
  {
    Single(g, f);
    assert PathFrom(g, f, [f]) && g[[f][|[f]| - 1]].hasPtrCall;
  }

  /** Endlessness is inherited by callers. */
  lemma EndlessCallee(g: Graph, f: Fxn, c: Fxn)
    requires f in g && c in g[f].rCalls && Endless(g, c)
    ensures Endless(g, f)
  {
    var p :| PathFrom(g, c, p) && (g[p[|p| - 1]].hasPtrCall || Repeats(p));
    Extend(g, f, p);
    if Repeats(p) {
      var i, j :| 0 <= i < j < |p| && p[i] == p[j];
      assert ([f] + p)[i + 1] == ([f] + p)[j + 1];
    }
  }

  /** A function met again on the chain of calls that led to it is endless. */
  lemma EndlessAgain(g: Graph, parents: seq<Fxn>, f: Fxn)
    requires Path(g, parents + [f]) && f in parents
    ensures Endless(g, f)
  {
    var q := parents + [f];
    var i :| 0 <= i < |parents| && parents[i] == f;
    var p := q[i..];
    forall k, l | 0 <= k && l == k + 1 && l < |p| ensures p[l] in g[p[k]].rCalls {
      assert q[i + l] in g[q[i + k]].rCalls;
    }
    assert PathFrom(g, f, p) && p[0] == p[|p| - 1];
  }

  lemma JoinPaths(g: Graph, p: seq<Fxn>, q: seq<Fxn>)
    requires Path(g, p) && Path(g, q) && q[0] in g[p[|p| - 1]].rCalls
    ensures Path(g, p + q)
  {
    var r := p + q;
    forall k, l | 0 <= k && l == k + 1 && l < |r| ensures r[l] in g[r[k]].rCalls {
      if l < |p| {
        assert p[l] in g[p[k]].rCalls;
      } else if k >= |p| {
        assert q[l - |p|] in g[q[k - |p|]].rCalls;
      }
    }
  }

  lemma PathPrefix(g: Graph, p: seq<Fxn>, n: nat)
    requires Path(g, p) && 0 < n <= |p|
    ensures Path(g, p[..n])
  {
    var q := p[..n];
    forall k, l | 0 <= k && l == k + 1 && l < |q| ensures q[l] in g[q[k]].rCalls {
      assert p[l] in g[p[k]].rCalls;
    }
  }

  /** An endless function calls through a pointer itself or calls an endless one. */
  lemma EndlessHasCause(g: Graph, f: Fxn) returns (c: Fxn)
    requires Closed(g) && Endless(g, f) && f in g && !g[f].hasPtrCall
    ensures c in g[f].rCalls && Endless(g, c)
  {
    var p :| PathFrom(g, f, p) && (g[p[|p| - 1]].hasPtrCall || Repeats(p));
    assert |p| > 1;
    c := p[1];
    Rest(g, p);
    var q := p[1..];
    if Repeats(p) {
      var i, j :| 0 <= i < j < |p| && p[i] == p[j];
      if i > 0 {
        assert q[i - 1] == q[j - 1];
      } else {
        // The chain returns to f: follow it from the callee to f, and once more to the callee.
        PathPrefix(g, q, j);
        var s := q[..j];
        assert s[|s| - 1] == f;
        Single(g, c);
        JoinPaths(g, s, [c]);
        assert PathFrom(g, c, s + [c]) && (s + [c])[0] == (s + [c])[|s|];
      }
    } else {
      assert q[|q| - 1] == p[|p| - 1];
    }
  }

  /** What calc_wcs computes for a function whose callees are all bounded. */
  lemma Combine(g: Graph, f: Fxn, w: map<Fxn, Wcs>, callMax: nat)
    requires Closed(g) && f in g && !g[f].hasPtrCall
    requires forall c :: c in g[f].rCalls ==> c in w && w[c].Bounded? && Correct(g, c, w[c]) && w[c].bytes <= callMax
    requires callMax == 0 || exists c :: c in g[f].rCalls && w[c].bytes == callMax
    ensures Correct(g, f, Bounded(callMax + g[f].localStack))
  {
    if Endless(g, f) {
      var c := EndlessHasCause(g, f);
      assert false;
    }
    var n := callMax + g[f].localStack;
    forall p | PathFrom(g, f, p) ensures Weight(g, p) <= n {
      if |p| == 1 {
        Single(g, f);
        assert p == [f];
      } else {
        Rest(g, p);
        assert IsWorst(g, p[1], w[p[1]].bytes);
      }
    }
    Single(g, f);
    if callMax > 0 {
      var c :| c in g[f].rCalls && w[c].bytes == callMax;
      var p :| PathFrom(g, c, p) && Weight(g, p) == callMax;
      Extend(g, f, p);
    }
  }

  lemma CombineCalls(g: Graph, f: Fxn, w: map<Fxn, set<string>>, u: set<string>)
    requires Closed(g) && f in g
    requires forall c :: c in g[f].rCalls ==> c in w && Collects(g, c, w[c])
    requires forall x :: x in u <==> x in g[f].unresolved || exists c :: c in g[f].rCalls && x in w[c]
    ensures Collects(g, f, u)
  {
    forall x | x in u ensures exists p :: PathFrom(g, f, p) && x in g[p[|p| - 1]].unresolved {
      Single(g, f);
      if x in g[f].unresolved {
        assert PathFrom(g, f, [f]) && x in g[[f][|[f]| - 1]].unresolved;
      } else {
        var c :| c in g[f].rCalls && x in w[c];
        var p :| PathFrom(g, c, p) && x in g[p[|p| - 1]].unresolved;
        Extend(g, f, p);
      }
    }
    forall x, p | PathFrom(g, f, p) && x in g[p[|p| - 1]].unresolved ensures x in u {
      if |p| > 1 {
        Rest(g, p);
        assert p[1..][|p[1..]| - 1] == p[|p| - 1];
        assert x in w[p[1]];
      }
    }
  }

  // ------------------------------------------------------------------------------------------
  // What is known at any time
  // ------------------------------------------------------------------------------------------

  type Answers = map<Fxn, Wcs>
  type Collected = map<Fxn, set<string>>

  /** Every answer found so far is correct, and the functions not yet looked at, which are not on the
      chain of calls `stack`, still have only their own unresolved calls. */
  ghost predicate Sound(g: Graph, w: Answers, u: Collected, stack: seq<Fxn>) {
    && Closed(g)
    && w.Keys <= g.Keys == u.Keys
    && (forall f :: f in w ==> Correct(g, f, w[f]))
    && (forall f :: f in w && w[f].Bounded? ==> Collects(g, f, u[f]))
    && (forall f :: f in g && f !in w && f !in stack ==> u[f] == g[f].unresolved)
  }

  /** Answers are added; what was known, and what belongs to functions on the chain, stays. */
  ghost predicate Grown(w: Answers, u: Collected, w': Answers, u': Collected, stack: seq<Fxn>) {
    && w.Keys <= w'.Keys && u.Keys == u'.Keys
    && (forall f :: f in w ==> w'[f] == w[f])
    && (forall f :: f in u && (f in stack || f in w) ==> u'[f] == u[f])
  }

  /** No function on the chain got an answer meanwhile. */
  ghost predicate Pending(w: Answers, w': Answers, stack: seq<Fxn>) {
    forall f :: f in stack && f in w' ==> f in w
  }

  lemma GrownTwice(w: Answers, u: Collected, w': Answers, u': Collected, w'': Answers, u'': Collected, stack: seq<Fxn>)
    requires Grown(w, u, w', u', stack) && Grown(w', u', w'', u'', stack)
    ensures Grown(w, u, w'', u'', stack)
    ensures Pending(w, w', stack) && Pending(w', w'', stack) ==> Pending(w, w'', stack)
  {}

  lemma GrownOn(w: Answers, u: Collected, w': Answers, u': Collected, stack: seq<Fxn>, f: Fxn)
    requires Grown(w, u, w', u', stack + [f])
    ensures Grown(w, u, w', u', stack)
    ensures Pending(w, w', stack + [f]) ==> Pending(w, w', stack) && (f in w' ==> f in w)
  {
    assert f in stack + [f];
    assert forall x :: x in stack ==> x in stack + [f];
  }

  /** `f` is found to be unbounded. */
  lemma MarkUnbounded(g: Graph, w: Answers, u: Collected, stack: seq<Fxn>, f: Fxn)
    requires f in g && Endless(g, f) && (Sound(g, w, u, stack) || Sound(g, w, u, stack + [f]))
    ensures Sound(g, w[f := Unbounded], u, stack)
    ensures f !in w ==> Grown(w, u, w[f := Unbounded], u, stack)
  {
    hide Collects, Closed;
  }

  /** All calls of `f` have been followed, and it is bounded. */
  lemma MarkBounded(g: Graph, w: Answers, u: Collected, stack: seq<Fxn>, f: Fxn, callMax: nat)
    requires Sound(g, w, u, stack + [f]) && f in g && !g[f].hasPtrCall && f !in w && f !in stack
    requires Followed(g, f, w, u, g[f].rCalls, callMax)
    ensures var w' := w[f := Bounded(callMax + g[f].localStack)];
      Sound(g, w', u, stack) && Grown(w, u, w', u, stack) && Pending(w, w', stack)
  {
    AllFollowed(g, f, w, u, callMax);
    hide Collects, Closed, Correct, Followed;
  }

  /** The unresolved calls of `f` grow while it is on the chain. */
  lemma CollectMore(g: Graph, w: Answers, u: Collected, stack: seq<Fxn>, f: Fxn, x: set<string>)
    requires Sound(g, w, u, stack + [f]) && f in u && f !in w && f !in stack
    ensures Sound(g, w, u[f := x], stack + [f]) && Grown(w, u, w, u[f := x], stack)
  {
    hide Collects, Closed, Correct;
  }

  /** `callMax` and the unresolved calls of `f` take in the calls `done`. */
  ghost predicate Followed(g: Graph, f: Fxn, w: Answers, u: Collected, done: seq<Fxn>, callMax: nat) {
    && (forall c :: c in done ==> c in w && c in u && c != f && w[c].Bounded? && w[c].bytes <= callMax)
    && (callMax == 0 || exists c :: c in done && c in w && w[c] == Bounded(callMax))
    && f in g && f in u
    && (forall x :: x in u[f] <==> x in g[f].unresolved || exists c :: c in done && c in u && x in u[c])
  }

  lemma PathToCallee(g: Graph, w: Answers, u: Collected, stack: seq<Fxn>, f: Fxn, c: Fxn)
    requires Sound(g, w, u, stack + [f]) && Path(g, stack + [f]) && f in g && c in g[f].rCalls
    ensures Path(g, stack + [f] + [c])
  {
    JoinPaths(g, stack + [f], [c]);
  }

  lemma StartFollowed(g: Graph, w: Answers, u: Collected, stack: seq<Fxn>, f: Fxn)
    requires f in g && Sound(g, w, u, stack) && f !in stack && f !in w
    ensures Followed(g, f, w, u, [], 0) && Sound(g, w, u, stack + [f]) && Grown(w, u, w, u, stack)
      && Pending(w, w, stack)
  {
    hide Correct, Collects, Closed;
  }

  lemma StillFollowed(g: Graph, f: Fxn, w: Answers, u: Collected,
                      w': Answers, u': Collected, done: seq<Fxn>, callMax: nat)
    requires Followed(g, f, w, u, done, callMax) && w.Keys <= w'.Keys && u.Keys == u'.Keys
    requires forall c :: c in w ==> w'[c] == w[c]
    requires forall c :: c in u && (c == f || c in w) ==> u'[c] == u[c]
    ensures Followed(g, f, w', u', done, callMax)
  {}

  lemma FollowedMore(g: Graph, f: Fxn, w: Answers, u: Collected, done: seq<Fxn>, callMax: nat, c: Fxn)
    requires Followed(g, f, w, u, done, callMax) && c in w && c in u && c != f && w[c].Bounded?
    ensures f in u
      && Followed(g, f, w, u[f := u[f] + u[c]], done + [c], if callMax < w[c].bytes then w[c].bytes else callMax)
  {
    var more := done + [c];
    assert more[|done|] == c;
    forall d | d in done ensures d in more {
      var k :| 0 <= k < |done| && done[k] == d;
      assert more[k] == d;
    }
    var u' := u[f := u[f] + u[c]];
    forall x | x in u'[f] && x !in g[f].unresolved ensures exists d :: d in more && d in u' && x in u'[d] {
      if x in u[f] {
        var d :| d in done && d in u && x in u[d];
        assert d in more && x in u'[d];
      } else {
        assert c in more && x in u'[c];
      }
    }
  }

  lemma AllFollowed(g: Graph, f: Fxn, w: Answers, u: Collected, callMax: nat)
    requires Closed(g) && f in g && !g[f].hasPtrCall && Followed(g, f, w, u, g[f].rCalls, callMax)
    requires forall c :: c in w ==> Correct(g, c, w[c])
    requires forall c :: c in w && c in u && w[c].Bounded? ==> Collects(g, c, u[c])
    ensures Correct(g, f, Bounded(callMax + g[f].localStack)) && Collects(g, f, u[f])
  {
    hide Correct, Collects, Closed;
    Combine(g, f, w, callMax);
    CombineCalls(g, f, u, u[f]);
  }

  /** After a call of `f` was followed: `w1` and `u1` are what is known then. */
  lemma AfterFollow(g: Graph, f: Fxn, w0: Answers, u0: Collected, w: Answers, u: Collected, w1: Answers, u1: Collected,
                    stack: seq<Fxn>, done: seq<Fxn>, callMax: nat, c: Fxn)
    requires f in g && c in g[f].rCalls && f !in w && f !in stack && c in w1
    requires Followed(g, f, w, u, done, callMax) && Sound(g, w1, u1, stack + [f])
    requires Grown(w0, u0, w, u, stack) && Pending(w0, w, stack) && Grown(w, u, w1, u1, stack + [f])
    requires w1[c].Bounded? ==> Pending(w, w1, stack + [f])
    ensures f in u1 && c in u1
    ensures w1[c].Bounded? ==> var u2 := u1[f := u1[f] + u1[c]];
      && f !in w1 && Sound(g, w1, u2, stack + [f]) && Grown(w0, u0, w1, u2, stack) && Pending(w0, w1, stack)
      && Followed(g, f, w1, u2, done + [c], if callMax < w1[c].bytes then w1[c].bytes else callMax)
    ensures w1[c] == Unbounded ==>
      Sound(g, w1[f := Unbounded], u1, stack) && Grown(w0, u0, w1[f := Unbounded], u1, stack)
  {
    hide Correct, Collects, Closed, Followed, Endless;
    assert f in stack + [f];
    GrownOn(w, u, w1, u1, stack, f);
    GrownTwice(w0, u0, w, u, w1, u1, stack);
    if w1[c].Bounded? {
      StillFollowed(g, f, w, u, w1, u1, done, callMax);
      FollowedMore(g, f, w1, u1, done, callMax, c);
      CollectMore(g, w1, u1, stack, f, u1[f] + u1[c]);
      GrownTwice(w0, u0, w1, u1, w1, u1[f := u1[f] + u1[c]], stack);
    } else {
      EndlessCall(g, f, c);
      MarkUnbounded(g, w1, u1, stack, f);
    }
  }

  lemma EndlessCall(g: Graph, f: Fxn, c: Fxn)
    requires f in g && c in g[f].rCalls && Correct(g, c, Unbounded)
    ensures Endless(g, f)
  {
    EndlessCallee(g, f, c);
  }

  /** How much longer a chain of calls without repetition can grow. */
  ghost function Room(g: Graph, stack: seq<Fxn>): nat {
    |g.Keys - set x | x in stack|
  }

  lemma OnPath(g: Graph, stack: seq<Fxn>, f: Fxn)
    requires Path(g, stack + [f])
    ensures f in g
  {
    assert (stack + [f])[|stack|] == f;
  }

  lemma RoomShrinks(g: Graph, stack: seq<Fxn>, f: Fxn)
    requires f in g && f !in stack
    ensures Room(g, stack + [f]) < Room(g, stack)
  {
    var a, b := g.Keys - (set x | x in stack), g.Keys - (set x | x in stack + [f]);
    assert a == b + {f};
  }

  // ------------------------------------------------------------------------------------------
  // The analysis
  // ------------------------------------------------------------------------------------------

  /** The call graph with what is found out about it; `parents` is the chain of calls being followed. */
  class CallGraph {
    const fxns: Graph
    var wcs: Answers
    var unresolved: Collected
    var parents: seq<Fxn>

    ghost predicate Valid()
      reads this
    {
      Sound(fxns, wcs, unresolved, parents)
    }

    /** Functions from the manual files call nothing, and their stack use is given. */
    constructor (fxns: Graph, manual: set<Fxn>)
      requires Closed(fxns)
      requires forall f :: f in manual ==> f in fxns && !fxns[f].hasPtrCall && fxns[f].rCalls == []
      ensures Valid() && this.fxns == fxns && parents == []
    {
      this.fxns := fxns;
      wcs := map f | f in manual :: Bounded(fxns[f].localStack);
      unresolved := map f | f in fxns :: fxns[f].unresolved;
      parents := [];
      new;
      forall f | f in manual ensures Correct(fxns, f, wcs[f]) && Collects(fxns, f, unresolved[f]) {
        Combine(fxns, f, map[], 0);
        CombineCalls(fxns, f, map[], fxns[f].unresolved);
      }
    }

    /** What following the call of `f` does. */
    twostate predicate Looked(f: Fxn, stack: seq<Fxn>)
      reads this
    {
      && parents == old(parents) && f in wcs
      && Grown(old(wcs), old(unresolved), wcs, unresolved, stack)
      && (wcs[f].Bounded? ==> Pending(old(wcs), wcs, stack))
    }

    /** calc_wcs. */
    method CalcWcs(f: Fxn)
      requires Valid() && Path(fxns, parents + [f])
      modifies this
      ensures Valid() && Looked(f, parents)
      decreases Room(fxns, parents), 3
    {
      hide Sound, Path, Endless, Followed;
      if f in wcs { return; }
      OnPath(fxns, parents, f);
      if fxns[f].hasPtrCall {
        EndlessPtr(fxns, f);
        MarkUnbounded(fxns, wcs, unresolved, parents, f);
        wcs := wcs[f := Unbounded];
        return;
      }
      if f in parents {
        EndlessAgain(fxns, parents, f);
        MarkUnbounded(fxns, wcs, unresolved, parents, f);
        wcs := wcs[f := Unbounded];
        return;
      }
      FollowAll(f);
    }

    /** The calls of `f`, one by one: `callMax` is the largest stack use so far. */
    method FollowAll(f: Fxn)
      requires Valid() && Path(fxns, parents + [f]) && f in fxns && f !in wcs && f !in parents && !fxns[f].hasPtrCall
      modifies this
      ensures Valid() && Looked(f, parents)
      decreases Room(fxns, parents), 2
    {
      hide Sound, Path, Endless, Followed, Grown, Pending, Room;
      StartFollowed(fxns, wcs, unresolved, parents, f);
      var calls := fxns[f].rCalls;
      var callMax: nat := 0;
      var i := 0;
      while i < |calls|
        invariant i <= |calls| && parents == old(parents) && f !in wcs
        invariant Sound(fxns, wcs, unresolved, parents + [f])
        invariant Grown(old(wcs), old(unresolved), wcs, unresolved, parents) && Pending(old(wcs), wcs, parents)
        invariant Followed(fxns, f, wcs, unresolved, calls[..i], callMax)
      {
        var bounded;
        callMax, bounded := FollowOne(f, calls[i], calls[..i], callMax, old(wcs), old(unresolved));
        if !bounded { return; }
        assert calls[..i + 1] == calls[..i] + [calls[i]];
        i := i + 1;
      }
      assert calls[..i] == calls;
      MarkBounded(fxns, wcs, unresolved, parents, f, callMax);
      GrownTwice(old(wcs), old(unresolved), wcs, unresolved, wcs[f := Bounded(callMax + fxns[f].localStack)],
          unresolved, parents);
      wcs := wcs[f := Bounded(callMax + fxns[f].localStack)];
    }

    /** One call of `f`: it adds to `callMax` and to the unresolved calls, or makes `f` unbounded. */
    method FollowOne(f: Fxn, c: Fxn, ghost done: seq<Fxn>, callMax: nat, ghost w0: Answers, ghost u0: Collected)
      returns (callMax': nat, bounded: bool)
      requires Sound(fxns, wcs, unresolved, parents + [f]) && Path(fxns, parents + [f])
      requires f in fxns && f !in parents && c in fxns[f].rCalls && f !in wcs
      requires Followed(fxns, f, wcs, unresolved, done, callMax)
      requires Grown(w0, u0, wcs, unresolved, parents) && Pending(w0, wcs, parents)
      modifies this
      ensures parents == old(parents) && Grown(w0, u0, wcs, unresolved, parents)
      ensures bounded ==> f !in wcs && Sound(fxns, wcs, unresolved, parents + [f]) && Pending(w0, wcs, parents)
      ensures bounded ==> Followed(fxns, f, wcs, unresolved, done + [c], callMax')
      ensures !bounded ==> Valid() && f in wcs && wcs[f] == Unbounded
      decreases Room(fxns, parents), 1
    {
      hide Sound, Path, Endless, Followed, Grown, Pending, Room;
      ghost var w, u := wcs, unresolved;
      callMax' := callMax;
      Follow(f, c);
      ghost var w1, u1 := wcs, unresolved;
      AfterFollow(fxns, f, w0, u0, w, u, w1, u1, parents, done, callMax, c);
      bounded := wcs[c] != Unbounded;
      if bounded {
        if callMax < wcs[c].bytes {
          callMax' := wcs[c].bytes;
        }
        unresolved := unresolved[f := unresolved[f] + unresolved[c]];
      } else {
        wcs := wcs[f := Unbounded];
      }
    }

    /** The callee is looked at with `f` on the chain of calls. */
    method Follow(f: Fxn, c: Fxn)
      requires Sound(fxns, wcs, unresolved, parents + [f]) && Path(fxns, parents + [f])
      requires f in fxns && f !in parents && c in fxns[f].rCalls
      modifies this
      ensures Sound(fxns, wcs, unresolved, parents + [f]) && Looked(c, parents + [f])
      decreases Room(fxns, parents), 0
    {
      hide Sound, Path, Room, Grown, Pending;
      ghost var stack := parents;
      RoomShrinks(fxns, parents, f);
      PathToCallee(fxns, wcs, unresolved, parents, f, c);
      parents := parents + [f];
      CalcWcs(c);
      parents := parents[..|parents| - 1];
      assert parents == stack;
    }

    /** calc_all_wcs: whatever the order, every function gets its correct answer. */
    method CalcAllWcs(globals: seq<Fxn>, locals: seq<seq<Fxn>>)
      requires Valid() && parents == []
      requires forall f :: f in globals ==> f in fxns
      requires forall l, f {:trigger f in l} :: l in locals && f in l ==> f in fxns
      modifies this
      ensures Valid() && parents == []
      ensures forall f :: f in globals ==>
        f in wcs && Correct(fxns, f, wcs[f]) && (wcs[f].Bounded? ==> Collects(fxns, f, unresolved[f]))
      ensures forall l, f {:trigger f in l} :: l in locals && f in l ==>
        f in wcs && Correct(fxns, f, wcs[f]) && (wcs[f].Bounded? ==> Collects(fxns, f, unresolved[f]))
    {
      hide Correct, Collects, Closed, Path;
      CalcList(globals);
      for k := 0 to |locals|
        invariant Valid() && parents == []
        invariant forall f :: f in globals ==> f in wcs
        invariant forall l, f {:trigger f in l} :: l in locals[..k] && f in l ==> f in wcs
      {
        CalcList(locals[k]);
      }
      assert locals[..|locals|] == locals;
    }

    method CalcList(list: seq<Fxn>)
      requires Valid() && parents == [] && forall f :: f in list ==> f in fxns
      modifies this
      ensures Valid() && parents == [] && old(wcs).Keys <= wcs.Keys
      ensures forall f :: f in list ==> f in wcs
    {
      hide Sound;
      for k := 0 to |list|
        invariant Valid() && parents == [] && old(wcs).Keys <= wcs.Keys
        invariant forall j :: 0 <= j < k ==> list[j] in wcs
      {
        assert parents + [list[k]] == [list[k]];
        CalcWcs(list[k]);
      }
    }
  }
}
