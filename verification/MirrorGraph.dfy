/** The three-colour depth-first search over the mirror relation (`findCycle`). */
module MirrorGraph {
  import opened Foundations

  type Graph = map<string, seq<string>>
  type Edges = set<(string, string)>

  function Succ(g: Graph, n: string): seq<string> {
    if n in g then g[n] else []
  }

  ghost function EdgesOf(g: Graph): Edges {
    set a, b | a in g && b in g[a] :: (a, b)
  }

  /** Sources and targets alike: a node may appear only as an edge target. */
  ghost function Nodes(g: Graph): set<string> {
    g.Keys + (set a, b | a in g && b in g[a] :: b)
  }

  // ---- Walks, cycles and ranks, for any finite relation ----

  ghost predicate Hop(e: Edges, w: seq<string>, i: nat)
    requires i < |w| - 1
  {
    (w[i], w[i + 1]) in e
  }

  ghost predicate IsWalk(e: Edges, w: seq<string>) {
    forall i: nat | i < |w| - 1 :: Hop(e, w, i)
  }

  lemma SliceIsWalk(e: Edges, w: seq<string>, lo: nat, hi: nat)
    requires IsWalk(e, w) && lo <= hi <= |w|
    ensures IsWalk(e, w[lo..hi])
  {
    forall i: nat | i < hi - lo - 1 ensures Hop(e, w[lo..hi], i) {
      assert Hop(e, w, lo + i);
    }
  }

  lemma ExtendedWalk(e: Edges, w: seq<string>, n: string)
    requires IsWalk(e, w) && (w != [] ==> (w[|w| - 1], n) in e)
    ensures IsWalk(e, w + [n])
  {
    forall i: nat | i < |w| ensures Hop(e, w + [n], i) {
      if i < |w| - 1 { assert Hop(e, w, i); }
    }
  }

  ghost predicate IsClosedWalk(e: Edges, w: seq<string>) {
    |w| >= 2 && w[0] == w[|w| - 1] && IsWalk(e, w)
  }

  /** A closed walk that repeats nothing but its end point. */
  ghost predicate IsCycle(e: Edges, w: seq<string>) {
    IsClosedWalk(e, w) && Distinct(w[..|w| - 1])
  }

  ghost predicate IsAcyclic(e: Edges) {
    forall w :: !IsClosedWalk(e, w)
  }

  ghost predicate IsRank(e: Edges, rank: map<string, nat>) {
    forall p | p in e :: p.0 in rank && p.1 in rank && rank[p.1] < rank[p.0]
  }

  lemma {:induction false} RankDropsAlongWalk(e: Edges, rank: map<string, nat>, w: seq<string>)
    requires IsRank(e, rank) && IsWalk(e, w) && |w| >= 2
    ensures w[0] in rank && w[|w| - 1] in rank
    ensures rank[w[|w| - 1]] + |w| - 1 <= rank[w[0]]
  {
    assert Hop(e, w, 0);
    if |w| > 2 {
      SliceIsWalk(e, w, 1, |w|);
      assert w[1..|w|] == w[1..];
      RankDropsAlongWalk(e, rank, w[1..]);
    }
  }

  lemma RankedIsAcyclic(e: Edges, rank: map<string, nat>)
    requires IsRank(e, rank)
    ensures IsAcyclic(e)
  {
    forall w | IsClosedWalk(e, w) ensures false {
      RankDropsAlongWalk(e, rank, w);
    }
  }

  /** In an acyclic relation a walk never comes back, so it is bounded by its node set. */
  lemma AcyclicWalkIsShort(e: Edges, w: seq<string>, universe: set<string>)
    requires IsAcyclic(e) && IsWalk(e, w)
    requires forall n | n in w :: n in universe
    ensures Distinct(w)
    ensures |w| <= |universe|
  {
    forall i, j | 0 <= i < j < |w| ensures w[i] != w[j] {
      var loop := w[i..j + 1];
      SliceIsWalk(e, w, i, j + 1);
      assert !IsClosedWalk(e, loop);
    }
    DistinctFitsIn(w, universe);
  }

  // ---- The search ----

  datatype Colour = White | Gray | Black

  function ColourOf(state: map<string, Colour>, n: string): Colour {
    if n in state then state[n] else White
  }

  /** Gray exactly when on the stack, and the stack is a walk without repetition. */
  ghost predicate StackInv(e: Edges, state: map<string, Colour>, stack: seq<string>) {
    && (forall n | n in state :: state[n] != White)
    && (forall n | n in stack :: n in state && state[n] == Gray)
    && (forall n | n in state && state[n] == Gray :: n in stack)
    && Distinct(stack)
    && IsWalk(e, stack)
  }

  /** A black node only reaches black nodes that finished earlier. */
  ghost predicate BlackAt(e: Edges, state: map<string, Colour>, rank: map<string, nat>, clock: nat, n: string) {
    && (n in rank <==> ColourOf(state, n) == Black)
    && (n in rank ==> rank[n] < clock)
    && (n in rank ==> forall m | (n, m) in e :: m in rank && rank[m] < rank[n])
  }

  ghost predicate BlackInv(e: Edges, state: map<string, Colour>, rank: map<string, nat>, clock: nat) {
    forall n :: BlackAt(e, state, rank, clock, n)
  }

  lemma PushKeepsStack(e: Edges, state: map<string, Colour>, stack: seq<string>, n: string)
    requires StackInv(e, state, stack) && n !in state
    requires stack != [] ==> (stack[|stack| - 1], n) in e
    ensures StackInv(e, state[n := Gray], stack + [n])
  {
    assert n !in stack;
    ExtendedWalk(e, stack, n);
  }

  lemma PopKeepsStack(e: Edges, state: map<string, Colour>, stack: seq<string>, n: string)
    requires StackInv(e, state, stack + [n])
    ensures StackInv(e, state[n := Black], stack)
  {
    var whole := stack + [n];
    forall m | m in stack ensures m in state && state[m] == Gray && m != n {
      var i :| 0 <= i < |stack| && stack[i] == m;
      assert whole[i] == m && whole[|stack|] == n;
    }
    SliceIsWalk(e, whole, 0, |stack|);
    assert whole[..|stack|] == stack;
    assert Distinct(stack) by {
      forall i, j | 0 <= i < j < |stack| ensures stack[i] != stack[j] {
        assert whole[i] == stack[i] && whole[j] == stack[j];
      }
    }
  }

  lemma EnterKeepsBlack(e: Edges, state: map<string, Colour>, rank: map<string, nat>, clock: nat, n: string)
    requires BlackInv(e, state, rank, clock) && n !in state
    ensures BlackInv(e, state[n := Gray], rank, clock)
  {
    var state' := state[n := Gray];
    forall m ensures BlackAt(e, state', rank, clock, m) {
      assert BlackAt(e, state, rank, clock, m);
    }
  }

  lemma FinishKeepsBlack(e: Edges, state: map<string, Colour>, rank: map<string, nat>, clock: nat, n: string)
    requires BlackInv(e, state, rank, clock) && ColourOf(state, n) == Gray
    requires forall m | (n, m) in e :: m in rank
    ensures n !in rank
    ensures BlackInv(e, state[n := Black], rank[n := clock], clock + 1)
  {
    assert BlackAt(e, state, rank, clock, n);
    var state', rank', clock' := state[n := Black], rank[n := clock], clock + 1;
    forall m ensures BlackAt(e, state', rank', clock', m) {
      assert BlackAt(e, state, rank, clock, m);
      forall k | (n, k) in e ensures rank[k] < clock {
        assert BlackAt(e, state, rank, clock, k);
      }
    }
  }

  lemma BlackInvIsRank(e: Edges, state: map<string, Colour>, rank: map<string, nat>, clock: nat)
    requires BlackInv(e, state, rank, clock) && forall p | p in e :: p.0 in rank
    ensures IsRank(e, rank)
  {
    forall p | p in e ensures p.1 in rank && rank[p.1] < rank[p.0] {
      assert BlackAt(e, state, rank, clock, p.0);
    }
  }

  /** The variables captured by the recursive closure: `state` and `stack`. */
  class Search {
    const adj: Graph
    var state: map<string, Colour>
    var stack: seq<string>
    /** Black nodes with their finishing position. */
    ghost var rank: map<string, nat>
    ghost var clock: nat

    constructor (adj: Graph)
      ensures this.adj == adj && state == map[] && stack == [] && rank == map[]
    {
      this.adj := adj;
      state, stack, rank, clock := map[], [], map[], 0;
    }

    ghost predicate Valid()
      reads this
    {
      && state.Keys <= Nodes(adj)
      && StackInv(EdgesOf(adj), state, stack)
      && BlackInv(EdgesOf(adj), state, rank, clock)
    }

    /** The search along the stack always finds the gray node `m`: it cannot fall through. */
    method CloseAt(m: string) returns (cycle: seq<string>)
      requires StackInv(EdgesOf(adj), state, stack) && ColourOf(state, m) == Gray
      requires (stack[|stack| - 1], m) in EdgesOf(adj)
      ensures IsCycle(EdgesOf(adj), cycle)
    {
      var i := 0;
      while stack[i] != m
        invariant 0 <= i < |stack|
        invariant m !in stack[..i]
        decreases |stack| - i
      {
        assert m in stack[i + 1..] by {
          assert stack == stack[..i] + [stack[i]] + stack[i + 1..];
        }
        i := i + 1;
      }
      SliceIsWalk(EdgesOf(adj), stack, i, |stack|);
      assert stack[i..|stack|] == stack[i..];
      ExtendedWalk(EdgesOf(adj), stack[i..], m);
      cycle := stack[i..] + [m];
      assert cycle[..|cycle| - 1] == stack[i..];
    }

    /** Colour `n` gray and push it. */
    method Enter(n: string)
      requires Valid() && ColourOf(state, n) == White && n in Nodes(adj)
      requires stack != [] ==> (stack[|stack| - 1], n) in EdgesOf(adj)
      modifies `state, `stack
      ensures Valid() && stack == old(stack) + [n] && state == old(state)[n := Gray]
    {
      PushKeepsStack(EdgesOf(adj), state, stack, n);
      EnterKeepsBlack(EdgesOf(adj), state, rank, clock, n);
      state := state[n := Gray];
      stack := stack + [n];
    }

    /** Pop the top and colour it black: it finishes after all its successors. */
    method Leave(ghost below: seq<string>, n: string)
      requires Valid() && stack == below + [n]
      requires forall m | m in Succ(adj, n) :: m in rank
      modifies this
      ensures Valid() && stack == below && state == old(state)[n := Black]
      ensures rank.Keys == old(rank.Keys) + {n}
    {
      PopKeepsStack(EdgesOf(adj), state, below, n);
      assert stack[|stack| - 1] == n;
      FinishKeepsBlack(EdgesOf(adj), state, rank, clock, n);
      stack := stack[..|stack| - 1];
      state := state[n := Black];
      rank, clock := rank[n := clock], clock + 1;
    }

    method Dfs(n: string) returns (cycle: Option<seq<string>>)
      requires Valid() && ColourOf(state, n) == White && n in Nodes(adj)
      requires stack != [] ==> (stack[|stack| - 1], n) in EdgesOf(adj)
      modifies this
      decreases Nodes(adj) - state.Keys, 1
      ensures cycle.Some? ==> IsCycle(EdgesOf(adj), cycle.value)
      ensures cycle.None? ==> Valid() && stack == old(stack) && n in rank
      ensures cycle.None? ==> old(state.Keys) <= state.Keys && old(rank.Keys) <= rank.Keys
    {
      Enter(n);
      var succ := Succ(adj, n);
      for i := 0 to |succ|
        invariant Valid() && stack == old(stack) + [n]
        invariant old(state.Keys) + {n} <= state.Keys && old(rank.Keys) <= rank.Keys
        invariant forall k | 0 <= k < i :: succ[k] in rank
      {
        cycle := Follow(n, succ[i]);
        if cycle.Some? { return; }
      }
      Leave(old(stack), n);
      return None;
    }

    /** The switch on the colour of one successor `m` of the stack top `n`. */
    method Follow(n: string, m: string) returns (cycle: Option<seq<string>>)
      requires Valid() && stack != [] && stack[|stack| - 1] == n && m in Succ(adj, n)
      modifies this
      decreases Nodes(adj) - state.Keys, 2
      ensures cycle.Some? ==> IsCycle(EdgesOf(adj), cycle.value)
      ensures cycle.None? ==> Valid() && stack == old(stack) && m in rank
      ensures cycle.None? ==> old(state.Keys) <= state.Keys && old(rank.Keys) <= rank.Keys
    {
      assert (n, m) in EdgesOf(adj);
      assert BlackAt(EdgesOf(adj), state, rank, clock, m);
      match ColourOf(state, m) {
        case Gray =>
          var c := CloseAt(m);
          return Some(c);
        case White =>
          cycle := Dfs(m);
        case Black =>
          return None;
      }
    }
  }

  /** `nil` exactly for acyclic graphs, whatever order the roots are taken in; the black finishing
      order is the witness on one side, a simple closed walk on the other. */
  method FindCycle(adj: Graph) returns (cycle: Option<seq<string>>, ghost rank: map<string, nat>)
    ensures cycle.None? ==> IsRank(EdgesOf(adj), rank)
    ensures cycle.Some? ==> IsCycle(EdgesOf(adj), cycle.value)
    ensures cycle.None? <==> IsAcyclic(EdgesOf(adj))
  {
    var search := new Search(adj);
    var roots := adj.Keys;
    while roots != {}
      invariant search.Valid() && search.adj == adj && search.stack == []
      invariant forall n | n in adj :: n in roots || n in search.rank
    {
      var n :| n in roots;  // map iteration order is arbitrary
      assert BlackAt(EdgesOf(adj), search.state, search.rank, search.clock, n);
      if ColourOf(search.state, n) == White {
        var c := search.Dfs(n);
        if c.Some? { return c, map[]; }
      }
      roots := roots - {n};
    }
    rank := search.rank;
    BlackInvIsRank(EdgesOf(adj), search.state, rank, search.clock);
    RankedIsAcyclic(EdgesOf(adj), rank);
    return None, rank;
  }
}
