/** What rebalancing promises: balance, the fewest possible owner changes, and minimal disruption. */
module ShardMinimal {
  import opened Sums
  import opened ShardBalance

  // ---------------------------------------------------------------- shards that stay

  /** The owners of the shards that have the same owner in both assignments. */
  function Stay(orig: seq<Gid>, b: seq<Gid>): (r: seq<Gid>)
    requires |orig| == |b|
    ensures |r| <= |orig|
  {
    if orig == [] then [] else (if orig[0] == b[0] then [b[0]] else []) + Stay(orig[1..], b[1..])
  }

  /** How many shards change owner. */
  function Changed(orig: seq<Gid>, b: seq<Gid>): nat
    requires |orig| == |b|
  {
    |orig| - |Stay(orig, b)|
  }

  lemma {:induction false} StayLoad(orig: seq<Gid>, b: seq<Gid>, g: Gid)
    requires |orig| == |b|
    ensures Load(Stay(orig, b), g) <= Load(orig, g) && Load(Stay(orig, b), g) <= Load(b, g)
    ensures (forall s :: 0 <= s < |orig| && orig[s] == g ==> b[s] == g) ==> Load(Stay(orig, b), g) == Load(orig, g)
    ensures (forall s :: 0 <= s < |orig| && b[s] == g ==> orig[s] == g) ==> Load(Stay(orig, b), g) == Load(b, g)
  {
    if orig != [] {
      StayLoad(orig[1..], b[1..], g);
      LoadAppend(if orig[0] == b[0] then [b[0]] else [], Stay(orig[1..], b[1..]), g);
      if forall s :: 0 <= s < |orig| && orig[s] == g ==> b[s] == g {
        assert forall s :: 0 <= s < |orig| - 1 ==> orig[1..][s] == orig[s + 1] && b[1..][s] == b[s + 1];
      }
      if forall s :: 0 <= s < |orig| && b[s] == g ==> orig[s] == g {
        assert forall s :: 0 <= s < |orig| - 1 ==> orig[1..][s] == orig[s + 1] && b[1..][s] == b[s + 1];
      }
    }
  }

  lemma {:induction false} StayIn(orig: seq<Gid>, b: seq<Gid>, groups: set<Gid>)
    requires |orig| == |b| && AllIn(b, groups)
    ensures AllIn(Stay(orig, b), groups)
  {
    if orig != [] {
      assert b[0] in groups;
      assert AllIn(b[1..], groups);
      StayIn(orig[1..], b[1..], groups);
    }
  }

  // ---------------------------------------------------------------- sums of loads

  ghost function Loads(shards: seq<Gid>): Gid -> int {
    g => Load(shards, g)
  }

  /** xs lists the members of groups. */
  ghost predicate Lists(xs: seq<Gid>, groups: set<Gid>) {
    NoDuplicates(xs) && (forall x :: x in xs <==> x in groups)
  }

  /** The loads of the member groups add up to the number of shards. */
  lemma {:induction false} LoadsSum(shards: seq<Gid>, groups: set<Gid>, xs: seq<Gid>)
    requires Lists(xs, groups) && AllIn(shards, groups)
    ensures Sum(xs, Loads(shards)) == |shards|
  {
    if shards == [] {
      SumZero(xs, Loads(shards));
    } else {
      var rest := shards[1..];
      assert shards[0] in groups;
      assert AllIn(rest, groups);
      LoadsSum(rest, groups, xs);
      SumChange(xs, Loads(rest), Loads(shards), shards[0]);
    }
  }

  ghost predicate Within(shards: seq<Gid>, groups: set<Gid>, q: int) {
    forall g :: g in groups ==> q <= Load(shards, g) <= q + 1
  }

  /** Of two balanced assignments of equally many shards, neither has a larger smallest load. */
  lemma FloorsOrdered(a: seq<Gid>, b: seq<Gid>, groups: set<Gid>, xs: seq<Gid>)
    requires groups != {} && Lists(xs, groups) && |a| == |b| && Balanced(a, groups) && Balanced(b, groups)
    ensures Load(a, Least(a, groups)) >= Load(b, Least(b, groups))
  {
    LoadsSum(a, groups, xs);
    LoadsSum(b, groups, xs);
    var l := Least(a, groups);
    if Load(a, l) < Load(b, Least(b, groups)) {
      SumStrict(xs, Loads(a), Loads(b), l);
    }
  }

  /** In all balanced assignments of equally many shards every load is q or q + 1, for one q. */
  lemma SameFloor(a: seq<Gid>, b: seq<Gid>, groups: set<Gid>, xs: seq<Gid>) returns (q: int)
    requires groups != {} && Lists(xs, groups) && |a| == |b| && Balanced(a, groups) && Balanced(b, groups)
    ensures Within(a, groups, q) && Within(b, groups, q)
  {
    FloorsOrdered(a, b, groups, xs);
    FloorsOrdered(b, a, groups, xs);
    q := Load(a, Least(a, groups));
  }

  // ---------------------------------------------------------------- fewest changes

  function MinInt(a: int, b: int): int { if a <= b then a else b }

  ghost function Overlap(a: seq<Gid>, b: seq<Gid>): Gid -> int {
    g => MinInt(Load(a, g), Load(b, g))
  }

  ghost function Capped(a: seq<Gid>, q: int): Gid -> int {
    g => MinInt(Load(a, g), q)
  }

  /** Groups that could keep more than q shards. */
  ghost function Rich(a: seq<Gid>, q: int): Gid -> int {
    g => if Load(a, g) > q then 1 else 0
  }

  /** Groups that could keep more than q shards and do. */
  ghost function RichBoth(a: seq<Gid>, b: seq<Gid>, q: int): Gid -> int {
    g => if Load(a, g) > q && Load(b, g) > q then 1 else 0
  }

  /** With loads q or q + 1 in b, the overlap is what q alone gives plus one per group above q in both. */
  lemma OverlapSum(a: seq<Gid>, b: seq<Gid>, groups: set<Gid>, xs: seq<Gid>, q: int)
    requires Lists(xs, groups) && Within(b, groups, q)
    ensures Sum(xs, Overlap(a, b)) == Sum(xs, Capped(a, q)) + Sum(xs, RichBoth(a, b, q))
  {
    SumAdd(xs, Capped(a, q), RichBoth(a, b, q), Overlap(a, b));
  }

  /** How many groups are above q depends only on the number of shards. */
  lemma RichCount(a: seq<Gid>, b: seq<Gid>, groups: set<Gid>, xs: seq<Gid>, q: int)
    requires Lists(xs, groups) && AllIn(a, groups) && AllIn(b, groups) && |a| == |b|
    requires Within(a, groups, q) && Within(b, groups, q)
    ensures Sum(xs, Rich(a, q)) == Sum(xs, Rich(b, q))
  {
    LoadsSum(a, groups, xs);
    LoadsSum(b, groups, xs);
    var flat := (g: Gid) => q;
    SumAdd(xs, flat, Rich(a, q), Loads(a));
    SumAdd(xs, flat, Rich(b, q), Loads(b));
  }

  /** The overlap with any assignment bounds what can stay; a fair rebalancing reaches it. */
  lemma StayBound(orig: seq<Gid>, b: seq<Gid>, groups: set<Gid>, xs: seq<Gid>)
    requires |orig| == |b| && Lists(xs, groups) && AllIn(b, groups)
    ensures |Stay(orig, b)| <= Sum(xs, Overlap(orig, b))
  {
    StayIn(orig, b, groups);
    LoadsSum(Stay(orig, b), groups, xs);
    forall g | g in xs ensures Loads(Stay(orig, b))(g) <= Overlap(orig, b)(g) {
      StayLoad(orig, b, g);
    }
    SumMonotone(xs, Loads(Stay(orig, b)), Overlap(orig, b));
  }

  lemma StayReached(orig: seq<Gid>, cur: seq<Gid>, groups: set<Gid>, xs: seq<Gid>, gave: set<Gid>, got: set<Gid>)
    requires Lists(xs, groups) && AllIn(cur, groups) && Fair(orig, cur, groups, gave, got)
    ensures |Stay(orig, cur)| == Sum(xs, Overlap(orig, cur))
  {
    StayIn(orig, cur, groups);
    LoadsSum(Stay(orig, cur), groups, xs);
    forall g | g in xs ensures Loads(Stay(orig, cur))(g) == Overlap(orig, cur)(g) {
      StayLoad(orig, cur, g);
      if g in got {
        assert forall s :: 0 <= s < |orig| && orig[s] == g ==> cur[s] == g;
      } else {
        assert forall s :: 0 <= s < |orig| && cur[s] == g ==> orig[s] == g;
      }
    }
    SumSame(xs, Loads(Stay(orig, cur)), Overlap(orig, cur));
  }

  /** Of the groups that could keep q + 1 shards, a fair rebalancing lets as many as any assignment could:
      either every group above q could, or every group that could is above q. */
  lemma FairRich(orig: seq<Gid>, cur: seq<Gid>, groups: set<Gid>, xs: seq<Gid>, gave: set<Gid>, got: set<Gid>, q: int)
    requires Lists(xs, groups) && Fair(orig, cur, groups, gave, got)
    requires Within(cur, groups, q)
    ensures Sum(xs, RichBoth(orig, cur, q)) == Sum(xs, Rich(cur, q))
            || Sum(xs, RichBoth(orig, cur, q)) == Sum(xs, Rich(orig, q))
  {
    forall g | g in groups
      ensures g !in got ==> Load(orig, g) >= Load(cur, g)
      ensures g !in gave ==> Load(cur, g) >= Load(orig, g)
    {
      StayLoad(orig, cur, g);
      if g !in got { assert forall s :: 0 <= s < |orig| && cur[s] == g ==> orig[s] == g; }
      if g !in gave { assert forall s :: 0 <= s < |orig| && orig[s] == g ==> cur[s] == g; }
    }
    if forall g :: g in groups && Load(cur, g) > q ==> Load(orig, g) > q {
      SumSame(xs, RichBoth(orig, cur, q), Rich(cur, q));
    } else {
      SumSame(xs, RichBoth(orig, cur, q), Rich(orig, q));
    }
  }

  /** Rebalance changes the fewest owners that any balanced assignment allows. */
  lemma FewestChanges(orig: seq<Gid>, groups: set<Gid>, b: seq<Gid>)
    requires groups != {} && |b| == |orig| && Balanced(b, groups)
    ensures Balanced(Rebalance(orig, groups), groups)
    ensures Changed(orig, Rebalance(orig, groups)) <= Changed(orig, b)
  {
    var cur := Rebalance(orig, groups);
    var gave, got := RebalanceFair(orig, groups);
    FewestOver(orig, groups, cur, b, Listing(groups), gave, got);
  }

  lemma FewestOver(orig: seq<Gid>, groups: set<Gid>, cur: seq<Gid>, b: seq<Gid>, xs: seq<Gid>, gave: set<Gid>, got: set<Gid>)
    requires groups != {} && |b| == |orig| && Balanced(b, groups) && Balanced(cur, groups)
    requires Fair(orig, cur, groups, gave, got) && Lists(xs, groups)
    ensures Changed(orig, cur) <= Changed(orig, b)
  {
    var q := SameFloor(cur, b, groups, xs);
    StayReached(orig, cur, groups, xs, gave, got);
    StayBound(orig, b, groups, xs);
    OverlapSum(orig, cur, groups, xs, q);
    OverlapSum(orig, b, groups, xs, q);
    RichCount(cur, b, groups, xs, q);
    FairRich(orig, cur, groups, xs, gave, got, q);
    SumMonotone(xs, RichBoth(orig, b, q), Rich(b, q));
    SumMonotone(xs, RichBoth(orig, b, q), Rich(orig, q));
  }

  // ---------------------------------------------------------------- minimal disruption

  /** A shard leaves a surviving group only for one that had at least two shards fewer. */
  lemma MovesDownhill(orig: seq<Gid>, groups: set<Gid>, s: nat)
    requires groups != {} && s < |orig| && orig[s] in groups && Rebalance(orig, groups)[s] != orig[s]
    ensures Rebalance(orig, groups)[s] in groups
    ensures Load(orig, orig[s]) >= Load(orig, Rebalance(orig, groups)[s]) + 2
  {
    var cur := Rebalance(orig, groups);
    var gave, got := RebalanceFair(orig, groups);
    var g, h := orig[s], cur[s];
    assert g in gave && h in got;
    StrictlyLess(orig, cur, g, s);
    StrictlyMore(orig, cur, h, s);
    assert forall t :: 0 <= t < |orig| && cur[t] == g ==> orig[t] == g;
    assert forall t :: 0 <= t < |orig| && orig[t] == h ==> cur[t] == h;
  }

  lemma {:induction false} StrictlyLess(orig: seq<Gid>, cur: seq<Gid>, g: Gid, s: nat)
    requires |orig| == |cur| && s < |orig| && orig[s] == g != cur[s]
    ensures (forall t :: 0 <= t < |orig| && cur[t] == g ==> orig[t] == g) ==> Load(cur, g) < Load(orig, g)
  {
    if forall t :: 0 <= t < |orig| && cur[t] == g ==> orig[t] == g {
      var filled := cur[s := g];
      LoadUpdate(cur, s, g, g);
      StayLoad(orig, filled, g);
      assert forall t :: 0 <= t < |orig| && filled[t] == g ==> orig[t] == g;
    }
  }

  lemma {:induction false} StrictlyMore(orig: seq<Gid>, cur: seq<Gid>, h: Gid, s: nat)
    requires |orig| == |cur| && s < |orig| && cur[s] == h != orig[s]
    ensures (forall t :: 0 <= t < |orig| && orig[t] == h ==> cur[t] == h) ==> Load(cur, h) > Load(orig, h)
  {
    StrictlyLess(cur, orig, h, s);
  }

  /** From a balanced configuration, after new groups join, shards move only onto the new groups. */
  lemma JoinMovesOntoNew(orig: seq<Gid>, members: set<Gid>, joined: set<Gid>, s: nat)
    requires Balanced(orig, members) && joined !! members && joined != {} && s < |orig|
    ensures Rebalance(orig, members + joined)[s] != orig[s] ==> Rebalance(orig, members + joined)[s] in joined
  {
    var h := Rebalance(orig, members + joined)[s];
    if h != orig[s] {
      MovesDownhill(orig, members + joined, s);
    }
  }

  /** From a balanced configuration, after groups leave, only the shards of the departed groups move. */
  lemma LeaveMovesOnlyDeparted(orig: seq<Gid>, members: set<Gid>, left: set<Gid>, s: nat)
    requires Balanced(orig, members) && left <= members && s < |orig|
    ensures Rebalance(orig, members - left)[s] != orig[s] ==> orig[s] in left
  {
    if Rebalance(orig, members - left)[s] != orig[s] && orig[s] !in left {
      assert orig[s] in members - left;
      MovesDownhill(orig, members - left, s);
    }
  }

  /** A balanced configuration is left as it is. */
  lemma BalancedIsFixed(orig: seq<Gid>, groups: set<Gid>)
    requires groups != {} && Balanced(orig, groups)
    ensures Rebalance(orig, groups) == orig
  {
    forall s | 0 <= s < |orig| ensures Rebalance(orig, groups)[s] == orig[s] {
      if Rebalance(orig, groups)[s] != orig[s] {
        MovesDownhill(orig, groups, s);
      }
    }
  }
}
