/** The shard rebalancer as a function: assign the unassigned shards to the least loaded group, then move one
    shard at a time from the most to the least loaded group until loads are within one. */
module ShardBalance {
  import opened Sums

  type Gid = int

  // ---------------------------------------------------------------- loads

  /** How many shards group g has. */
  function Load(shards: seq<Gid>, g: Gid): nat {
    if shards == [] then 0 else (if shards[0] == g then 1 else 0) + Load(shards[1..], g)
  }

  lemma {:induction false} LoadAppend(a: seq<Gid>, b: seq<Gid>, g: Gid)
    ensures Load(a + b, g) == Load(a, g) + Load(b, g)
  {
    if a == [] {
      assert a + b == b;
    } else {
      assert (a + b)[1..] == a[1..] + b;
      LoadAppend(a[1..], b, g);
    }
  }

  /** Handing shard s over changes two loads by one. */
  lemma {:induction false} LoadUpdate(shards: seq<Gid>, s: nat, to: Gid, g: Gid)
    requires s < |shards|
    ensures Load(shards[s := to], g) ==
            Load(shards, g) - (if shards[s] == g then 1 else 0) + (if to == g then 1 else 0)
  {
    if s == 0 {
      assert shards[s := to][1..] == shards[1..];
    } else {
      assert shards[s := to][1..] == shards[1..][s - 1 := to];
      LoadUpdate(shards[1..], s - 1, to, g);
    }
  }

  lemma {:induction false} LoadBound(shards: seq<Gid>, g: Gid)
    ensures Load(shards, g) <= |shards|
    ensures Load(shards, g) > 0 <==> g in shards
  {
    if shards != [] {
      LoadBound(shards[1..], g);
    }
  }

  ghost predicate AllIn(shards: seq<Gid>, groups: set<Gid>) {
    forall s :: 0 <= s < |shards| ==> shards[s] in groups
  }

  /** Every shard is on a member group, and no group has two more than another. */
  ghost predicate Balanced(shards: seq<Gid>, groups: set<Gid>) {
    && AllIn(shards, groups)
    && (forall g, h :: g in groups && h in groups ==> Load(shards, g) <= Load(shards, h) + 1)
  }

  /** The least loaded group, the smallest id among equals. */
  ghost predicate IsLeast(shards: seq<Gid>, groups: set<Gid>, g: Gid) {
    && g in groups
    && (forall h :: h in groups ==>
          Load(shards, g) < Load(shards, h) || (Load(shards, g) == Load(shards, h) && g <= h))
  }

  /** The most loaded group, the smallest id among equals. */
  ghost predicate IsMost(shards: seq<Gid>, groups: set<Gid>, g: Gid) {
    && g in groups
    && (forall h :: h in groups ==>
          Load(shards, g) > Load(shards, h) || (Load(shards, g) == Load(shards, h) && g <= h))
  }

  lemma {:induction false} LeastExists(shards: seq<Gid>, groups: set<Gid>)
    requires groups != {}
    ensures exists g :: IsLeast(shards, groups, g)
    decreases |groups|
  {
    var x := Listing(groups)[0];
    var g := x;
    if groups != {x} {
      assert groups - {x} != {};
      LeastExists(shards, groups - {x});
      var y :| IsLeast(shards, groups - {x}, y);
      g := if Load(shards, x) < Load(shards, y) || (Load(shards, x) == Load(shards, y) && x <= y) then x else y;
      assert forall h :: h in groups ==> h == x || h in groups - {x};
    }
    assert IsLeast(shards, groups, g);
  }

  lemma {:induction false} MostExists(shards: seq<Gid>, groups: set<Gid>)
    requires groups != {}
    ensures exists g :: IsMost(shards, groups, g)
    decreases |groups|
  {
    var x := Listing(groups)[0];
    var g := x;
    if groups != {x} {
      assert groups - {x} != {};
      MostExists(shards, groups - {x});
      var y :| IsMost(shards, groups - {x}, y);
      g := if Load(shards, x) > Load(shards, y) || (Load(shards, x) == Load(shards, y) && x <= y) then x else y;
      assert forall h :: h in groups ==> h == x || h in groups - {x};
    }
    assert IsMost(shards, groups, g);
  }

  ghost function Least(shards: seq<Gid>, groups: set<Gid>): (g: Gid)
    requires groups != {}
    ensures IsLeast(shards, groups, g)
  {
    LeastExists(shards, groups);
    var g :| IsLeast(shards, groups, g);
    g
  }

  ghost function Most(shards: seq<Gid>, groups: set<Gid>): (g: Gid)
    requires groups != {}
    ensures IsMost(shards, groups, g)
  {
    MostExists(shards, groups);
    var g :| IsMost(shards, groups, g);
    g
  }

  // ---------------------------------------------------------------- the algorithm

  /** Index of the first shard that group g has. */
  function First(shards: seq<Gid>, g: Gid): (s: nat)
    requires g in shards
    ensures s < |shards| && shards[s] == g && g !in shards[..s]
  {
    if shards[0] == g then 0 else
      var s := First(shards[1..], g);
      assert shards[..s + 1] == [shards[0]] + shards[1..][..s];
      s + 1
  }

  /** Give each unassigned shard, from index i on, to the least loaded group. */
  ghost function AssignFrom(shards: seq<Gid>, groups: set<Gid>, i: nat): (r: seq<Gid>)
    requires groups != {} && i <= |shards|
    ensures |r| == |shards|
    decreases |shards| - i
  {
    if i == |shards| then shards
    else if shards[i] in groups then AssignFrom(shards, groups, i + 1)
    else AssignFrom(shards[i := Least(shards, groups)], groups, i + 1)
  }

  ghost predicate Uneven(shards: seq<Gid>, groups: set<Gid>)
    requires groups != {}
  {
    Load(shards, Most(shards, groups)) >= Load(shards, Least(shards, groups)) + 2
  }

  lemma MostHasShard(shards: seq<Gid>, groups: set<Gid>)
    requires groups != {} && Uneven(shards, groups)
    ensures Most(shards, groups) in shards
  {
    LoadBound(shards, Most(shards, groups));
  }

  /** One move: the most loaded group's first shard goes to the least loaded group. */
  ghost function MoveOne(shards: seq<Gid>, groups: set<Gid>): (r: seq<Gid>)
    requires groups != {} && Uneven(shards, groups)
    ensures |r| == |shards|
  {
    MostHasShard(shards, groups);
    shards[First(shards, Most(shards, groups)) := Least(shards, groups)]
  }

  function Square(x: int): int { x * x }

  ghost function SquaredLoads(shards: seq<Gid>): Gid -> int {
    g => Square(Load(shards, g))
  }

  /** Sum of squared loads. */
  ghost function Energy(shards: seq<Gid>, groups: set<Gid>): int {
    Sum(Listing(groups), SquaredLoads(shards))
  }

  lemma {:induction false} SquaresNatural(shards: seq<Gid>, xs: seq<Gid>)
    ensures Sum(xs, SquaredLoads(shards)) >= 0
  {
    if xs != [] {
      SquaresNatural(shards, xs[1..]);
    }
  }

  lemma EnergyNatural(shards: seq<Gid>, groups: set<Gid>)
    ensures Energy(shards, groups) >= 0
  {
    SquaresNatural(shards, Listing(groups));
  }

  lemma SquaresDrop(a: int, b: int)
    requires a >= b + 2
    ensures Square(a - 1) + Square(b + 1) <= Square(a) + Square(b) - 2
  {
    assert (a - 1) * (a - 1) == a * a - 2 * a + 1;
    assert (b + 1) * (b + 1) == b * b + 2 * b + 1;
  }

  /** A move takes one shard from the most loaded group and gives it to the least loaded one. */
  lemma MoveLoads(shards: seq<Gid>, groups: set<Gid>, g: Gid)
    requires groups != {} && Uneven(shards, groups)
    ensures Load(MoveOne(shards, groups), g) ==
            Load(shards, g) - (if g == Most(shards, groups) then 1 else 0) + (if g == Least(shards, groups) then 1 else 0)
  {
    MostHasShard(shards, groups);
    LoadUpdate(shards, First(shards, Most(shards, groups)), Least(shards, groups), g);
  }

  lemma MoveLowersSum(shards: seq<Gid>, groups: set<Gid>, xs: seq<Gid>)
    requires groups != {} && Uneven(shards, groups)
    requires NoDuplicates(xs) && forall x :: x in xs <==> x in groups
    ensures Sum(xs, SquaredLoads(MoveOne(shards, groups))) <= Sum(xs, SquaredLoads(shards)) - 2
  {
    var m, l := Most(shards, groups), Least(shards, groups);
    var f, f' := SquaredLoads(shards), SquaredLoads(MoveOne(shards, groups));
    forall g | g in xs && g != m && g != l ensures f'(g) == f(g) {
      MoveLoads(shards, groups, g);
    }
    MoveLoads(shards, groups, m);
    MoveLoads(shards, groups, l);
    SumChangeTwo(xs, f, f', m, l);
    SquaresDrop(Load(shards, m), Load(shards, l));
  }

  /** Each move lowers the sum of squared loads by at least two. */
  lemma MoveLowersEnergy(shards: seq<Gid>, groups: set<Gid>)
    requires groups != {} && Uneven(shards, groups)
    ensures Energy(MoveOne(shards, groups), groups) <= Energy(shards, groups) - 2
  {
    MoveLowersSum(shards, groups, Listing(groups));
  }

  ghost function Level(shards: seq<Gid>, groups: set<Gid>): (r: seq<Gid>)
    requires groups != {}
    ensures |r| == |shards|
    decreases Energy(shards, groups)
  {
    if Uneven(shards, groups) then
      MoveLowersEnergy(shards, groups);
      EnergyNatural(MoveOne(shards, groups), groups);
      Level(MoveOne(shards, groups), groups)
    else shards
  }

  ghost function Rebalance(shards: seq<Gid>, groups: set<Gid>): (r: seq<Gid>)
    ensures |r| == |shards|
  {
    if groups == {} then seq(|shards|, _ => 0) else Level(AssignFrom(shards, groups, 0), groups)
  }

  // ---------------------------------------------------------------- givers and receivers

  /** What holds while rebalancing `orig` into `cur`, with `gave` and `got` the groups that have so far given and
      received shards: no group is both; whoever received is within one of the least loaded, whoever gave
      within one of the most loaded, and no receiver is above a giver. */
  ghost predicate Fair(orig: seq<Gid>, cur: seq<Gid>, groups: set<Gid>, gave: set<Gid>, got: set<Gid>) {
    && |orig| == |cur| && gave <= groups && got <= groups && gave !! got
    && (forall s :: 0 <= s < |orig| && cur[s] != orig[s] ==> cur[s] in got && (orig[s] in gave || orig[s] !in groups))
    && (forall r, h :: r in got && h in groups ==> Load(cur, r) <= Load(cur, h) + 1)
    && (forall g, h :: g in gave && h in groups ==> Load(cur, h) <= Load(cur, g) + 1)
    && (forall g, r :: g in gave && r in got ==> Load(cur, r) <= Load(cur, g))
  }

  lemma {:induction false} AssignFair(orig: seq<Gid>, cur: seq<Gid>, groups: set<Gid>, got: set<Gid>, i: nat)
    returns (got': set<Gid>)
    requires groups != {} && Fair(orig, cur, groups, {}, got) && i <= |cur|
    requires forall s :: 0 <= s < i ==> cur[s] in groups
    requires forall s :: i <= s < |cur| ==> cur[s] == orig[s]
    ensures var r := AssignFrom(cur, groups, i); Fair(orig, r, groups, {}, got') && AllIn(r, groups)
    decreases |cur| - i
  {
    if i == |cur| {
      got' := got;
    } else if cur[i] in groups {
      got' := AssignFair(orig, cur, groups, got, i + 1);
    } else {
      var l := Least(cur, groups);
      var next := cur[i := l];
      forall g ensures Load(next, g) == Load(cur, g) - (if g == cur[i] then 1 else 0) + (if g == l then 1 else 0) {
        LoadUpdate(cur, i, l, g);
      }
      got' := AssignFair(orig, next, groups, got + {l}, i + 1);
    }
  }

  lemma MoveFair(orig: seq<Gid>, cur: seq<Gid>, groups: set<Gid>, gave: set<Gid>, got: set<Gid>)
    requires groups != {} && Fair(orig, cur, groups, gave, got) && AllIn(cur, groups) && Uneven(cur, groups)
    ensures Most(cur, groups) !in got && Least(cur, groups) !in gave
    ensures var next := MoveOne(cur, groups);
            AllIn(next, groups) && Fair(orig, next, groups, gave + {Most(cur, groups)}, got + {Least(cur, groups)})
  {
    var m, l := Most(cur, groups), Least(cur, groups);
    var next := MoveOne(cur, groups);
    forall g ensures Load(next, g) == Load(cur, g) - (if g == m then 1 else 0) + (if g == l then 1 else 0) {
      MoveLoads(cur, groups, g);
    }
  }

  lemma {:induction false} LevelFair(orig: seq<Gid>, cur: seq<Gid>, groups: set<Gid>, gave: set<Gid>, got: set<Gid>)
    returns (gave': set<Gid>, got': set<Gid>)
    requires groups != {} && Fair(orig, cur, groups, gave, got) && AllIn(cur, groups)
    ensures var r := Level(cur, groups); Fair(orig, r, groups, gave', got') && Balanced(r, groups)
    decreases Energy(cur, groups)
  {
    if Uneven(cur, groups) {
      MoveFair(orig, cur, groups, gave, got);
      MoveLowersEnergy(cur, groups);
      EnergyNatural(MoveOne(cur, groups), groups);
      gave', got' := LevelFair(orig, MoveOne(cur, groups), groups,
                               gave + {Most(cur, groups)}, got + {Least(cur, groups)});
    } else {
      gave', got' := gave, got;
    }
  }

  lemma RebalanceFair(orig: seq<Gid>, groups: set<Gid>) returns (gave: set<Gid>, got: set<Gid>)
    requires groups != {}
    ensures Fair(orig, Rebalance(orig, groups), groups, gave, got)
    ensures Balanced(Rebalance(orig, groups), groups)
  {
    var first := AssignFair(orig, orig, groups, {}, 0);
    gave, got := LevelFair(orig, AssignFrom(orig, groups, 0), groups, {}, first);
  }

  // ---------------------------------------------------------------- the moves one by one

  datatype Move = Move(shard: nat, from: Gid, to: Gid)

  /** The moves of the levelling phase, in order. */
  ghost function Moves(shards: seq<Gid>, groups: set<Gid>): seq<Move>
    requires groups != {}
    decreases Energy(shards, groups)
  {
    if Uneven(shards, groups) then
      MostHasShard(shards, groups);
      MoveLowersEnergy(shards, groups);
      EnergyNatural(MoveOne(shards, groups), groups);
      var m := Most(shards, groups);
      [Move(First(shards, m), m, Least(shards, groups))] + Moves(MoveOne(shards, groups), groups)
    else []
  }

  /** Moves from `cur`, given the groups that gave or got before: every source still has the shard it gives, never
      got one, and is no target; every target never gave; no shard moves twice. */
  ghost predicate OneWay(cur: seq<Gid>, ms: seq<Move>, gave: set<Gid>, got: set<Gid>) {
    && (forall i :: 0 <= i < |ms| ==>
          && ms[i].shard < |cur| && cur[ms[i].shard] == ms[i].from
          && ms[i].from !in got && ms[i].to !in gave)
    && (forall i, j :: 0 <= i < |ms| && 0 <= j < |ms| ==> ms[i].from != ms[j].to)
    && (forall i, j :: 0 <= i < j < |ms| ==> ms[i].shard != ms[j].shard)
  }

  lemma OneWayCons(cur: seq<Gid>, s: nat, l: Gid, rest: seq<Move>, gave: set<Gid>, got: set<Gid>)
    requires s < |cur| && cur[s] !in got && l !in gave && l != cur[s]
    requires OneWay(cur[s := l], rest, gave + {cur[s]}, got + {l})
    ensures OneWay(cur, [Move(s, cur[s], l)] + rest, gave, got)
  {
    var ms := [Move(s, cur[s], l)] + rest;
    assert forall i :: 0 < i < |ms| ==> ms[i] == rest[i - 1];
    forall i | 0 <= i < |rest| ensures rest[i].shard != s && rest[i].to != cur[s] && rest[i].from != l {
      assert cur[s := l][rest[i].shard] == rest[i].from;
    }
  }

  lemma {:induction false} MovesOneWay(orig: seq<Gid>, cur: seq<Gid>, groups: set<Gid>, gave: set<Gid>, got: set<Gid>)
    requires groups != {} && Fair(orig, cur, groups, gave, got) && AllIn(cur, groups)
    ensures OneWay(cur, Moves(cur, groups), gave, got)
    decreases Energy(cur, groups)
  {
    if Uneven(cur, groups) {
      var m, l, next := Most(cur, groups), Least(cur, groups), MoveOne(cur, groups);
      MoveFair(orig, cur, groups, gave, got);
      MoveLowersEnergy(cur, groups);
      EnergyNatural(next, groups);
      MovesOneWay(orig, next, groups, gave + {m}, got + {l});
      MostHasShard(cur, groups);
      OneWayCons(cur, First(cur, m), l, Moves(next, groups), gave, got);
    }
  }

  /** Rebalancing never makes a group both give and receive, and moves a shard at most once: the levelling moves
      have distinct shards and no group as both source and target, and their sources took no unassigned shard. */
  lemma GroupsGiveOrReceive(orig: seq<Gid>, groups: set<Gid>)
    requires groups != {}
    ensures var start := AssignFrom(orig, groups, 0);
            var ms := Moves(start, groups);
            && (forall i, j :: 0 <= i < |ms| && 0 <= j < |ms| ==> ms[i].from != ms[j].to)
            && (forall i, j :: 0 <= i < j < |ms| ==> ms[i].shard != ms[j].shard)
            && (forall i, s :: 0 <= i < |ms| && 0 <= s < |orig| && start[s] != orig[s] ==> ms[i].from != start[s])
  {
    var got := AssignFair(orig, orig, groups, {}, 0);
    MovesOneWay(orig, AssignFrom(orig, groups, 0), groups, {}, got);
  }

  /** The moves, carried out, are what levelling does. */
  function Carry(shards: seq<Gid>, ms: seq<Move>): seq<Gid>
    requires forall i :: 0 <= i < |ms| ==> ms[i].shard < |shards|
    decreases |ms|
  {
    if ms == [] then shards else Carry(shards[ms[0].shard := ms[0].to], ms[1..])
  }

  lemma {:induction false} MovesLevel(shards: seq<Gid>, groups: set<Gid>)
    requires groups != {}
    ensures forall i :: 0 <= i < |Moves(shards, groups)| ==> Moves(shards, groups)[i].shard < |shards|
    ensures Carry(shards, Moves(shards, groups)) == Level(shards, groups)
    decreases Energy(shards, groups)
  {
    if Uneven(shards, groups) {
      MoveLowersEnergy(shards, groups);
      EnergyNatural(MoveOne(shards, groups), groups);
      MovesLevel(MoveOne(shards, groups), groups);
      MostHasShard(shards, groups);
      assert Moves(shards, groups)[1..] == Moves(MoveOne(shards, groups), groups);
    }
  }
}
