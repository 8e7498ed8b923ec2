/** The shard configuration object: its methods work in place on the shard table and the group map.
    A Go map is iterated in an arbitrary order, modelled by picking any remaining key. */
module ShardConfig {
  import opened Sums
  import opened ShardBalance
  import opened ShardMinimal

  /** log.Fatalf ends the process. */
  datatype Outcome = Returned(ok: bool) | Fatal

  type Groups = map<Gid, seq<string>>

  predicate Increasing(xs: seq<Gid>) {
    forall i, j :: 0 <= i < j < |xs| ==> xs[i] < xs[j]
  }

  function Insert(x: Gid, xs: seq<Gid>): (r: seq<Gid>)
    requires Increasing(xs) && x !in xs
    ensures Increasing(r) && forall y :: y in r <==> y == x || y in xs
  {
    if xs == [] || x <= xs[0] then [x] + xs
    else
      var rest := Insert(x, xs[1..]);
      assert xs == [xs[0]] + xs[1..];
      assert forall i :: 0 <= i < |rest| ==> rest[i] == x || rest[i] in xs[1..];
      [xs[0]] + rest
  }

  function Sort(xs: seq<Gid>): (r: seq<Gid>)
    requires NoDuplicates(xs)
    ensures Increasing(r) && forall y :: y in r <==> y in xs
  {
    if xs == [] then [] else Insert(xs[0], Sort(xs[1..]))
  }

  /** Some element: what the next step of a map iteration may yield. */
  method Any<T>(s: set<T>) returns (x: T)
    requires s != {}
    ensures x in s
  {
    x :| x in s;
  }

  lemma LeastUnique(shards: seq<Gid>, groups: set<Gid>, g: Gid)
    requires groups != {} && IsLeast(shards, groups, g)
    ensures g == Least(shards, groups)
  {
  }

  lemma MostUnique(shards: seq<Gid>, groups: set<Gid>, g: Gid)
    requires groups != {} && IsMost(shards, groups, g)
    ensures g == Most(shards, groups)
  {
  }

  /** The running maximum over the groups seen so far, in increasing order. */
  ghost predicate MostOf(shards: seq<Gid>, seen: seq<Gid>, mg: Gid, mn: int) {
    if seen == [] then mg == -1 && mn == -1
    else mg in seen && mn == Load(shards, mg) && forall g :: g in seen ==>
           Load(shards, g) < mn || (Load(shards, g) == mn && mg <= g)
  }

  /** The running minimum; 257 is more than any load. */
  ghost predicate LeastOf(shards: seq<Gid>, seen: seq<Gid>, lg: Gid, ln: int) {
    if seen == [] then lg == -1 && ln == 257
    else lg in seen && ln == Load(shards, lg) && forall g :: g in seen ==>
           Load(shards, g) > ln || (Load(shards, g) == ln && lg <= g)
  }

  lemma MostNext(shards: seq<Gid>, seen: seq<Gid>, g: Gid, mg: Gid, mn: int)
    requires MostOf(shards, seen, mg, mn) && forall h :: h in seen ==> h < g
    ensures var c := Load(shards, g);
            MostOf(shards, seen + [g], if c > mn then g else mg, if c > mn then c else mn)
  {
  }

  lemma LeastNext(shards: seq<Gid>, seen: seq<Gid>, g: Gid, lg: Gid, ln: int)
    requires |shards| < 257 && LeastOf(shards, seen, lg, ln) && forall h :: h in seen ==> h < g
    ensures var c := Load(shards, g);
            LeastOf(shards, seen + [g], if c < ln then g else lg, if c < ln then c else ln)
  {
    LoadBound(shards, g);
  }

  lemma ScanEnds(shards: seq<Gid>, gs: seq<Gid>, groups: set<Gid>, mg: Gid, mn: int, lg: Gid, ln: int)
    requires MostOf(shards, gs, mg, mn) && LeastOf(shards, gs, lg, ln) && forall g :: g in gs <==> g in groups
    ensures groups == {} ==> mg == -1 && mn == -1 && lg == -1 && ln == 257
    ensures groups != {} ==>
              && IsMost(shards, groups, mg) && mn == Load(shards, mg)
              && IsLeast(shards, groups, lg) && ln == Load(shards, lg)
  {
    if groups != {} {
      assert Least(shards, groups) in gs;
    }
    assert gs != [] ==> mg in groups && lg in groups;
  }

  lemma FirstIs(shards: seq<Gid>, g: Gid, s: nat)
    requires s < |shards| && shards[s] == g && g !in shards[..s]
    ensures First(shards, g) == s
  {
    var f := First(shards, g);
    assert forall i :: 0 <= i < s ==> shards[i] == shards[..s][i];
    assert forall i :: 0 <= i < f ==> shards[i] == shards[..f][i];
  }

  /** Two server lists have a server in common. */
  predicate Share(a: seq<string>, b: seq<string>) {
    exists s :: s in a && s in b
  }

  /** No server of a joining group is already in another group of the configuration or of the same Join. */
  ghost predicate ServersDistinct(groups: Groups, joining: Groups) {
    && (forall g, h :: g in joining && h in groups && g != h ==> !Share(groups[h], joining[g]))
    && (forall g, h :: g in joining && h in joining && g != h ==> !Share(joining[h], joining[g]))
  }

  /** `now` is `was` with the groups of `joining` other than those in `rest` added, all of them new and disjoint. */
  ghost predicate Added(was: Groups, now: Groups, joining: Groups, rest: set<Gid>) {
    && now.Keys == was.Keys + (joining.Keys - rest)
    && was.Keys !! joining.Keys - rest
    && (forall g :: g in was ==> now[g] == was[g])
    && (forall g :: g in joining && g !in rest ==> now[g] == joining[g])
    && (forall g, h :: g in joining && g !in rest && h in now && h != g ==> !Share(now[h], joining[g]))
  }

  lemma AddOne(was: Groups, now: Groups, joining: Groups, rest: set<Gid>, gid: Gid)
    requires Added(was, now, joining, rest) && gid in rest && rest <= joining.Keys && gid !in now
    requires forall x :: x in now ==> !Share(now[x], joining[gid])
    ensures Added(was, now[gid := joining[gid]], joining, rest - {gid})
  {
    var next := now[gid := joining[gid]];
    forall g, h | g in joining && g !in rest - {gid} && h in next && h != g ensures !Share(next[h], joining[g]) {
      if h == gid {
        assert g in now && now[g] == joining[g] && !Share(now[g], joining[gid]);
      }
    }
  }

  lemma AddedAll(was: Groups, now: Groups, joining: Groups)
    requires Added(was, now, joining, {})
    ensures now == was + joining && joining.Keys !! was.Keys && ServersDistinct(was, joining)
  {
    var sum := was + joining;
    assert joining.Keys - {} == joining.Keys;
    assert now.Keys == sum.Keys;
    forall g | g in now ensures now[g] == sum[g] {
      assert g in joining || g in was;
    }
    assert now == sum;
  }

  /** A server shared with what is there by now is shared with the old configuration or among the joining groups. */
  lemma SharedRefuses(was: Groups, now: Groups, joining: Groups, rest: set<Gid>, gid: Gid, x: Gid)
    requires Added(was, now, joining, rest) && gid in rest && rest <= joining.Keys && x in now && x != gid
    requires Share(now[x], joining[gid])
    ensures !ServersDistinct(was, joining)
  {
    assert if x in was then now[x] == was[x] else now[x] == joining[x];
  }

  /** A clash with what is there by now is a clash with the old configuration or among the joining groups. */
  lemma ClashRefuses(was: Groups, now: Groups, joining: Groups, rest: set<Gid>, gid: Gid, x: Gid)
    requires Added(was, now, joining, rest) && gid in rest && rest <= joining.Keys && x in now
    requires x == gid || Share(now[x], joining[gid])
    ensures !(joining.Keys !! was.Keys && ServersDistinct(was, joining))
  {
  }

  class ShardConfig {
    var num: int
    const shards: array<Gid>
    var groups: Groups

    ghost predicate Valid()
      reads this
    {
      shards.Length < 257
    }

    constructor (n: nat)
      requires n < 257
      ensures Valid() && num == 0 && groups == map[] && fresh(shards) && shards[..] == seq(n, _ => 0)
    {
      num, groups := 0, map[];
      shards := new Gid[n](_ => 0);
    }

    method Counts() returns (counts: map<Gid, nat>)
      ensures forall g :: Load(shards[..], g) == if g in counts then counts[g] else 0
    {
      counts := map[];
      for i := 0 to shards.Length
        invariant forall g :: Load(shards[..i], g) == if g in counts then counts[g] else 0
      {
        var g := shards[i];
        assert shards[..i + 1] == shards[..i] + [g];
        forall h ensures Load(shards[..i + 1], h) == Load(shards[..i], h) + (if h == g then 1 else 0) {
          LoadAppend(shards[..i], [g], h);
        }
        counts := counts[g := (if g in counts then counts[g] else 0) + 1];
      }
      assert shards[..shards.Length] == shards[..];
    }

    /** Each member group once, in increasing order, from whatever order the map yields them. */
    method SortedGroups() returns (gs: seq<Gid>)
      ensures Increasing(gs) && forall g :: g in gs <==> g in groups
    {
      var rest := groups.Keys;
      gs := [];
      while rest != {}
        invariant rest <= groups.Keys && NoDuplicates(gs)
        invariant forall g :: g in gs <==> g in groups && g !in rest
        decreases |rest|
      {
        var k := Any(rest);
        gs := gs + [k];
        rest := rest - {k};
      }
      gs := Sort(gs);
    }

    /** Most and least loaded group with their loads; ties go to the smallest id, so the answer does not depend
        on the order of map iteration. */
    method Analyze() returns (mg: Gid, mn: int, lg: Gid, ln: int)
      requires Valid()
      ensures groups == map[] ==> mg == -1 && mn == -1 && lg == -1 && ln == 257
      ensures groups != map[] ==>
                && IsMost(shards[..], groups.Keys, mg) && mn == Load(shards[..], mg)
                && IsLeast(shards[..], groups.Keys, lg) && ln == Load(shards[..], lg)
    {
      ghost var table := shards[..];
      var counts := Counts();
      var gs := SortedGroups();
      mn, mg, ln, lg := -1, -1, 257, -1;
      for i := 0 to |gs|
        invariant MostOf(table, gs[..i], mg, mn) && LeastOf(table, gs[..i], lg, ln)
      {
        var g := gs[i];
        var c := if g in counts then counts[g] else 0;
        assert c == Load(table, g);
        MostNext(table, gs[..i], g, mg, mn);
        LeastNext(table, gs[..i], g, lg, ln);
        assert gs[..i + 1] == gs[..i] + [g];
        if c < ln {
          ln, lg := c, g;
        }
        if c > mn {
          mn, mg := c, g;
        }
      }
      assert gs[..|gs|] == gs;
      ScanEnds(table, gs, groups.Keys, mg, mn, lg, ln);
    }

    method LeastLoaded() returns (lg: Gid)
      requires Valid()
      ensures groups == map[] ==> lg == -1
      ensures groups != map[] ==> groups.Keys != {} && lg == Least(shards[..], groups.Keys)
    {
      var mg, mn, ln;
      mg, mn, lg, ln := Analyze();
      if groups != map[] {
        assert groups.Keys != {};
        LeastUnique(shards[..], groups.Keys, lg);
      }
    }

    /** Hand the first shard of group mg to lg. */
    method MoveFirst(mg: Gid, lg: Gid)
      requires mg in shards[..]
      modifies shards
      ensures shards[..] == old(shards[..])[First(old(shards[..]), mg) := lg]
    {
      ghost var was := shards[..];
      var s := 0;
      while shards[s] != mg
        invariant 0 <= s < shards.Length && mg in was[s..] && mg !in was[..s]
        decreases shards.Length - s
      {
        assert was[s..] == [was[s]] + was[s + 1..];
        assert was[..s + 1] == was[..s] + [was[s]];
        s := s + 1;
      }
      shards[s] := lg;
      FirstIs(was, mg, s);
      assert shards[..] == was[s := lg];
    }

    /** Assign the unassigned, then level; terminates because each move lowers the sum of squared loads. */
    method Rebalance()
      requires Valid()
      modifies shards
      ensures shards[..] == ShardBalance.Rebalance(old(shards[..]), groups.Keys)
    {
      if |groups| < 1 {
        for s := 0 to shards.Length
          invariant forall k :: 0 <= k < s ==> shards[k] == 0
        {
          shards[s] := 0;
        }
        assert shards[..] == seq(shards.Length, _ => 0);
        return;
      }
      ghost var keys, was := groups.Keys, shards[..];
      assert keys != {};
      AssignUnassigned();
      while true
        invariant Level(shards[..], keys) == ShardBalance.Rebalance(was, keys)
        decreases Energy(shards[..], keys)
      {
        var mg, mn, lg, ln := Analyze();
        MostUnique(shards[..], keys, mg);
        LeastUnique(shards[..], keys, lg);
        if mn < ln + 2 {
          break;
        }
        ghost var before := shards[..];
        MoveLowersEnergy(before, keys);
        EnergyNatural(before, keys);
        EnergyNatural(MoveOne(before, keys), keys);
        MostHasShard(before, keys);
        MoveFirst(mg, lg);
        assert shards[..] == MoveOne(before, keys);
      }
    }

    method AssignUnassigned()
      requires Valid() && groups != map[]
      modifies shards
      ensures groups.Keys != {} && shards[..] == AssignFrom(old(shards[..]), groups.Keys, 0)
    {
      ghost var keys, was := groups.Keys, shards[..];
      assert keys != {};
      for s := 0 to shards.Length
        invariant AssignFrom(shards[..], keys, s) == AssignFrom(was, keys, 0)
        invariant forall k :: s <= k < shards.Length ==> shards[k] == was[k]
      {
        if shards[s] !in groups {
          ghost var before := shards[..];
          var lg := LeastLoaded();
          shards[s] := lg;
          assert shards[..] == before[s := lg];
        }
      }
    }

    /** Add groups. True exactly when there is something to add, every id is new and no server is shared; a failure
        may leave some of the groups added. */
    method Join(servers: Groups) returns (o: Outcome)
      modifies this`num, this`groups
      ensures o == Returned(true) <==>
                servers != map[] && servers.Keys !! old(groups.Keys) && ServersDistinct(old(groups), servers)
      ensures o == Returned(true) ==> groups == old(groups) + servers && num == old(num) + 1
      ensures o != Returned(true) ==> num == old(num) && old(groups.Keys) <= groups.Keys <= old(groups.Keys) + servers.Keys
      ensures servers == map[] ==> o == Fatal
      ensures o == Fatal && servers != map[] ==> !ServersDistinct(old(groups), servers)
      ensures o == Returned(false) ==> !(servers.Keys !! old(groups.Keys))
    {
      var rest := servers.Keys;
      var changed := false;
      while rest != {}
        invariant rest <= servers.Keys && num == old(num) && (changed <==> rest != servers.Keys)
        invariant Added(old(groups), groups, servers, rest)
        decreases |rest|
      {
        var gid := Any(rest);
        if gid in groups {
          ClashRefuses(old(groups), groups, servers, rest, gid, gid);
          return Returned(false);
        }
        if exists x :: x in groups && Share(groups[x], servers[gid]) {
          ghost var x :| x in groups && Share(groups[x], servers[gid]);
          ClashRefuses(old(groups), groups, servers, rest, gid, x);
          SharedRefuses(old(groups), groups, servers, rest, gid, x);
          return Fatal;
        }
        AddOne(old(groups), groups, servers, rest, gid);
        groups := groups[gid := servers[gid]];
        rest := rest - {gid};
        changed := true;
      }
      if !changed {
        return Fatal;
      }
      AddedAll(old(groups), groups, servers);
      num := num + 1;
      return Returned(true);
    }

    /** Remove groups. True exactly when the list is not empty, has no repetition and names members only; a failure
        may leave some of the groups removed. */
    method Leave(gids: seq<Gid>) returns (o: Outcome)
      modifies this`num, this`groups
      ensures o == Returned(true) <==>
                gids != [] && NoDuplicates(gids) && forall g :: g in gids ==> g in old(groups)
      ensures o == Returned(true) ==> groups == old(groups) - (set g | g in gids) && num == old(num) + 1
      ensures o != Returned(true) ==> num == old(num) && groups.Keys <= old(groups.Keys)
      ensures o == Fatal <==> gids == []
    {
      var changed := false;
      for i := 0 to |gids|
        invariant num == old(num) && groups == old(groups) - (set g | g in gids[..i])
        invariant NoDuplicates(gids[..i]) && forall g :: g in gids[..i] ==> g in old(groups)
        invariant changed <==> i > 0
      {
        var gid := gids[i];
        assert gids[..i + 1] == gids[..i] + [gid];
        if gid !in groups {
          if gid in gids[..i] {
            var k :| 0 <= k < i && gids[k] == gid;
            assert gids[k] == gids[i];
          }
          return Returned(false);
        }
        groups := groups - {gid};
        changed := true;
      }
      assert gids[..|gids|] == gids;
      if !changed {
        return Fatal;
      }
      num := num + 1;
      return Returned(true);
    }

    /** Join, then rebalance. From a balanced configuration only the joined groups receive shards. */
    method JoinBalance(servers: Groups) returns (o: Outcome)
      requires Valid()
      modifies this`num, this`groups, shards
      ensures Valid()
      ensures o != Returned(true) ==> shards[..] == old(shards[..]) && num == old(num)
      ensures o == Returned(true) ==>
                && groups == old(groups) + servers && num == old(num) + 1
                && shards[..] == ShardBalance.Rebalance(old(shards[..]), groups.Keys)
                && Balanced(shards[..], groups.Keys)
      ensures o == Returned(true) && old(Balanced(shards[..], groups.Keys)) ==>
                forall s :: 0 <= s < shards.Length && shards[s] != old(shards[s]) ==> shards[s] in servers
    {
      ghost var was, members := shards[..], groups.Keys;
      o := Join(servers);
      if o != Returned(true) {
        return;
      }
      Rebalance();
      assert groups.Keys == members + servers.Keys;
      var _, _ := RebalanceFair(was, groups.Keys);
      if Balanced(was, members) {
        forall s: nat | s < shards.Length ensures shards[s] != was[s] ==> shards[s] in servers {
          JoinMovesOntoNew(was, members, servers.Keys, s);
        }
      }
    }

    /** Leave, then rebalance. From a balanced configuration only the shards of the departed groups move. */
    method LeaveBalance(gids: seq<Gid>) returns (o: Outcome)
      requires Valid()
      modifies this`num, this`groups, shards
      ensures Valid()
      ensures o != Returned(true) ==> shards[..] == old(shards[..]) && num == old(num)
      ensures o == Returned(true) ==>
                && groups == old(groups) - (set g | g in gids) && num == old(num) + 1
                && shards[..] == ShardBalance.Rebalance(old(shards[..]), groups.Keys)
                && (groups != map[] ==> Balanced(shards[..], groups.Keys))
                && (groups == map[] ==> forall s :: 0 <= s < shards.Length ==> shards[s] == 0)
      ensures o == Returned(true) && old(Balanced(shards[..], groups.Keys)) ==>
                forall s :: 0 <= s < shards.Length && shards[s] != old(shards[s]) ==> old(shards[s]) in gids
    {
      ghost var was, members, left := shards[..], groups.Keys, set g | g in gids;
      o := Leave(gids);
      if o != Returned(true) {
        return;
      }
      Rebalance();
      assert groups.Keys == members - left;
      if groups != map[] {
        assert groups.Keys != {};
        var _, _ := RebalanceFair(was, groups.Keys);
      }
      assert forall g :: g in left ==> g in members;
      if Balanced(was, members) {
        forall s: nat | s < shards.Length ensures shards[s] != was[s] ==> was[s] in gids {
          LeaveMovesOnlyDeparted(was, members, left, s);
        }
      }
    }
  }
}
