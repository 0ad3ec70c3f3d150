/**
 * The statistics dashboard: per-horse counts and win rate, the ranking by wins, the
 * grouping of horses by owner, the most recent results, races per month and the
 * performance tier of a win rate.
 */
module Statistics {
  import opened Wrappers
  import opened Seqs
  import opened Domain
  import opened Store
  import opened ObjectKeys

  function OwnerOf(h: Horse): string {
    h.ownerId
  }

  function OwnerIds(horses: seq<Horse>): seq<string> {
    Distinct(Map(horses, OwnerOf))
  }

  /** `totalOwners`: the distinct owner ids, counted. */
  function TotalOwners(horses: seq<Horse>): (n: nat)
    ensures n <= |horses|
  {
    |OwnerIds(horses)|
  }

  lemma TotalOwnersIsDistinctCount(horses: seq<Horse>)
    ensures TotalOwners(horses) == |set i | 0 <= i < |horses| :: horses[i].ownerId|
  {
    var d := OwnerIds(horses);
    var m := Map(horses, OwnerOf);
    NoDupCardinality(d);
    assert Elements(d) == set i | 0 <= i < |horses| :: horses[i].ownerId by {
      forall x | x in Elements(d) ensures x in set i | 0 <= i < |horses| :: horses[i].ownerId {
        var i :| 0 <= i < |d| && d[i] == x;
        assert d[i] in d;
        var j :| 0 <= j < |m| && m[j] == x;
      }
      forall x | x in set i | 0 <= i < |horses| :: horses[i].ownerId ensures x in Elements(d) {
        var j :| 0 <= j < |horses| && horses[j].ownerId == x;
        assert m[j] == x;
        assert m[j] in m;
        var i :| 0 <= i < |d| && d[i] == x;
      }
    }
  }

  /** A horse's row in the statistics, from the stored results. */
  datatype HorseStat = HorseStat(horse: Horse, actualWins: nat, podiums: nat, winRate: real, participations: nat)

  function ResultHorseIs(horseId: string): RaceResult -> bool {
    (r: RaceResult) => r.horseId == horseId
  }

  function IsWin(r: RaceResult): bool {
    r.position == 1
  }

  function IsPodium(r: RaceResult): bool {
    r.position <= 3
  }

  /** A result that is a win of the given horse. */
  function WinOf(horseId: string): RaceResult -> bool {
    (r: RaceResult) => r.horseId == horseId && r.position == 1
  }

  /** A result that puts the given horse on the podium. */
  function PodiumOf(horseId: string): RaceResult -> bool {
    (r: RaceResult) => r.horseId == horseId && r.position <= 3
  }

  /** The win rate against the horse's stored race counter, as an exact ratio. */
  function WinRate(wins: int, races: int): (rate: real)
    ensures races <= 0 ==> rate == 0.0
    ensures races > 0 ==> rate * races as real == wins as real * 100.0
    ensures 0 <= wins ==> rate >= 0.0
    ensures 0 <= wins <= races ==> rate <= 100.0
  {
    if races > 0 then wins as real / races as real * 100.0 else 0.0
  }

  /** One entry of `horseStats`. */
  function StatOf(results: seq<RaceResult>, horse: Horse): (st: HorseStat)
    ensures st.horse == horse
    ensures st.actualWins <= st.podiums <= st.participations
    ensures st.participations == |Filter(results, ResultHorseIs(horse.id))|
    ensures st.actualWins == |Filter(results, WinOf(horse.id))|
    ensures st.podiums == |Filter(results, PodiumOf(horse.id))|
    ensures st.winRate == WinRate(st.actualWins, horse.races)
  {
    var own := Filter(results, ResultHorseIs(horse.id));
    var wins := Filter(own, IsWin);
    var podiums := Filter(own, IsPodium);
    FilterWeaker(own, IsWin, IsPodium);
    FilterFilter(results, ResultHorseIs(horse.id), IsWin, WinOf(horse.id));
    FilterFilter(results, ResultHorseIs(horse.id), IsPodium, PodiumOf(horse.id));
    HorseStat(horse, |wins|, |podiums|, WinRate(|wins|, horse.races), |own|)
  }

  function StatFor(results: seq<RaceResult>): Horse -> HorseStat {
    (h: Horse) => StatOf(results, h)
  }

  function ActualWins(st: HorseStat): int {
    st.actualWins
  }

  /** `horseStats`: every horse's entry, most wins first. */
  function HorseStats(horses: seq<Horse>, results: seq<RaceResult>): (ranked: seq<HorseStat>)
    ensures |ranked| == |horses|
    ensures forall i :: 0 <= i < |ranked| ==>
      ranked[i].horse in horses && ranked[i] == StatOf(results, ranked[i].horse)
  {
    var entries := Map(horses, StatFor(results));
    SortByPermutes(entries, Negated(ActualWins));
    MultisetMembers(SortDescBy(entries, ActualWins), entries);
    EntriesOfHorses(horses, results);
    SortDescBy(entries, ActualWins)
  }

  /** Each entry of the map is its horse's statistics. */
  lemma EntriesOfHorses(horses: seq<Horse>, results: seq<RaceResult>)
    ensures forall st :: st in Map(horses, StatFor(results)) ==> st.horse in horses && st == StatOf(results, st.horse)
  {
    var entries := Map(horses, StatFor(results));
    forall st | st in entries ensures st.horse in horses && st == StatOf(results, st.horse) {
      var k :| 0 <= k < |entries| && entries[k] == st;
      assert st == StatOf(results, horses[k]);
    }
  }

  /** The ranking is a reordering of the horses' entries. */
  lemma HorseStatsPermutes(horses: seq<Horse>, results: seq<RaceResult>)
    ensures multiset(HorseStats(horses, results)) == multiset(Map(horses, StatFor(results)))
  {
    SortByPermutes(Map(horses, StatFor(results)), Negated(ActualWins));
  }

  /** The ranking puts more wins first. */
  lemma HorseStatsByWins(horses: seq<Horse>, results: seq<RaceResult>)
    ensures var ranked := HorseStats(horses, results);
      forall i, j :: 0 <= i < j < |ranked| ==> ranked[i].actualWins >= ranked[j].actualWins
  {
    SortDescNonIncreasing(Map(horses, StatFor(results)), ActualWins);
  }

  /** Horses with equal wins keep their store order. */
  lemma HorseStatsStable(horses: seq<Horse>, results: seq<RaceResult>, k: int)
    ensures Filter(HorseStats(horses, results), KeyIs(ActualWins, k)) ==
            Filter(Map(horses, StatFor(results)), KeyIs(ActualWins, k))
  {
    SortDescStable(Map(horses, StatFor(results)), ActualWins, k);
  }

  /** `topHorses`: the first five of the ranking, or all of them. */
  function TopHorses(horses: seq<Horse>, results: seq<RaceResult>): (top: seq<HorseStat>)
    ensures |top| == if |horses| < 5 then |horses| else 5
    ensures top == HorseStats(horses, results)[..|top|]
  {
    Take(HorseStats(horses, results), 5)
  }

  /** One owner's entry in `ownerStats`. */
  datatype OwnerStat = OwnerStat(ownerName: string, ownerId: string, horses: seq<Horse>, totalWins: int, totalRaces: int)

  function SumWins(hs: seq<Horse>): int {
    if hs == [] then 0 else SumWins(hs[..|hs| - 1]) + hs[|hs| - 1].wins
  }

  function SumRaces(hs: seq<Horse>): int {
    if hs == [] then 0 else SumRaces(hs[..|hs| - 1]) + hs[|hs| - 1].races
  }

  /** The owner's horses in store order, collected horse by horse. */
  function OwnedHorses(horses: seq<Horse>, ownerId: string): seq<Horse> {
    if horses == [] then []
    else
      var n := |horses| - 1;
      OwnedHorses(horses[..n], ownerId) + (if horses[n].ownerId == ownerId then [horses[n]] else [])
  }

  lemma OwnedHorsesSnoc(init: seq<Horse>, h: Horse, ownerId: string)
    ensures OwnedHorses(init + [h], ownerId) == OwnedHorses(init, ownerId) + (if h.ownerId == ownerId then [h] else [])
  {
    assert (init + [h])[..|init|] == init;
  }

  /** Exactly the owner's horses, each taken from the store. */
  lemma {:induction false} OwnedHorsesMembers(horses: seq<Horse>, ownerId: string)
    ensures var own := OwnedHorses(horses, ownerId);
      && |own| <= |horses|
      && (forall i :: 0 <= i < |own| ==> own[i] in horses && own[i].ownerId == ownerId)
      && (forall i :: 0 <= i < |horses| && horses[i].ownerId == ownerId ==> horses[i] in own)
  {
    if horses != [] {
      var n := |horses| - 1;
      OwnedHorsesMembers(horses[..n], ownerId);
      assert horses == horses[..n] + [horses[n]];
      OwnedHorsesSnoc(horses[..n], horses[n], ownerId);
      var own := OwnedHorses(horses, ownerId);
      forall i | 0 <= i < |horses| && horses[i].ownerId == ownerId ensures horses[i] in own {
        if i < n {
          assert horses[..n][i] == horses[i];
        }
      }
    }
  }

  lemma {:induction false} OwnedHorsesNone(horses: seq<Horse>, ownerId: string)
    requires forall i :: 0 <= i < |horses| ==> horses[i].ownerId != ownerId
    ensures OwnedHorses(horses, ownerId) == []
  {
    if horses != [] {
      OwnedHorsesNone(horses[..|horses| - 1], ownerId);
    }
  }

  /**
   * The group of one owner: its horses in store order, the sums of their stored win
   * and race counters, and the owner name of its first horse.
   */
  function GroupOf(horses: seq<Horse>, ownerId: string): OwnerStat {
    GroupFrom(OwnedHorses(horses, ownerId), ownerId)
  }

  /** The group made of the given horses, named after the first one's owner. */
  function GroupFrom(own: seq<Horse>, ownerId: string): OwnerStat {
    OwnerStat(if own == [] then "" else own[0].ownerName, ownerId, own, SumWins(own), SumRaces(own))
  }

  /** A group holds exactly its owner's horses, and its totals are their counters summed. */
  lemma GroupMembers(horses: seq<Horse>, ownerId: string)
    ensures var g := GroupOf(horses, ownerId);
      && g.ownerId == ownerId
      && (forall i :: 0 <= i < |g.horses| ==> g.horses[i] in horses && g.horses[i].ownerId == ownerId)
      && (forall i :: 0 <= i < |horses| && horses[i].ownerId == ownerId ==> horses[i] in g.horses)
      && g.totalWins == SumWins(g.horses) && g.totalRaces == SumRaces(g.horses)
  {
    OwnedHorsesMembers(horses, ownerId);
  }

  function GroupFor(horses: seq<Horse>): string -> OwnerStat {
    (o: string) => GroupOf(horses, o)
  }

  /** The groups of `ownerStats` in the order they were created: by each owner's first horse. */
  function OwnerGroups(horses: seq<Horse>): seq<OwnerStat> {
    Map(OwnerIds(horses), GroupFor(horses))
  }

  /** Every horse's owner has a group. */
  lemma HorsesHaveGroups(horses: seq<Horse>, groups: seq<OwnerStat>)
    requires groups == OwnerGroups(horses)
    ensures forall i :: 0 <= i < |horses| ==> exists g :: g in groups && g.ownerId == horses[i].ownerId
  {
    var ids := OwnerIds(horses);
    forall i | 0 <= i < |horses| ensures exists g :: g in groups && g.ownerId == horses[i].ownerId {
      assert Map(horses, OwnerOf)[i] == horses[i].ownerId;
      assert Map(horses, OwnerOf)[i] in Map(horses, OwnerOf);
      var k :| 0 <= k < |ids| && ids[k] == horses[i].ownerId;
      assert groups[k].ownerId == horses[i].ownerId;
    }
  }

  /** Every group is named after the owner of some horse. */
  lemma GroupsHaveHorses(horses: seq<Horse>, groups: seq<OwnerStat>)
    requires groups == OwnerGroups(horses)
    ensures forall k :: 0 <= k < |groups| ==> exists i :: 0 <= i < |horses| && horses[i].ownerId == groups[k].ownerId
  {
    var ids := OwnerIds(horses);
    forall k | 0 <= k < |groups| ensures exists i :: 0 <= i < |horses| && horses[i].ownerId == groups[k].ownerId {
      assert ids[k] in ids;
      var j :| 0 <= j < |horses| && Map(horses, OwnerOf)[j] == ids[k];
      assert horses[j].ownerId == groups[k].ownerId;
    }
  }

  /** No owner has two groups. */
  lemma GroupsDistinct(horses: seq<Horse>, groups: seq<OwnerStat>)
    requires groups == OwnerGroups(horses)
    ensures forall i, j :: 0 <= i < j < |groups| ==> groups[i].ownerId != groups[j].ownerId
  {
    var ids := OwnerIds(horses);
    assert forall k :: 0 <= k < |groups| ==> groups[k].ownerId == ids[k];
  }

  /** One group per distinct owner, and no owner twice. */
  lemma OwnerGroupsCoverOwners(horses: seq<Horse>)
    ensures var groups := OwnerGroups(horses);
      && (forall i :: 0 <= i < |horses| ==> exists g :: g in groups && g.ownerId == horses[i].ownerId)
      && (forall k :: 0 <= k < |groups| ==> exists i :: 0 <= i < |horses| && horses[i].ownerId == groups[k].ownerId)
      && (forall i, j :: 0 <= i < j < |groups| ==> groups[i].ownerId != groups[j].ownerId)
  {
    HorsesHaveGroups(horses, OwnerGroups(horses));
    GroupsHaveHorses(horses, OwnerGroups(horses));
    GroupsDistinct(horses, OwnerGroups(horses));
  }

  function OwnerIdOf(g: OwnerStat): string {
    g.ownerId
  }

  /**
   * `Object.values(ownerStats)`: the groups in the object's key order, so owner ids that
   * are array indices come first and ascending, and the others in order of first horse.
   */
  function OwnerValues(horses: seq<Horse>): seq<OwnerStat> {
    PropertyOrder(OwnerGroups(horses), OwnerIdOf)
  }

  /** The listing holds the same groups, numeric owner ids first and ascending, the rest by first horse. */
  lemma OwnerValuesSpec(horses: seq<Horse>)
    ensures var v := OwnerValues(horses);
      && multiset(v) == multiset(OwnerGroups(horses))
      && (forall i, j :: 0 <= i < j < |v| && IsArrayIndex(v[j].ownerId) ==> IsArrayIndex(v[i].ownerId))
      && (forall i, j :: 0 <= i < j < |v| && IsArrayIndex(v[i].ownerId) && IsArrayIndex(v[j].ownerId) ==>
            DecimalValue(v[i].ownerId) <= DecimalValue(v[j].ownerId))
      && Filter(v, NotIndexKey(OwnerIdOf)) == Filter(OwnerGroups(horses), NotIndexKey(OwnerIdOf))
  {
    PropertyOrderSpec(OwnerGroups(horses), OwnerIdOf);
  }

  /** The number of horses in the groups of the listed owners, added up. */
  function SizeSum(horses: seq<Horse>, ids: seq<string>): int {
    if ids == [] then 0 else SizeSum(horses, ids[..|ids| - 1]) + |GroupOf(horses, ids[|ids| - 1]).horses|
  }

  /** One more horse adds one to the size sum exactly when its owner is listed once. */
  lemma {:induction false} SizeSumSnoc(horses: seq<Horse>, h: Horse, ids: seq<string>)
    requires NoDup(ids)
    ensures SizeSum(horses + [h], ids) == SizeSum(horses, ids) + (if h.ownerId in ids then 1 else 0)
  {
    if ids != [] {
      var n := |ids| - 1;
      var init := ids[..n];
      assert NoDup(init);
      SizeSumSnoc(horses, h, init);
      OwnedHorsesSnoc(horses, h, ids[n]);
      assert h.ownerId in ids <==> h.ownerId in init || h.ownerId == ids[n] by {
        assert ids == init + [ids[n]];
      }
      if h.ownerId == ids[n] {
        assert h.ownerId !in init;
      }
    }
  }

  lemma SizeSumFresh(horses: seq<Horse>, ids: seq<string>, o: string)
    ensures SizeSum(horses, ids + [o]) == SizeSum(horses, ids) + |GroupOf(horses, o).horses|
  {
    assert (ids + [o])[..|ids|] == ids;
  }

  /** The owner groups partition the horses: the group sizes add up to the number of horses. */
  lemma {:induction false} GroupSizesSum(horses: seq<Horse>)
    ensures SizeSum(horses, OwnerIds(horses)) == |horses|
  {
    if horses != [] {
      var n := |horses| - 1;
      var init, h := horses[..n], horses[n];
      assert horses == init + [h];
      GroupSizesSum(init);
      SizeSumGrows(init, h);
    }
  }

  /** One more horse adds one to the size sum over the owners. */
  lemma SizeSumGrows(init: seq<Horse>, h: Horse)
    ensures SizeSum(init + [h], OwnerIds(init + [h])) == SizeSum(init, OwnerIds(init)) + 1
  {
    var ids := OwnerIds(init);
    OwnerIdsSnoc(init, h);
    SizeSumSnoc(init, h, ids);
    if h.ownerId !in ids {
      SizeSumFresh(init + [h], ids, h.ownerId);
      FirstHorseOfOwner(init, h);
    }
  }

  /** A horse whose owner has no earlier horse forms a group of its own. */
  lemma FirstHorseOfOwner(init: seq<Horse>, h: Horse)
    requires forall i :: 0 <= i < |init| ==> init[i].ownerId != h.ownerId
    ensures |GroupOf(init + [h], h.ownerId).horses| == 1
  {
    OwnedHorsesNone(init, h.ownerId);
    OwnedHorsesSnoc(init, h, h.ownerId);
  }

  /** The group a horse opens for its owner, before the horse is added to it. */
  function NewGroup(h: Horse): OwnerStat {
    OwnerStat(h.ownerName, h.ownerId, [], 0, 0)
  }

  /** `push` of the horse and `+=` of its counters. */
  function AddToGroup(g: OwnerStat, h: Horse): OwnerStat {
    g.(horses := g.horses + [h], totalWins := g.totalWins + h.wins, totalRaces := g.totalRaces + h.races)
  }

  lemma OwnerIdsSnoc(init: seq<Horse>, h: Horse)
    ensures h.ownerId in OwnerIds(init) <==> exists i :: 0 <= i < |init| && init[i].ownerId == h.ownerId
    ensures OwnerIds(init + [h]) ==
      if h.ownerId in OwnerIds(init) then OwnerIds(init) else OwnerIds(init) + [h.ownerId]
  {
    var m := Map(init, OwnerOf);
    assert Map(init + [h], OwnerOf) == m + [h.ownerId];
    DistinctSnoc(m, h.ownerId);
    if exists i :: 0 <= i < |init| && init[i].ownerId == h.ownerId {
      var i :| 0 <= i < |init| && init[i].ownerId == h.ownerId;
      assert m[i] == h.ownerId;
    }
    if h.ownerId in m {
      var i :| 0 <= i < |m| && m[i] == h.ownerId;
      assert init[i].ownerId == h.ownerId;
    }
  }

  /** Another owner's group is unaffected by one more horse. */
  lemma GroupOfOther(init: seq<Horse>, h: Horse, o: string)
    requires o != h.ownerId
    ensures GroupOf(init + [h], o) == GroupOf(init, o)
  {
    OwnedHorsesSnoc(init, h, o);
    assert OwnedHorses(init + [h], o) == OwnedHorses(init, o) + [];
    assert OwnedHorses(init, o) + [] == OwnedHorses(init, o);
  }

  lemma SumsSnoc(hs: seq<Horse>, h: Horse)
    ensures SumWins(hs + [h]) == SumWins(hs) + h.wins
    ensures SumRaces(hs + [h]) == SumRaces(hs) + h.races
  {
    assert (hs + [h])[..|hs|] == hs;
  }

  /** Adding a horse to a non-empty group keeps its name and adds the horse's counters. */
  lemma GroupFromSnoc(own: seq<Horse>, h: Horse, ownerId: string)
    requires own != []
    ensures GroupFrom(own + [h], ownerId) == AddToGroup(GroupFrom(own, ownerId), h)
  {
    SumsSnoc(own, h);
    assert (own + [h])[0] == own[0];
  }

  lemma GroupGrows(init: seq<Horse>, h: Horse)
    requires OwnedHorses(init, h.ownerId) != []
    ensures GroupOf(init + [h], h.ownerId) == AddToGroup(GroupOf(init, h.ownerId), h)
  {
    OwnedHorsesSnoc(init, h, h.ownerId);
    GroupFromSnoc(OwnedHorses(init, h.ownerId), h, h.ownerId);
  }

  lemma GroupOpens(init: seq<Horse>, h: Horse)
    requires OwnedHorses(init, h.ownerId) == []
    ensures GroupOf(init + [h], h.ownerId) == AddToGroup(NewGroup(h), h)
  {
    OwnedHorsesSnoc(init, h, h.ownerId);
    SumsSnoc([], h);
  }

  /** The owner's group grows by the horse: an existing one, or a new one named after this horse's owner. */
  lemma GroupOfOwn(init: seq<Horse>, h: Horse)
    ensures GroupOf(init + [h], h.ownerId) ==
      AddToGroup(if h.ownerId in OwnerIds(init) then GroupOf(init, h.ownerId) else NewGroup(h), h)
  {
    OwnerIdsSnoc(init, h);
    if h.ownerId in OwnerIds(init) {
      var i :| 0 <= i < |init| && init[i].ownerId == h.ownerId;
      OwnedHorsesMembers(init, h.ownerId);
      assert init[i] in OwnedHorses(init, h.ownerId);
      GroupGrows(init, h);
    } else {
      OwnedHorsesNone(init, h.ownerId);
      GroupOpens(init, h);
    }
  }

  /** The dictionary holds, for each owner seen so far, the group of the horses seen so far. */
  ghost predicate GroupsSoFar(seen: seq<Horse>, acc: map<string, OwnerStat>, order: seq<string>) {
    && order == OwnerIds(seen)
    && (forall o :: o in acc <==> o in order)
    && (forall o :: o in acc ==> acc[o] == GroupOf(seen, o))
  }

  /** One step of the `reduce`: open the owner's group if it is missing, then add the horse to it. */
  function Step(acc: map<string, OwnerStat>, h: Horse): map<string, OwnerStat> {
    var ready := if h.ownerId in acc then acc else acc[h.ownerId := NewGroup(h)];
    ready[h.ownerId := AddToGroup(ready[h.ownerId], h)]
  }

  /** The owners in the order their groups were opened, after one step. */
  function StepOrder(acc: map<string, OwnerStat>, order: seq<string>, h: Horse): seq<string> {
    if h.ownerId in acc then order else order + [h.ownerId]
  }

  /** A step opens a group exactly for an owner not seen before. */
  lemma StepKeys(seen: seq<Horse>, h: Horse, acc: map<string, OwnerStat>, order: seq<string>)
    requires order == OwnerIds(seen) && forall o :: o in acc <==> o in order
    ensures StepOrder(acc, order, h) == OwnerIds(seen + [h])
    ensures forall o :: o in Step(acc, h) <==> o in StepOrder(acc, order, h)
  {
    OwnerIdsSnoc(seen, h);
  }

  /** A step adds the horse to its owner's group and leaves the other groups alone. */
  lemma StepValues(seen: seq<Horse>, h: Horse, acc: map<string, OwnerStat>)
    requires h.ownerId in acc <==> h.ownerId in OwnerIds(seen)
    requires forall o :: o in acc ==> acc[o] == GroupOf(seen, o)
    ensures forall o :: o in Step(acc, h) ==> Step(acc, h)[o] == GroupOf(seen + [h], o)
  {
    var next := Step(acc, h);
    GroupOfOwn(seen, h);
    forall o | o in next
      ensures next[o] == GroupOf(seen + [h], o)
    {
      if o != h.ownerId {
        GroupOfOther(seen, h, o);
      }
    }
  }

  lemma StepKeepsGroups(seen: seq<Horse>, h: Horse, seenNext: seq<Horse>, acc: map<string, OwnerStat>, order: seq<string>)
    requires GroupsSoFar(seen, acc, order) && seenNext == seen + [h]
    ensures GroupsSoFar(seenNext, Step(acc, h), StepOrder(acc, order, h))
  {
    StepKeys(seen, h, acc, order);
    StepValues(seen, h, acc);
  }

  /** Reading the finished dictionary in insertion order gives the groups in creation order. */
  lemma ReadInOrder(horses: seq<Horse>, acc: map<string, OwnerStat>, order: seq<string>)
    requires GroupsSoFar(horses, acc, order)
    ensures seq(|order|, i requires 0 <= i < |order| => acc[order[i]]) == OwnerGroups(horses)
  {
    var groups := seq(|order|, i requires 0 <= i < |order| => acc[order[i]]);
    forall i | 0 <= i < |order| ensures groups[i] == OwnerGroups(horses)[i] {
      assert order[i] in order;
    }
  }

  /** The dictionary after the `reduce` has seen these horses, step by step. */
  function GroupsMap(seen: seq<Horse>): map<string, OwnerStat>
    decreases |seen|
  {
    if seen == [] then map[] else Step(GroupsMap(seen[..|seen| - 1]), seen[|seen| - 1])
  }

  /** The owners in the order the `reduce` opened their groups. */
  function GroupsOrder(seen: seq<Horse>): seq<string>
    decreases |seen|
  {
    if seen == [] then []
    else
      var init := seen[..|seen| - 1];
      StepOrder(GroupsMap(init), GroupsOrder(init), seen[|seen| - 1])
  }

  /** After any prefix, the dictionary holds exactly the groups of the horses seen, opened in order of first horse. */
  lemma {:induction false} GroupsMapHolds(seen: seq<Horse>)
    ensures GroupsOrder(seen) == OwnerIds(seen)
    ensures GroupsSoFar(seen, GroupsMap(seen), GroupsOrder(seen))
  {
    if seen != [] {
      var n := |seen| - 1;
      var init := seen[..n];
      GroupsMapHolds(init);
      assert seen == init + [seen[n]];
      StepKeepsGroups(init, seen[n], seen, GroupsMap(init), GroupsOrder(init));
    }
  }

  /**
   * `ownerStats` with `reduce`, then `Object.values`: a dictionary of groups filled horse by
   * horse, listed in the object's key order.
   */
  method ComputeOwnerStats(horses: seq<Horse>) returns (groups: seq<OwnerStat>)
    ensures groups == OwnerValues(horses)
  {
    var acc: map<string, OwnerStat> := map[];
    var order: seq<string> := [];
    var k := 0;
    while k < |horses|
      invariant 0 <= k <= |horses|
      invariant acc == GroupsMap(horses[..k]) && order == GroupsOrder(horses[..k])
    {
      var h := horses[k];
      assert horses[..k + 1][..k] == horses[..k];
      if h.ownerId !in acc {
        acc := acc[h.ownerId := NewGroup(h)];
        order := order + [h.ownerId];
      }
      acc := acc[h.ownerId := AddToGroup(acc[h.ownerId], h)];
      k := k + 1;
    }
    assert horses[..k] == horses;
    GroupsMapHolds(horses);
    ReadInOrder(horses, acc, order);
    var created := seq(|order|, i requires 0 <= i < |order| => acc[order[i]]);
    groups := PropertyOrder(created, OwnerIdOf);
  }

  function TotalWinsOf(g: OwnerStat): int {
    g.totalWins
  }

  /** `topOwners`: the five owners with the most wins (stable on ties), or all of them. */
  function TopOwners(horses: seq<Horse>): (top: seq<OwnerStat>)
    ensures |top| == if |OwnerGroups(horses)| < 5 then |OwnerGroups(horses)| else 5
    ensures top == SortDescBy(OwnerValues(horses), TotalWinsOf)[..|top|]
    ensures forall i, j :: 0 <= i < j < |top| ==> top[i].totalWins >= top[j].totalWins
  {
    SortDescNonIncreasing(OwnerValues(horses), TotalWinsOf);
    Take(SortDescBy(OwnerValues(horses), TotalWinsOf), 5)
  }

  lemma TwoOwnerGroups(a: Horse, b: Horse)
    requires a.ownerId == "6" && b.ownerId == "3"
    ensures OwnerGroups([a, b]) == [GroupFrom([a], "6"), GroupFrom([b], "3")]
  {
    assert Map([a, b], OwnerOf) == ["6", "3"];
    assert ["6", "3"][..1] == ["6"] && ["6"][..0] == [];
    assert "3" != "6" by { assert "3"[0] != "6"[0]; }
    assert OwnerIds([a, b]) == ["6", "3"];
    assert [a, b][..1] == [a] && [a][..0] == [];
    assert OwnedHorses([a], "6") == [a] && OwnedHorses([a], "3") == [];
    assert OwnedHorses([a, b], "6") == OwnedHorses([a], "6");
    assert OwnedHorses([a, b], "3") == OwnedHorses([a], "3") + [b];
  }

  /**
   * Owners tied on wins are ranked in the object's key order, not in order of first
   * horse: with owner '6''s horse stored before owner '3''s, owner '3' is listed first.
   */
  lemma TiedOwnersInKeyOrder(a: Horse, b: Horse)
    requires a.ownerId == "6" && b.ownerId == "3" && a.wins == b.wins
    ensures TopOwners([a, b]) == [GroupFrom([b], "3"), GroupFrom([a], "6")]
  {
    var g6, g3 := GroupFrom([a], "6"), GroupFrom([b], "3");
    TwoOwnerGroups(a, b);
    SmallIndexRanks();
    var rank := RankBy(OwnerIdOf);
    assert rank(g6) == KeyRank(OwnerIdOf(g6)) && rank(g3) == KeyRank(OwnerIdOf(g3));
    assert [g6, g3][..1] == [g6] && [g6][..0] == [];
    assert SortBy([g6], rank) == [g6];
    assert InsertLast([g6], g3, rank) == InsertLast([], g3, rank) + [g6];
    assert OwnerValues([a, b]) == [g3, g6];
    assert [g3, g6][..1] == [g3] && [g3][..0] == [];
    assert SumWins([a]) == a.wins && SumWins([b]) == b.wins by {
      assert [a][..0] == [] && [b][..0] == [];
    }
    var desc := Negated(TotalWinsOf);
    assert desc(g3) == -TotalWinsOf(g3);
    assert desc(g6) == -TotalWinsOf(g6);
    assert SortBy([g3], desc) == [g3];
    assert InsertLast([g3], g6, desc) == [g3, g6];
    assert SortDescBy([g3, g6], TotalWinsOf) == [g3, g6];
  }

  /**
   * `recentResults`: sorts the store's own results newest first (the sort is in place,
   * so the store's order changes) and takes the first ten. `createdAt` gives a result's time.
   */
  method RecentResults(store: DataStore, createdAt: RaceResult -> int) returns (recent: seq<RaceResult>)
    modifies store
    ensures store.results == SortDescBy(old(store.results), createdAt)
    ensures recent == Take(store.results, 10)
    ensures store.horses == old(store.horses) && store.races == old(store.races)
    ensures store.notifications == old(store.notifications)
  {
    var sorted := SortedCopy(store.results, Negated(createdAt));
    store.results := sorted;
    recent := Take(sorted, 10);
  }

  /** The recent list: at most ten results, newest first, taken from a reordering of all results. */
  lemma RecentResultsSpec(results: seq<RaceResult>, createdAt: RaceResult -> int)
    ensures var sorted := SortDescBy(results, createdAt);
      var recent := Take(sorted, 10);
      && multiset(sorted) == multiset(results)
      && |recent| == (if |results| < 10 then |results| else 10)
      && (forall i, j :: 0 <= i < j < |recent| ==> createdAt(recent[i]) >= createdAt(recent[j]))
  {
    SortByPermutes(results, Negated(createdAt));
    SortDescNonIncreasing(results, createdAt);
  }

  function MonthIs(monthOf: Race -> string, month: string): Race -> bool {
    (r: Race) => monthOf(r) == month
  }

  /** The counts so far: one entry per month seen, holding how many of the races seen fall in it. */
  ghost predicate CountsSoFar(seen: seq<Race>, monthOf: Race -> string, counts: map<string, nat>) {
    && (forall m :: m in counts <==> exists i :: 0 <= i < |seen| && monthOf(seen[i]) == m)
    && (forall m :: m in counts ==> counts[m] == |Filter(seen, MonthIs(monthOf, m))|)
  }

  /** The count update of one `reduce` step: the month's count starts at one or goes up by one. */
  function CountStep(counts: map<string, nat>, month: string): map<string, nat> {
    counts[month := (if month in counts then counts[month] else 0) + 1]
  }

  /** A step adds exactly the race's month to the months seen. */
  lemma CountKeys(seen: seq<Race>, race: Race, seenNext: seq<Race>, monthOf: Race -> string, counts: map<string, nat>)
    requires forall m :: m in counts <==> exists i :: 0 <= i < |seen| && monthOf(seen[i]) == m
    requires seenNext == seen + [race]
    ensures forall m :: m in CountStep(counts, monthOf(race)) <==>
      exists i :: 0 <= i < |seenNext| && monthOf(seenNext[i]) == m
  {
    var next := CountStep(counts, monthOf(race));
    forall m ensures m in next <==> exists i :: 0 <= i < |seenNext| && monthOf(seenNext[i]) == m {
      if m == monthOf(race) {
        assert seenNext[|seen|] == race;
      } else if m in next {
        var i :| 0 <= i < |seen| && monthOf(seen[i]) == m;
        assert seenNext[i] == seen[i];
      }
      if exists i :: 0 <= i < |seenNext| && monthOf(seenNext[i]) == m {
        var i :| 0 <= i < |seenNext| && monthOf(seenNext[i]) == m;
        if i < |seen| {
          assert seenNext[i] == seen[i];
        }
      }
    }
  }

  /** A step keeps every count equal to the number of races seen in its month. */
  lemma CountValues(seen: seq<Race>, race: Race, seenNext: seq<Race>, monthOf: Race -> string, counts: map<string, nat>)
    requires CountsSoFar(seen, monthOf, counts) && seenNext == seen + [race]
    ensures var next := CountStep(counts, monthOf(race));
      forall m :: m in next ==> next[m] == |Filter(seenNext, MonthIs(monthOf, m))|
  {
    var month := monthOf(race);
    var next := CountStep(counts, month);
    forall m | m in next ensures next[m] == |Filter(seenNext, MonthIs(monthOf, m))| {
      FilterSnoc(seen, race, MonthIs(monthOf, m));
      if m == month && month !in counts {
        FilterNoMonth(seen, monthOf, month);
      }
    }
  }

  /** One step of the `reduce` keeps the counts right. */
  lemma StepKeepsCounts(seen: seq<Race>, race: Race, seenNext: seq<Race>, monthOf: Race -> string,
                        counts: map<string, nat>)
    requires CountsSoFar(seen, monthOf, counts) && seenNext == seen + [race]
    ensures CountsSoFar(seenNext, monthOf, CountStep(counts, monthOf(race)))
  {
    CountKeys(seen, race, seenNext, monthOf, counts);
    CountValues(seen, race, seenNext, monthOf, counts);
  }

  lemma FilterNoMonth(seen: seq<Race>, monthOf: Race -> string, month: string)
    requires forall i :: 0 <= i < |seen| ==> monthOf(seen[i]) != month
    ensures Filter(seen, MonthIs(monthOf, month)) == []
  {
    FilterNone(seen, MonthIs(monthOf, month));
  }

  /** The month counts after the `reduce` has seen these races, step by step. */
  function CountsMap(seen: seq<Race>, monthOf: Race -> string): map<string, nat>
    decreases |seen|
  {
    if seen == [] then map[]
    else
      CountStep(CountsMap(seen[..|seen| - 1], monthOf), monthOf(seen[|seen| - 1]))
  }

  /** After any prefix, each month seen is counted once per race in it. */
  lemma {:induction false} CountsMapHolds(seen: seq<Race>, monthOf: Race -> string)
    ensures CountsSoFar(seen, monthOf, CountsMap(seen, monthOf))
  {
    if seen != [] {
      var n := |seen| - 1;
      CountsMapHolds(seen[..n], monthOf);
      assert seen == seen[..n] + [seen[n]];
      StepKeepsCounts(seen[..n], seen[n], seen, monthOf, CountsMap(seen[..n], monthOf));
    }
  }

  /** The month labels in the order the `reduce` first met them. */
  function MonthsMet(seen: seq<Race>, monthOf: Race -> string): seq<string> {
    Distinct(Map(seen, monthOf))
  }

  /** Meeting one more race adds its month at the end, unless that month was met before. */
  lemma MonthsMetSnoc(seen: seq<Race>, race: Race, seenNext: seq<Race>, monthOf: Race -> string)
    requires seenNext == seen + [race]
    ensures MonthsMet(seenNext, monthOf) ==
      if monthOf(race) in MonthsMet(seen, monthOf) then MonthsMet(seen, monthOf)
      else MonthsMet(seen, monthOf) + [monthOf(race)]
  {
    var m := Map(seenNext, monthOf);
    assert m[..|m| - 1] == Map(seen, monthOf);
  }

  /** One step of the `reduce` counts the race and, the first time its month comes up, lists the month. */
  lemma CountStepMeetsMonth(races: seq<Race>, k: nat, monthOf: Race -> string)
    requires k < |races|
    ensures var month, counts := monthOf(races[k]), CountsMap(races[..k], monthOf);
      && CountsMap(races[..k + 1], monthOf) == CountStep(counts, month)
      && MonthsMet(races[..k + 1], monthOf) ==
           if month in counts then MonthsMet(races[..k], monthOf) else MonthsMet(races[..k], monthOf) + [month]
  {
    var seen := races[..k];
    assert races[..k + 1] == seen + [races[k]];
    assert races[..k + 1][..k] == seen;
    MonthsMetSnoc(seen, races[k], races[..k + 1], monthOf);
    CountsMapHolds(seen, monthOf);
    var month := monthOf(races[k]);
    if month in MonthsMet(seen, monthOf) {
      var i :| 0 <= i < |seen| && Map(seen, monthOf)[i] == month;
    }
    if exists i :: 0 <= i < |seen| && monthOf(seen[i]) == month {
      var i :| 0 <= i < |seen| && monthOf(seen[i]) == month;
      assert Map(seen, monthOf)[i] in Map(seen, monthOf);
    }
  }

  /**
   * `racesByMonth`: how many races fall in each month label (`monthOf` renders a race's
   * month), and `months`, the labels in the order `Object.entries` lists them.
   */
  method CountRacesByMonth(races: seq<Race>, monthOf: Race -> string) returns (counts: map<string, nat>, months: seq<string>)
    ensures forall m :: m in counts <==> exists i :: 0 <= i < |races| && monthOf(races[i]) == m
    ensures forall m :: m in counts ==> counts[m] == |Filter(races, MonthIs(monthOf, m))|
    ensures months == PropertyOrder(MonthsMet(races, monthOf), Itself)
  {
    counts := map[];
    var created: seq<string> := [];
    var k := 0;
    while k < |races|
      invariant 0 <= k <= |races|
      invariant counts == CountsMap(races[..k], monthOf)
      invariant created == MonthsMet(races[..k], monthOf)
    {
      var month := monthOf(races[k]);
      CountStepMeetsMonth(races, k, monthOf);
      if month !in counts {
        created := created + [month];
      }
      counts := counts[month := (if month in counts then counts[month] else 0) + 1];
      k := k + 1;
    }
    assert races[..k] == races;
    CountsMapHolds(races, monthOf);
    months := PropertyOrder(created, Itself);
  }

  /**
   * The listed months are exactly the months of the races, each once; numeric labels come
   * first and ascending, and the others in the order of their first race.
   */
  lemma MonthEntriesSpec(races: seq<Race>, monthOf: Race -> string)
    ensures var months := PropertyOrder(MonthsMet(races, monthOf), Itself);
      && (forall m :: m in months <==> exists i :: 0 <= i < |races| && monthOf(races[i]) == m)
      && (forall i, j :: 0 <= i < j < |months| ==> months[i] != months[j])
      && (forall i, j :: 0 <= i < j < |months| && IsArrayIndex(months[j]) ==> IsArrayIndex(months[i]))
      && Filter(months, NotIndexKey(Itself)) == Filter(MonthsMet(races, monthOf), NotIndexKey(Itself))
  {
    var met := MonthsMet(races, monthOf);
    var months := PropertyOrder(met, Itself);
    PropertyOrderSpec(met, Itself);
    forall m ensures m in months <==> exists i :: 0 <= i < |races| && monthOf(races[i]) == m {
      assert m in months <==> m in multiset(met);
      if m in met {
        var i :| 0 <= i < |races| && Map(races, monthOf)[i] == m;
      }
      if exists i :: 0 <= i < |races| && monthOf(races[i]) == m {
        var i :| 0 <= i < |races| && monthOf(races[i]) == m;
        assert Map(races, monthOf)[i] in Map(races, monthOf);
      }
    }
    NoDupPermutation(met, months);
  }

  datatype Tier = Excellent | VeryGood | Good | Average

  /** `getPerformanceLevel`. */
  function TierOf(winRate: real): (t: Tier)
    ensures t == Excellent <==> winRate >= 70.0
    ensures t == VeryGood <==> 50.0 <= winRate < 70.0
    ensures t == Good <==> 30.0 <= winRate < 50.0
    ensures t == Average <==> winRate < 30.0
  {
    if winRate >= 70.0 then Excellent
    else if winRate >= 50.0 then VeryGood
    else if winRate >= 30.0 then Good
    else Average
  }

  function TierRank(t: Tier): nat {
    match t
    case Average => 0
    case Good => 1
    case VeryGood => 2
    case Excellent => 3
  }

  /** A higher win rate never gives a lower tier. */
  lemma TierMonotone(a: real, b: real)
    requires a <= b
    ensures TierRank(TierOf(a)) <= TierRank(TierOf(b))
  {
  }

  /** Seed horse '1': one win over 20 recorded races is a 5% win rate, an average tier. */
  lemma SeedHorseOneIsAverage()
    ensures StatOf(SeedResults, SeedHorses[0]).actualWins == 1
    ensures StatOf(SeedResults, SeedHorses[0]).winRate == 5.0
    ensures TierOf(StatOf(SeedResults, SeedHorses[0]).winRate) == Average
  {
    var own := Filter(SeedResults, ResultHorseIs("1"));
    assert own == [SeedResults[0]];
    assert Filter(own, IsWin) == [SeedResults[0]];
  }
}
