/** The round-robin choice of the active claims, `_build_claim_ledger`. */
module FairActivation {
  import opened CouncilTypes

  /** The claims at position `k` of each participant's own order, in participant order. */
  function Level(orders: seq<seq<Claim>>, k: nat): seq<Claim> {
    if orders == [] then [] else
      var last := orders[|orders| - 1];
      Level(orders[..|orders| - 1], k) + if k < |last| then [last[k]] else []
  }

  /** The first `k` levels, one after the other. */
  function Levels(orders: seq<seq<Claim>>, k: nat): seq<Claim> {
    if k == 0 then [] else Levels(orders, k - 1) + Level(orders, k - 1)
  }

  function Longest(orders: seq<seq<Claim>>): (n: nat)
    ensures forall i :: 0 <= i < |orders| ==> |orders[i]| <= n
  {
    if orders == [] then 0 else
      var n := Longest(orders[..|orders| - 1]);
      if |orders[|orders| - 1]| > n then |orders[|orders| - 1]| else n
  }

  function Total(orders: seq<seq<Claim>>): nat {
    if orders == [] then 0 else Total(orders[..|orders| - 1]) + |orders[|orders| - 1]|
  }

  function Take(s: seq<Claim>, n: nat): seq<Claim> {
    if |s| <= n then s else s[..n]
  }

  /** The active claims: the round-robin order cut at the ceiling. */
  function Activated(orders: seq<seq<Claim>>, ceiling: nat): seq<Claim> {
    Take(Levels(orders, Longest(orders)), ceiling)
  }

  /** All claims, participant by participant. */
  function Raw(orders: seq<seq<Claim>>): seq<Claim> {
    if orders == [] then [] else Raw(orders[..|orders| - 1]) + orders[|orders| - 1]
  }

  predicate Distinct(orders: seq<seq<Claim>>) {
    forall i, k, j, m | 0 <= i < |orders| && 0 <= k < |orders[i]| && 0 <= j < |orders| && 0 <= m < |orders[j]| ::
      orders[i][k].id == orders[j][m].id ==> i == j && k == m
  }

  predicate Active(orders: seq<seq<Claim>>, ceiling: nat, i: nat, k: nat)
    requires i < |orders| && k < |orders[i]|
  {
    orders[i][k] in Activated(orders, ceiling)
  }

  /** The loop of the broker: level after level, participant after participant, until the
      ceiling is reached or a level adds nothing. */
  method Activate(orders: seq<seq<Claim>>, ceiling: nat) returns (active: seq<Claim>)
    ensures active == Activated(orders, ceiling)
  {
    active := [];
    var index := 0;
    var progressed := true;
    while |active| < ceiling && progressed
      invariant active == Take(Levels(orders, index), ceiling)
      invariant !progressed ==> 0 < index && Level(orders, index - 1) == [] && |active| < ceiling
      decreases ceiling - |active|, progressed
    {
      active, progressed := ActivateLevel(orders, ceiling, index, Levels(orders, index), active);
      index := index + 1;
    }
    if |active| < ceiling {
      EmptyLevel(orders, index - 1);
    }
    LevelsGrow(orders, index, Longest(orders));
  }

  /** One pass over the participants. */
  method ActivateLevel(
    orders: seq<seq<Claim>>, ceiling: nat, index: nat, ghost before: seq<Claim>, start: seq<Claim>)
    returns (active: seq<Claim>, progressed: bool)
    requires start == Take(before, ceiling) && |start| < ceiling
    ensures active == Take(before + Level(orders, index), ceiling)
    ensures progressed <==> Level(orders, index) != []
    ensures progressed <==> |active| > |start|
  {
    active, progressed := start, false;
    for i := 0 to |orders|
      invariant active == Take(before + Level(orders[..i], index), ceiling)
      invariant progressed <==> Level(orders[..i], index) != []
      invariant progressed <==> |active| > |start|
    {
      assert orders[..i + 1][..i] == orders[..i];
      TakeOneMore(before + Level(orders[..i], index), orders[i], index, ceiling);
      if index < |orders[i]| && |active| < ceiling {
        active := active + [orders[i][index]];
        progressed := true;
      }
      assert before + Level(orders[..i + 1], index)
          == before + Level(orders[..i], index) + if index < |orders[i]| then [orders[i][index]] else [];
    }
    assert orders[..|orders|] == orders;
  }

  lemma TakeOneMore(s: seq<Claim>, own: seq<Claim>, index: nat, ceiling: nat)
    ensures index < |own| ==>
              var taken := Take(s, ceiling);
              Take(s + [own[index]], ceiling) == if |taken| < ceiling then taken + [own[index]] else taken
  {
  }

  lemma Exhausted(orders: seq<seq<Claim>>, k: nat)
    requires forall i :: 0 <= i < |orders| ==> |orders[i]| <= k
    ensures Level(orders, k) == []
  {
  }

  lemma EmptyLevel(orders: seq<seq<Claim>>, k: nat)
    requires Level(orders, k) == []
    ensures forall i :: 0 <= i < |orders| ==> |orders[i]| <= k
    ensures Longest(orders) <= k
  {
  }

  lemma Settled(orders: seq<seq<Claim>>, k: nat, n: nat)
    requires forall i :: 0 <= i < |orders| ==> |orders[i]| <= k
    requires k <= n
    ensures Levels(orders, n) == Levels(orders, k)
  {
    if k < n {
      Settled(orders, k, n - 1);
      Exhausted(orders, n - 1);
    }
  }

  lemma LevelsGrow(orders: seq<seq<Claim>>, k: nat, n: nat)
    ensures k <= n ==> Levels(orders, k) <= Levels(orders, n)
    ensures Longest(orders) <= n <= k ==> Levels(orders, k) == Levels(orders, n)
  {
    if k < n {
      LevelsGrow(orders, k, n - 1);
    } else if Longest(orders) <= n {
      Settled(orders, n, k);
    }
  }

  // ----- What the round robin promises

  /** Where participant `i`'s claim `k` stands in the round-robin order. */
  function Rank(orders: seq<seq<Claim>>, i: nat, k: nat): nat
    requires i < |orders|
  {
    |Levels(orders, k)| + |Level(orders[..i], k)|
  }

  lemma {:induction false} LevelAt(orders: seq<seq<Claim>>, i: nat, k: nat)
    requires i < |orders| && k < |orders[i]|
    ensures |Level(orders[..i], k)| < |Level(orders, k)|
    ensures Level(orders, k)[|Level(orders[..i], k)|] == orders[i][k]
  {
    var rest := orders[..|orders| - 1];
    if i < |rest| {
      assert rest[..i] == orders[..i];
      LevelAt(rest, i, k);
    }
  }

  lemma RankHolds(orders: seq<seq<Claim>>, i: nat, k: nat)
    requires i < |orders| && k < |orders[i]|
    ensures Rank(orders, i, k) < |Levels(orders, Longest(orders))|
    ensures Levels(orders, Longest(orders))[Rank(orders, i, k)] == orders[i][k]
  {
    LevelAt(orders, i, k);
    LevelsGrow(orders, k + 1, Longest(orders));
  }

  lemma {:induction false} LevelOwner(orders: seq<seq<Claim>>, k: nat, q: nat) returns (i: nat)
    requires q < |Level(orders, k)|
    ensures i < |orders| && k < |orders[i]| && q == |Level(orders[..i], k)|
  {
    var rest := orders[..|orders| - 1];
    if q < |Level(rest, k)| {
      i := LevelOwner(rest, k, q);
      assert rest[..i] == orders[..i];
    } else {
      i := |orders| - 1;
    }
  }

  lemma {:induction false} RankOwner(orders: seq<seq<Claim>>, n: nat, q: nat) returns (i: nat, k: nat)
    requires q < |Levels(orders, n)|
    ensures i < |orders| && k < |orders[i]| && Rank(orders, i, k) == q
  {
    if q < |Levels(orders, n - 1)| {
      i, k := RankOwner(orders, n - 1, q);
    } else {
      i := LevelOwner(orders, n - 1, q - |Levels(orders, n - 1)|);
      k := n - 1;
    }
  }

  /** A claim is active exactly when its rank is below the ceiling. */
  lemma ActiveByRank(orders: seq<seq<Claim>>, ceiling: nat, i: nat, k: nat)
    requires Distinct(orders) && i < |orders| && k < |orders[i]|
    ensures Active(orders, ceiling, i, k) <==> Rank(orders, i, k) < ceiling
  {
    var all := Levels(orders, Longest(orders));
    RankHolds(orders, i, k);
    var active := Activated(orders, ceiling);
    if Rank(orders, i, k) < ceiling {
      assert active[Rank(orders, i, k)] == orders[i][k];
    } else if orders[i][k] in active {
      var q :| 0 <= q < |active| && active[q] == orders[i][k];
      var j, m := RankOwner(orders, Longest(orders), q);
      RankHolds(orders, j, m);
    }
  }

  /** The claims that come before a participant's: those of earlier places, and of participants before it those
      of the same place. */
  ghost function Earlier(orders: seq<seq<Claim>>, i: nat, k: nat): set<(nat, nat)> {
    set j: nat, m: nat | j < |orders| && m < |orders[j]| && (m < k || (m == k && j < i)) :: (j, m)
  }

  lemma EarlierByOne(orders: seq<seq<Claim>>, before: nat, i: nat, k: nat)
    requires i == before + 1 && i <= |orders|
    ensures |Earlier(orders, i, k)| == |Earlier(orders, before, k)| + if k < |orders[before]| then 1 else 0
  {
    if k < |orders[before]| {
      assert Earlier(orders, i, k) == Earlier(orders, before, k) + {(before, k)};
      assert (before, k) !in Earlier(orders, before, k);
    } else {
      assert Earlier(orders, i, k) == Earlier(orders, before, k);
    }
  }

  lemma LevelByOne(orders: seq<seq<Claim>>, before: nat, i: nat, k: nat)
    requires i == before + 1 && i <= |orders|
    ensures |Level(orders[..i], k)| == |Level(orders[..before], k)| + if k < |orders[before]| then 1 else 0
  {
    assert orders[..i][..before] == orders[..before];
  }

  lemma {:induction false} EarlierCount(orders: seq<seq<Claim>>, i: nat, k: nat)
    requires i <= |orders|
    ensures |Earlier(orders, i, k)| == |Levels(orders, k)| + |Level(orders[..i], k)|
    decreases k, i
  {
    if i > 0 {
      var before := i - 1;
      EarlierCount(orders, before, k);
      EarlierByOne(orders, before, i, k);
      LevelByOne(orders, before, i, k);
    } else if k > 0 {
      var before := k - 1;
      EarlierCount(orders, |orders|, before);
      assert Earlier(orders, 0, k) == Earlier(orders, |orders|, before);
      assert orders[..|orders|] == orders;
    } else {
      assert Earlier(orders, 0, 0) == {};
    }
  }

  /** So it is active exactly when fewer claims than the ceiling come before it. */
  lemma ActiveByCount(orders: seq<seq<Claim>>, ceiling: nat, i: nat, k: nat)
    requires Distinct(orders) && i < |orders| && k < |orders[i]|
    ensures Active(orders, ceiling, i, k) <==> |Earlier(orders, i, k)| < ceiling
  {
    ActiveByRank(orders, ceiling, i, k);
    EarlierCount(orders, i, k);
  }

  lemma RanksIncrease(orders: seq<seq<Claim>>, i: nat, k: nat, j: nat, m: nat)
    requires i < |orders| && k < |orders[i]| && j < |orders| && k < m
    ensures Rank(orders, i, k) < Rank(orders, j, m)
  {
    LevelAt(orders, i, k);
    LevelsGrow(orders, k + 1, m);
  }

  lemma {:induction false} LevelsCount(orders: seq<seq<Claim>>, n: nat)
    requires orders != []
    ensures |Levels(orders, n)| == |Levels(orders[..|orders| - 1], n)| + |Take(orders[|orders| - 1], n)|
  {
    if n > 0 {
      LevelsCount(orders, n - 1);
    }
  }

  lemma {:induction false} EveryClaimIsRanked(orders: seq<seq<Claim>>, n: nat)
    requires Longest(orders) <= n
    ensures |Levels(orders, n)| == Total(orders)
  {
    if orders == [] {
      Settled(orders, 0, n);
    } else {
      LevelsCount(orders, n);
      EveryClaimIsRanked(orders[..|orders| - 1], n);
    }
  }

  lemma ActivatedCount(orders: seq<seq<Claim>>, ceiling: nat)
    ensures |Activated(orders, ceiling)| == if Total(orders) <= ceiling then Total(orders) else ceiling
  {
    EveryClaimIsRanked(orders, Longest(orders));
  }

  /** A participant's active claims are a prefix of its own order. */
  lemma ActivePrefix(orders: seq<seq<Claim>>, ceiling: nat, i: nat, k: nat, m: nat)
    requires Distinct(orders) && i < |orders| && k < m < |orders[i]|
    requires Active(orders, ceiling, i, m)
    ensures Active(orders, ceiling, i, k)
  {
    ActiveByRank(orders, ceiling, i, k);
    ActiveByRank(orders, ceiling, i, m);
    RanksIncrease(orders, i, k, i, m);
  }

  /** One participant is ahead of another by more than one claim only if the other has none
      left to activate. */
  lemma ActiveFairly(orders: seq<seq<Claim>>, ceiling: nat, i: nat, j: nat, k: nat)
    requires Distinct(orders) && i < |orders| && j < |orders|
    requires k + 1 < |orders[i]| && k < |orders[j]|
    requires Active(orders, ceiling, i, k + 1)
    ensures Active(orders, ceiling, j, k)
  {
    ActiveByRank(orders, ceiling, i, k + 1);
    ActiveByRank(orders, ceiling, j, k);
    RanksIncrease(orders, j, k, i, k + 1);
  }

  lemma {:induction false} LevelFits(orders: seq<seq<Claim>>, k: nat)
    ensures |Level(orders, k)| <= |orders|
  {
    if orders != [] {
      LevelFits(orders[..|orders| - 1], k);
    }
  }

  /** Everyone keeps at least one claim when the ceiling admits one each. */
  lemma EveryoneKeepsOne(orders: seq<seq<Claim>>, ceiling: nat, i: nat)
    requires Distinct(orders) && |orders| <= ceiling
    requires i < |orders| && orders[i] != []
    ensures Active(orders, ceiling, i, 0)
  {
    ActiveByRank(orders, ceiling, i, 0);
    LevelFits(orders[..i], 0);
  }
}
