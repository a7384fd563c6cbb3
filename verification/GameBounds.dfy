/** How many flags a team can steal: a pigeonhole argument over the other teams and the valid ticks. */
module GameBounds {
  import opened Collections
  import opened Scoreboard
  import opened GameRules
  import opened GameLog
  import opened GameInvariant
  import opened GameTheorems

  /** The flags of some teams from one tick. */
  function Column(teams: set<int>, tick: int): set<FlagInfo> {
    set t | t in teams :: FlagInfo(t, tick)
  }

  lemma {:induction false} ColumnSize(teams: set<int>, tick: int)
    ensures |Column(teams, tick)| == |teams|
  {
    if teams != {} {
      var t := Member(teams);
      ColumnSize(teams - {t}, tick);
      assert Column(teams, tick) == Column(teams - {t}, tick) + {FlagInfo(t, tick)};
    }
  }

  /** The flags of some teams from `n` ticks, starting with `first`. */
  function Grid(teams: set<int>, first: int, n: nat): set<FlagInfo> {
    if n == 0 then {} else Grid(teams, first, n - 1) + Column(teams, first + n - 1)
  }

  lemma {:induction false} GridMembers(teams: set<int>, first: int, n: nat, f: FlagInfo)
    ensures f in Grid(teams, first, n) <==> f.teamId in teams && first <= f.tickId < first + n
  {
    if n > 0 {
      GridMembers(teams, first, n - 1, f);
    }
  }

  lemma ColumnIsNew(teams: set<int>, first: int, n: nat)
    ensures Grid(teams, first, n) !! Column(teams, first + n)
  {
    forall t | t in teams ensures FlagInfo(t, first + n) !in Grid(teams, first, n) {
      GridMembers(teams, first, n, FlagInfo(t, first + n));
    }
  }

  lemma GridStep(teams: set<int>, first: int, n: nat)
    ensures |Grid(teams, first, n + 1)| == |Grid(teams, first, n)| + |teams|
  {
    ColumnSize(teams, first + n);
    ColumnIsNew(teams, first, n);
    assert Grid(teams, first, n + 1) == Grid(teams, first, n) + Column(teams, first + n);
  }

  lemma {:induction false} GridSize(teams: set<int>, first: int, n: nat)
    ensures |Grid(teams, first, n)| == Repeated(|teams|, n)
  {
    if n == 0 {
      assert Grid(teams, first, 0) == {};
    } else {
      GridStep(teams, first, n - 1);
      GridSize(teams, first, n - 1);
      assert Repeated(|teams|, n) == Repeated(|teams|, n - 1) + |teams|;
    }
  }

  function Repeated(a: nat, n: nat): nat {
    if n == 0 then 0 else Repeated(a, n - 1) + a
  }

  lemma {:induction false} RepeatedIsProduct(a: nat, n: nat)
    ensures Repeated(a, n) == a * n
  {
    if n > 0 {
      RepeatedIsProduct(a, n - 1);
    }
  }

  /** A list without duplicates, of flags of some teams from `n` consecutive ticks, is not longer than their number. */
  lemma Pigeonhole(flags: seq<FlagInfo>, teams: set<int>, first: int, n: nat)
    requires NoDuplicates(flags)
    requires forall f :: f in flags ==> f.teamId in teams && first <= f.tickId < first + n
    ensures |flags| <= |teams| * n
  {
    var members := Elements(flags);
    DistinctSize(flags);
    GridSize(teams, first, n);
    RepeatedIsProduct(|teams|, n);
    forall f | f in members ensures f in Grid(teams, first, n) {
      GridMembers(teams, first, n, f);
    }
    SubsetSize(members, Grid(teams, first, n));
  }

  function WindowSize(cfg: Config): nat
    requires cfg.Valid()
  {
    if cfg.FlagValidTicks() >= 0 then cfg.FlagValidTicks() + 1 else 0
  }

  /** The window holds the ages at which a flag is not too old yet: the configured number of ticks and one more. */
  lemma WindowHolds(cfg: Config, age: nat)
    requires cfg.Valid()
    ensures age < WindowSize(cfg) <==> !TooOld(cfg, age)
    ensures cfg.FlagValidTicks() >= 0 ==> WindowSize(cfg) == cfg.FlagValidTicks() + 1
  {
    TooOldInTicks(cfg, age);
  }

  lemma StolenMembers(cfg: Config, log: seq<Entry>, tick: int, thief: int, service: int, f: FlagInfo)
    requires cfg.Valid() && SegmentSound(cfg, log, tick) && f in Replay(log, thief, service).stolen
    ensures f.teamId in cfg.TeamIds() - {thief} && 1 <= f.tickId <= tick && tick - cfg.FlagValidTicks() <= f.tickId
  {
  }

  /** In one tick a team can steal at most one flag per other team and valid tick from a service. */
  lemma SegmentBound(cfg: Config, log: seq<Entry>, tick: int, thief: int, service: int)
    requires cfg.Valid() && SegmentSound(cfg, log, tick) && StealsOnce(log)
    ensures |Replay(log, thief, service).stolen| <= |cfg.TeamIds() - {thief}| * WindowSize(cfg)
  {
    StolenNoDuplicates(log, thief, service);
    forall f | f in Replay(log, thief, service).stolen
      ensures f.teamId in cfg.TeamIds() - {thief}
      ensures tick + 1 - WindowSize(cfg) <= f.tickId < tick + 1
    {
      StolenMembers(cfg, log, tick, thief, service, f);
    }
    var first := tick + 1 - WindowSize(cfg);
    Pigeonhole(Replay(log, thief, service).stolen, cfg.TeamIds() - {thief}, first, WindowSize(cfg));
  }

  lemma {:induction false} SegmentStealsOnce(closed: seq<seq<Entry>>, open: seq<Entry>, k: nat)
    requires StealsOnce(Flatten(closed) + open) && k < |closed|
    ensures StealsOnce(closed[k]) && StealsOnce(open)
  {
    var n := |closed| - 1;
    assert StealsOnce(open) by {
      TailStealsOnce(Flatten(closed), open);
    }
    HeadStealsOnce(Flatten(closed), open);
    TailStealsOnce(Flatten(closed[..n]), closed[n]);
    if k < n {
      assert closed[..n][k] == closed[k];
      SegmentStealsOnce(closed[..n], closed[n], k);
    }
  }

  lemma TailStealsOnce(a: seq<Entry>, b: seq<Entry>)
    requires StealsOnce(a + b)
    ensures StealsOnce(b)
  {
    forall j, k | 0 <= j < k < |b| && b[j].Steal? ensures b[j] != b[k] {
      assert (a + b)[|a| + j] == b[j] && (a + b)[|a| + k] == b[k];
    }
  }

  lemma HeadStealsOnce(a: seq<Entry>, b: seq<Entry>)
    requires StealsOnce(a + b)
    ensures StealsOnce(a)
  {
    forall j, k | 0 <= j < k < |a| && a[j].Steal? ensures a[j] != a[k] {
      assert (a + b)[j] == a[j] && (a + b)[k] == a[k];
    }
  }

  /** Every entry of the log was logged in some tick that has begun. */
  lemma {:induction false} HistorySound(cfg: Config, closed: seq<seq<Entry>>, e: Entry)
    requires cfg.Valid() && forall k :: 0 <= k < |closed| ==> SegmentSound(cfg, closed[k], k + 1)
    requires e in Flatten(closed)
    ensures exists tick :: 1 <= tick <= |closed| && EntrySound(cfg, e, tick)
  {
    var n := |closed| - 1;
    if e in closed[n] {
      assert EntrySound(cfg, e, n + 1);
    } else {
      HistorySound(cfg, closed[..n], e);
    }
  }

  lemma ReachableLog(cfg: Config, s: State)
    requires cfg.Valid() && Reachable(cfg, s)
    ensures StealsOnce(s.History()) && SegmentSound(cfg, s.open, s.currentTick)
    ensures forall k :: 0 <= k < |s.closed| ==> SegmentSound(cfg, s.closed[k], k + 1)
    ensures |s.closed| <= s.currentTick
  {
    ReachableInv(cfg, s);
  }

  /**
    With T teams and bots and V valid ticks, one team's stolen list for one service has at most (T-1)*(V+1) entries
    in the open tick and in every archived tick, and at most (T-1)*CurrentTick over the whole run.
   */
  lemma StolenBounds(cfg: Config, s: State, thief: int, service: int)
    requires cfg.Valid() && Reachable(cfg, s) && cfg.IsTeamId(thief)
    ensures |cfg.TeamIds() - {thief}| == |cfg.TeamIds()| - 1
    ensures s.current.Some? ==>
              |RawAt(s.current.value, thief, service).stolen| <= (|cfg.TeamIds()| - 1) * WindowSize(cfg)
    ensures forall k :: 0 <= k < |s.ticks| ==>
              |RawAt(s.ticks[k], thief, service).stolen| <= (|cfg.TeamIds()| - 1) * WindowSize(cfg)
    ensures s.currentTick >= 0 && |ScoredFlags(s, thief, service)| <= (|cfg.TeamIds()| - 1) * s.currentTick
  {
    BoardsAreReplays(cfg, s, thief, service);
    ReachableLog(cfg, s);
    TailStealsOnce(Flatten(s.closed), s.open);
    SegmentBound(cfg, s.open, s.currentTick, thief, service);
    forall k | 0 <= k < |s.ticks|
      ensures |RawAt(s.ticks[k], thief, service).stolen| <= (|cfg.TeamIds()| - 1) * WindowSize(cfg)
    {
      SegmentStealsOnce(s.closed, s.open, k);
      SegmentBound(cfg, s.closed[k], k + 1, thief, service);
    }
    RunBound(cfg, s, thief, service);
  }

  lemma RunBound(cfg: Config, s: State, thief: int, service: int)
    requires cfg.Valid() && Reachable(cfg, s) && cfg.IsTeamId(thief)
    ensures s.currentTick >= 0 && |ScoredFlags(s, thief, service)| <= |cfg.TeamIds() - {thief}| * s.currentTick
  {
    ReachableLog(cfg, s);
    NoFlagScoresTwice(cfg, s, thief, service);
    ScoredFlagsAreHistory(cfg, s, thief, service);
    var flags := ScoredFlags(s, thief, service);
    forall f | f in flags ensures f.teamId in cfg.TeamIds() - {thief} && 1 <= f.tickId < 1 + s.currentTick {
      var e := Steal(thief, f.teamId, f.tickId, service);
      StolenIffLogged(s.History(), thief, service, f.teamId, f.tickId);
      if e in s.open {
        assert EntrySound(cfg, e, s.currentTick);
      } else {
        HistorySound(cfg, s.closed, e);
      }
    }
    Pigeonhole(flags, cfg.TeamIds() - {thief}, 1, s.currentTick);
  }
}
