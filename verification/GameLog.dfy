/** What holds of the raw data that a log leaves behind. */
module GameLog {
  import opened Collections
  import opened Scoreboard
  import opened GameRules

  lemma {:induction false} ReplayConcat(a: seq<Entry>, b: seq<Entry>, team: int, service: int)
    ensures Replay(a + b, team, service) == Replay(a, team, service).Plus(Replay(b, team, service))
  {
    if |b| == 0 {
      assert a + b == a;
      PlusNothing(Replay(a, team, service));
    } else {
      var e := b[|b| - 1];
      assert (a + b)[..|a + b| - 1] == a + b[..|b| - 1];
      ReplayConcat(a, b[..|b| - 1], team, service);
      PlusAssociative(Replay(a, team, service), Replay(b[..|b| - 1], team, service), Effect(e, team, service));
    }
  }

  lemma ReplayExtend(log: seq<Entry>, e: Entry, team: int, service: int)
    ensures Replay(log + [e], team, service) == Replay(log, team, service).Plus(Effect(e, team, service))
  {
  }

  lemma FlattenExtend(segments: seq<seq<Entry>>, segment: seq<Entry>)
    ensures Flatten(segments + [segment]) == Flatten(segments) + segment
  {
  }

  ghost predicate TicksReplay(ticks: seq<Board>, segments: seq<seq<Entry>>, team: int, service: int) {
    && |ticks| == |segments|
    && forall k :: 0 <= k < |ticks| ==> RawAt(ticks[k], team, service) == Replay(segments[k], team, service)
  }

  /** Summing up archived ticks gives the replay of the whole archived log. */
  lemma {:induction false} SumOfReplays(ticks: seq<Board>, segments: seq<seq<Entry>>, team: int, service: int)
    requires TicksReplay(ticks, segments, team, service)
    ensures SumRaw(ticks, team, service) == Replay(Flatten(segments), team, service)
  {
    if |ticks| == 0 {
    } else {
      var n := |ticks| - 1;
      SumOfReplays(ticks[..n], segments[..n], team, service);
      FlattenExtend(segments[..n], segments[n]);
      assert segments == segments[..n] + [segments[n]];
      ReplayConcat(Flatten(segments[..n]), segments[n], team, service);
    }
  }

  // ---------- Stolen flags ----------

  /** The stolen list names exactly the flags that the log says were stolen. */
  lemma {:induction false} StolenIffLogged(log: seq<Entry>, thief: int, service: int, victim: int, tick: int)
    ensures FlagInfo(victim, tick) in Replay(log, thief, service).stolen <==> Steal(thief, victim, tick, service) in log
  {
    if |log| == 0 {
    } else {
      var n := |log| - 1;
      StolenIffLogged(log[..n], thief, service, victim, tick);
      assert log == log[..n] + [log[n]];
    }
  }

  /** No flag was logged as stolen twice by the same team. */
  ghost predicate StealsOnce(log: seq<Entry>) {
    forall j, k :: 0 <= j < k < |log| && log[j].Steal? ==> log[j] != log[k]
  }

  lemma {:induction false} StolenNoDuplicates(log: seq<Entry>, thief: int, service: int)
    requires StealsOnce(log)
    ensures NoDuplicates(Replay(log, thief, service).stolen)
  {
    if |log| == 0 {
    } else {
      var n := |log| - 1;
      var e := log[n];
      StolenNoDuplicates(log[..n], thief, service);
      if e.Steal? && e.service == service && e.thief == thief {
        StolenIffLogged(log[..n], thief, service, e.victim, e.tick);
      }
    }
  }

  // ---------- Counting the log ----------

  function CountIf(log: seq<Entry>, p: Entry -> bool): nat {
    if |log| == 0 then 0 else CountIf(log[..|log| - 1], p) + if p(log[|log| - 1]) then 1 else 0
  }

  /** How many flags of a service the team stole, how many of its own were stolen, and how many checks it passed. */
  function Thefts(log: seq<Entry>, team: int, service: int): nat {
    CountIf(log, (e: Entry) => e.Steal? && e.thief == team && e.service == service)
  }

  function Losses(log: seq<Entry>, team: int, service: int): nat {
    CountIf(log, (e: Entry) => e.Steal? && e.victim == team && e.service == service)
  }

  function Passes(log: seq<Entry>, team: int, service: int): nat {
    CountIf(log, (e: Entry) => e.Check? && e.team == team && e.service == service && e.success)
  }

  /** The lists and counters of a board are as long and as large as the log says. */
  lemma {:induction false} ReplayCounts(log: seq<Entry>, team: int, service: int)
    ensures |Replay(log, team, service).stolen| == Thefts(log, team, service)
    ensures |Replay(log, team, service).lost| == Losses(log, team, service)
    ensures Replay(log, team, service).checks.successful == Passes(log, team, service)
  {
    if |log| > 0 {
      ReplayCounts(log[..|log| - 1], team, service);
    }
  }

  // ---------- Conservation ----------

  function Count<T(==)>(s: seq<T>, x: T): nat {
    if |s| == 0 then 0 else Count(s[..|s| - 1], x) + (if s[|s| - 1] == x then 1 else 0)
  }

  lemma {:induction false} CountConcat<T>(a: seq<T>, b: seq<T>, x: T)
    ensures Count(a + b, x) == Count(a, x) + Count(b, x)
  {
    if |b| == 0 {
      assert a + b == a;
    } else {
      assert (a + b)[..|a + b| - 1] == a + b[..|b| - 1];
      CountConcat(a, b[..|b| - 1], x);
    }
  }

  /** One entry adds to the two lists what it says, and adds it to both of them alike. */
  lemma EffectCounts(e: Entry, thief: int, victim: int, tick: int, service: int)
    ensures var once := if e == Steal(thief, victim, tick, service) then 1 else 0;
            && Count(Effect(e, thief, service).stolen, FlagInfo(victim, tick)) == once
            && Count(Effect(e, victim, service).lost, FlagInfo(thief, tick)) == once
  {
  }

  lemma CountOne<T>(s: seq<T>, x: T)
    requires |s| <= 1
    ensures Count(s, x) == if |s| == 1 && s[0] == x then 1 else 0
  {
  }

  lemma {:induction false} CountStolen(log: seq<Entry>, thief: int, victim: int, tick: int, service: int)
    ensures Count(Replay(log, thief, service).stolen, FlagInfo(victim, tick)) ==
      Count(log, Steal(thief, victim, tick, service))
  {
    if |log| > 0 {
      var n := |log| - 1;
      CountStolen(log[..n], thief, victim, tick, service);
      CountConcat(Replay(log[..n], thief, service).stolen, Effect(log[n], thief, service).stolen,
        FlagInfo(victim, tick));
      EffectCounts(log[n], thief, victim, tick, service);
    }
  }

  lemma {:induction false} CountLost(log: seq<Entry>, thief: int, victim: int, tick: int, service: int)
    ensures Count(Replay(log, victim, service).lost, FlagInfo(thief, tick)) ==
      Count(log, Steal(thief, victim, tick, service))
  {
    if |log| > 0 {
      var n := |log| - 1;
      CountLost(log[..n], thief, victim, tick, service);
      CountConcat(Replay(log[..n], victim, service).lost, Effect(log[n], victim, service).lost, FlagInfo(thief, tick));
      EffectCounts(log[n], thief, victim, tick, service);
    }
  }

  /**
    However often `thief` stole the flag of `victim` from `tick`, so often `victim` lost it to `thief`: the two
    lists, kept on different teams, always agree.
   */
  lemma StolenEqualsLost(log: seq<Entry>, thief: int, victim: int, tick: int, service: int)
    ensures Count(Replay(log, thief, service).stolen, FlagInfo(victim, tick)) ==
            Count(Replay(log, victim, service).lost, FlagInfo(thief, tick))
  {
    CountStolen(log, thief, victim, tick, service);
    CountLost(log, thief, victim, tick, service);
  }

  /** The number of stolen and of lost flags of one service, over some teams. */
  function StolenTotal(log: seq<Entry>, service: int, teams: seq<int>): nat {
    if |teams| == 0 then 0 else |Replay(log, teams[0], service).stolen| + StolenTotal(log, service, teams[1..])
  }

  function LostTotal(log: seq<Entry>, service: int, teams: seq<int>): nat {
    if |teams| == 0 then 0 else |Replay(log, teams[0], service).lost| + LostTotal(log, service, teams[1..])
  }

  lemma CountHead<T>(s: seq<T>, x: T)
    requires |s| > 0
    ensures Count(s, x) == (if s[0] == x then 1 else 0) + Count(s[1..], x)
  {
    assert s == s[..1] + s[1..];
    CountConcat(s[..1], s[1..], x);
    CountOne(s[..1], x);
  }

  /** One more log entry adds to the stolen total what it adds to its thief. */
  lemma {:induction false} StolenTotalExtend(log: seq<Entry>, e: Entry, service: int, teams: seq<int>)
    ensures StolenTotal(log + [e], service, teams) ==
            StolenTotal(log, service, teams) + if e.Steal? && e.service == service then Count(teams, e.thief) else 0
  {
    if |teams| > 0 {
      StolenTotalExtend(log, e, service, teams[1..]);
      ReplayExtend(log, e, teams[0], service);
      if e.Steal? {
        CountHead(teams, e.thief);
      }
    }
  }

  /** One more log entry adds to the lost total what it adds to its victim. */
  lemma {:induction false} LostTotalExtend(log: seq<Entry>, e: Entry, service: int, teams: seq<int>)
    ensures LostTotal(log + [e], service, teams) ==
            LostTotal(log, service, teams) + if e.Steal? && e.service == service then Count(teams, e.victim) else 0
  {
    if |teams| > 0 {
      LostTotalExtend(log, e, service, teams[1..]);
      ReplayExtend(log, e, teams[0], service);
      if e.Steal? {
        CountHead(teams, e.victim);
      }
    }
  }

  lemma {:induction false} CountOfMember<T>(s: seq<T>, x: T)
    requires NoDuplicates(s) && x in s
    ensures Count(s, x) == 1
  {
    var n := |s| - 1;
    assert s == s[..n] + [s[n]];
    if s[n] == x {
      CountOfStranger(s[..n], x);
    } else {
      assert x in s[..n];
      CountOfMember(s[..n], x);
    }
  }

  lemma {:induction false} CountOfStranger<T>(s: seq<T>, x: T)
    requires x !in s
    ensures Count(s, x) == 0
  {
    if |s| > 0 {
      CountOfStranger(s[..|s| - 1], x);
    }
  }

  ghost predicate StealsAmong(log: seq<Entry>, teams: seq<int>) {
    forall j :: 0 <= j < |log| && log[j].Steal? ==> log[j].thief in teams && log[j].victim in teams
  }

  /** Over all teams, as many flags are stolen as are lost. */
  lemma {:induction false} TotalsBalance(log: seq<Entry>, service: int, teams: seq<int>)
    requires NoDuplicates(teams) && StealsAmong(log, teams)
    ensures StolenTotal(log, service, teams) == LostTotal(log, service, teams)
  {
    if |log| == 0 {
      EmptyTotals(service, teams);
    } else {
      var n := |log| - 1;
      TotalsBalance(log[..n], service, teams);
      assert log == log[..n] + [log[n]];
      StolenTotalExtend(log[..n], log[n], service, teams);
      LostTotalExtend(log[..n], log[n], service, teams);
      if log[n].Steal? {
        CountOfMember(teams, log[n].thief);
        CountOfMember(teams, log[n].victim);
      }
    }
  }

  lemma {:induction false} EmptyTotals(service: int, teams: seq<int>)
    ensures StolenTotal([], service, teams) == 0 == LostTotal([], service, teams)
  {
    if |teams| > 0 {
      EmptyTotals(service, teams[1..]);
    }
  }
}
