/** The list of flag ids that teams may ask for, and why its ticks fit the window in which flags are accepted. */
module FlagWindow {
  import opened Collections
  import opened GoValues
  import opened Codec
  import opened GameRules
  import opened GameInvariant
  import opened GameTheorems

  datatype FlagId = FlagId(tick: int, team: int, service: int, value: string)

  /** What the handler reads; `value` is what the page shows for the flag of a triple. */
  datatype Request = Request(teams: nat, checks: seq<int>, serviceIds: seq<int>, currentTick: int, validTicks: int,
                             value: Triple -> string) {
    function Entry(team: int, check: int, offset: int): FlagId {
      var tick := currentTick - offset - 1;
      FlagId(tick, team, check, value(Triple(tick, team, check)))
    }

    /** The ticks listed: those closed ticks that are at most `validTicks - 1` ticks old. */
    predicate InWindow(tick: int) {
      1 <= tick < currentTick && tick >= currentTick - validTicks + 1
    }

    predicate Lists(e: FlagId) {
      && 0 <= e.team < teams && e.service in checks && InWindow(e.tick)
      && e.value == value(Triple(e.tick, e.team, e.service))
    }
  }

  // ---------- The loops ----------

  /** The innermost loop after `n` offsets. */
  function OfCheck(r: Request, team: int, check: int, n: nat): seq<FlagId> {
    if n == 0 then []
    else OfCheck(r, team, check, n - 1) + if n - 1 >= r.currentTick - 1 then [] else [r.Entry(team, check, n - 1)]
  }

  function Offsets(r: Request): nat {
    if r.validTicks > 1 then r.validTicks - 1 else 0
  }

  function OfChecks(r: Request, team: int, m: nat): seq<FlagId>
    requires m <= |r.checks|
  {
    if m == 0 then [] else OfChecks(r, team, m - 1) + OfCheck(r, team, r.checks[m - 1], Offsets(r))
  }

  function OfTeams(r: Request, k: nat): seq<FlagId> {
    if k == 0 then [] else OfTeams(r, k - 1) + OfChecks(r, k - 1, |r.checks|)
  }

  /** `GetService`: the first service with this id. */
  method GetService(serviceIds: seq<int>, id: int) returns (service: Option<nat>)
    ensures match service
            case None => id !in serviceIds
            case Some(n) => n < |serviceIds| && serviceIds[n] == id && id !in serviceIds[..n]
  {
    for n := 0 to |serviceIds|
      invariant id !in serviceIds[..n]
    {
      if serviceIds[n] == id {
        return Some(n);
      }
    }
    return None;
  }

  method ListCheck(r: Request, team: int, check: int) returns (flagIds: seq<FlagId>)
    ensures flagIds == OfCheck(r, team, check, Offsets(r))
  {
    flagIds := [];
    for tickOffset := 0 to Offsets(r)
      invariant flagIds == OfCheck(r, team, check, tickOffset)
    {
      if tickOffset >= r.currentTick - 1 {
        continue;
      }
      var tickId := r.currentTick - tickOffset - 1;
      flagIds := flagIds + [FlagId(tickId, team, check, r.value(Triple(tickId, team, check)))];
    }
  }

  /** The handler of `GET /api/flagIds`: nothing but an error when a check has no service. */
  method ListFlagIds(r: Request) returns (listed: Option<seq<FlagId>>)
    ensures listed == None <==> r.teams > 0 && exists c :: c in r.checks && c !in r.serviceIds
    ensures listed.Some? ==> listed.value == OfTeams(r, r.teams)
  {
    var flagIds := [];
    for team := 0 to r.teams
      invariant flagIds == OfTeams(r, team)
      invariant team > 0 ==> forall c :: c in r.checks ==> c in r.serviceIds
    {
      for m := 0 to |r.checks|
        invariant flagIds == OfTeams(r, team) + OfChecks(r, team, m)
        invariant forall j :: 0 <= j < m ==> r.checks[j] in r.serviceIds
      {
        var service := GetService(r.serviceIds, r.checks[m]);
        if service.None? {
          return None;
        }
        var ofCheck := ListCheck(r, team, r.checks[m]);
        flagIds := flagIds + ofCheck;
      }
    }
    return Some(flagIds);
  }

  // ---------- What is listed ----------

  lemma {:induction false} OfCheckLists(r: Request, team: int, check: int, n: nat, e: FlagId)
    ensures e in OfCheck(r, team, check, n) <==>
            && e.team == team && e.service == check && 1 <= e.tick < r.currentTick && e.tick >= r.currentTick - n
            && e.value == r.value(Triple(e.tick, team, check))
  {
    if n > 0 {
      OfCheckLists(r, team, check, n - 1, e);
    }
  }

  lemma {:induction false} OfChecksLists(r: Request, team: int, m: nat, e: FlagId)
    requires m <= |r.checks|
    ensures e in OfChecks(r, team, m) <==>
            && e.team == team && e.service in r.checks[..m] && r.InWindow(e.tick)
            && e.value == r.value(Triple(e.tick, e.team, e.service))
  {
    if m > 0 {
      OfChecksLists(r, team, m - 1, e);
      OfCheckLists(r, team, r.checks[m - 1], Offsets(r), e);
      assert r.checks[..m] == r.checks[..m - 1] + [r.checks[m - 1]];
    }
  }

  /** Listed are exactly the flags of every team and check whose tick lies in the window. */
  lemma {:induction false} ListedExactly(r: Request, k: nat, e: FlagId)
    requires k <= r.teams
    ensures e in OfTeams(r, k) <==> r.Lists(e) && e.team < k
  {
    if k > 0 {
      ListedExactly(r, k - 1, e);
      OfChecksLists(r, k - 1, |r.checks|, e);
      assert r.checks[..|r.checks|] == r.checks;
    }
  }

  lemma DisjointConcat(a: seq<FlagId>, b: seq<FlagId>)
    requires NoDuplicates(a) && NoDuplicates(b) && forall e :: e in a ==> e !in b
    ensures NoDuplicates(a + b)
  {
    forall j, k | 0 <= j < k < |a + b| ensures (a + b)[j] != (a + b)[k] {
      if j < |a| <= k {
        assert a[j] in a && b[k - |a|] in b;
      }
    }
  }

  lemma {:induction false} OfCheckOnce(r: Request, team: int, check: int, n: nat)
    ensures NoDuplicates(OfCheck(r, team, check, n))
  {
    if n > 0 {
      var e := r.Entry(team, check, n - 1);
      OfCheckOnce(r, team, check, n - 1);
      OfCheckLists(r, team, check, n - 1, e);
      DisjointConcat(OfCheck(r, team, check, n - 1), [e]);
    }
  }

  lemma {:induction false} OfChecksOnce(r: Request, team: int, m: nat)
    requires m <= |r.checks| && forall i, j :: 0 <= i < j < |r.checks| ==> r.checks[i] != r.checks[j]
    ensures NoDuplicates(OfChecks(r, team, m))
  {
    if m > 0 {
      var before, last := OfChecks(r, team, m - 1), OfCheck(r, team, r.checks[m - 1], Offsets(r));
      OfChecksOnce(r, team, m - 1);
      OfCheckOnce(r, team, r.checks[m - 1], Offsets(r));
      forall e | e in before ensures e !in last {
        OfChecksLists(r, team, m - 1, e);
        OfCheckLists(r, team, r.checks[m - 1], Offsets(r), e);
      }
      DisjointConcat(before, last);
    }
  }

  /** When the checks differ, no flag is listed twice. */
  lemma {:induction false} ListedOnce(r: Request, k: nat)
    requires k <= r.teams && forall i, j :: 0 <= i < j < |r.checks| ==> r.checks[i] != r.checks[j]
    ensures NoDuplicates(OfTeams(r, k))
  {
    if k > 0 {
      var before, last := OfTeams(r, k - 1), OfChecks(r, k - 1, |r.checks|);
      ListedOnce(r, k - 1);
      OfChecksOnce(r, k - 1, |r.checks|);
      forall e | e in before ensures e !in last {
        ListedExactly(r, k - 1, e);
        OfChecksLists(r, k - 1, |r.checks|, e);
      }
      DisjointConcat(before, last);
    }
  }

  // ---------- The window and the game ----------

  /** The request that the game's own configuration and counter give. */
  ghost predicate Reads(r: Request, cfg: Config, s: State)
    requires cfg.Valid()
  {
    && r.teams == |cfg.teams| && r.checks == cfg.checks
    && r.currentTick == s.currentTick && r.validTicks == cfg.FlagValidTicks()
  }

  /**
    A closed tick is listed exactly when submissions of its flags by others are not answered as expired during the
    next tick.
   */
  lemma WindowExactly(r: Request, cfg: Config, later: State, info: int, flag: string)
    requires cfg.Valid() && r.validTicks == cfg.FlagValidTicks()
    requires Reachable(cfg, later) && later.currentTick == r.currentTick + 1
    requires cfg.decode(flag).Some? && Unforged(cfg, later, flag)
    requires cfg.decode(flag).value.tick < r.currentTick && cfg.decode(flag).value.team != info
    ensures r.InWindow(cfg.decode(flag).value.tick) <==>
            Judge(cfg, later.current, later.overall, info, flag) != Answer(FlagExpired)
  {
    VerifiedIsSigned(cfg, later, flag);
    PanicsExactly(cfg, later, info, flag);
    ArchiveIsAligned(cfg, later);
    AnswersExactly(cfg, later, info, flag);
  }

  /**
    A listed flag passes both tick checks of a submission in every reachable state of this tick and of the next one. The
    handler does not hold the lock, so the counter it reads may also be one ahead of the board.
   */
  lemma ListedFlagsAreInTime(r: Request, cfg: Config, later: State, info: int, flag: string)
    requires cfg.Valid() && Reachable(cfg, later) && r.validTicks == cfg.FlagValidTicks()
    requires r.currentTick - 1 <= later.currentTick <= r.currentTick + 1
    requires cfg.decode(flag).Some? && r.InWindow(cfg.decode(flag).value.tick)
    ensures var outcome := Judge(cfg, later.current, later.overall, info, flag);
            outcome != Answer(FlagExpired) && outcome != Answer(FlagNotYetValid)
  {
    ReachableInv(cfg, later);
  }

  /** A flag of the open tick is never listed, and every listed flag has already been made by its check. */
  lemma ListedFlagsAreSigned(r: Request, cfg: Config, s: State, e: FlagId)
    requires cfg.Valid() && Reads(r, cfg, s) && Reachable(cfg, s) && e in OfTeams(r, r.teams)
    ensures e.tick < s.currentTick && Triple(e.tick, e.team, e.service) in s.signed
  {
    ListedExactly(r, r.teams, e);
    ReachableInv(cfg, s);
    assert SignedAt(cfg, s, Triple(e.tick, e.team, e.service));
  }
}
