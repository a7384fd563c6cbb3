/** What every step of the game keeps, in every interleaving. */
module GameInvariant {
  import opened Codec
  import opened Scoreboard
  import opened GameRules
  import opened GameLog

  // ---------- The invariant ----------

  /** Every board has exactly the configured teams and services. */
  ghost predicate Shapes(cfg: Config, s: State) {
    && (s.current.Some? ==> Shape(cfg, s.current.value))
    && (forall k :: 0 <= k < |s.ticks| ==> Shape(cfg, s.ticks[k]))
    && (s.overall.Some? ==> Shape(cfg, s.overall.value))
  }

  /** Archived ticks are numbered from one without gaps, and the counters agree with the archive. */
  ghost predicate Aligned(cfg: Config, s: State)
    requires cfg.Valid()
  {
    && 0 <= s.currentTick && (s.currentTick == 0 || s.currentTick <= cfg.TotalTicks())
    && |s.closed| == |s.ticks|
    && (forall k :: 0 <= k < |s.ticks| ==> s.ticks[k].tick == k + 1)
    && (s.overall.Some? <==> |s.ticks| > 0)
    && (s.overall.Some? ==> s.overall.value.tick == |s.ticks|)
    && (s.current.Some? ==> s.current.value.tick == s.currentTick)
    && (s.current.None? ==> s.open == [] && s.currentTick == 0 && s.ticks == [])
    && (s.running <==> s.phase == Playing || s.phase == Closing)
    && (s.pending != {} ==> s.phase == Playing && s.current.Some?)
    && (match s.phase
        case Idle => s.current.None? && s.inFlight == 0
        case Playing => s.current.Some? ==> s.currentTick >= 1 && |s.ticks| == s.currentTick - 1
        case Closing => s.current.Some? && |s.ticks| == s.currentTick
        case Over => s.current.Some? && |s.ticks| == s.currentTick)
  }

  /** The raw data of every board is the replay of its part of the log. */
  ghost predicate ReplayedAt(s: State, team: int, service: int) {
    && (s.current.Some? ==> RawAt(s.current.value, team, service) == Replay(s.open, team, service))
    && TicksReplay(s.ticks, s.closed, team, service)
    && (s.overall.Some? ==> RawAt(s.overall.value, team, service) == Replay(Flatten(s.closed), team, service))
  }

  ghost predicate Replayed(s: State) {
    forall t, i :: ReplayedAt(s, t, i)
  }

  /** What an entry logged in a tick may be. */
  ghost predicate EntrySound(cfg: Config, e: Entry, tick: int)
    requires cfg.Valid()
  {
    match e
    case Steal(thief, victim, k, service) =>
      && thief != victim && cfg.IsDuty(Duty(thief, service)) && cfg.IsDuty(Duty(victim, service))
      && 1 <= k <= tick && tick - cfg.FlagValidTicks() <= k
    case Check(team, service, _) =>
      cfg.IsDuty(Duty(team, service))
  }

  ghost predicate SegmentSound(cfg: Config, log: seq<Entry>, tick: int)
    requires cfg.Valid()
  {
    forall j :: 0 <= j < |log| ==> EntrySound(cfg, log[j], tick)
  }

  ghost predicate LogSound(cfg: Config, s: State)
    requires cfg.Valid()
  {
    && StealsOnce(s.History())
    && SegmentSound(cfg, s.open, s.currentTick)
    && forall k :: 0 <= k < |s.closed| ==> SegmentSound(cfg, s.closed[k], k + 1)
  }

  function OneIf(b: bool): nat {
    if b then 1 else 0
  }

  predicate Recorded(cfg: Config, s: State, duty: Duty) {
    s.phase == Playing && s.current.Some? && cfg.IsDuty(duty) && duty !in s.pending
  }

  /** Every archived tick has one result per duty, the open tick one per duty that is not pending. */
  ghost predicate CheckedAt(cfg: Config, s: State, team: int, service: int) {
    ArchiveCheckedAt(cfg, s.closed, team, service) && OpenCheckedAt(cfg, s, team, service)
  }

  ghost predicate ArchiveCheckedAt(cfg: Config, closed: seq<seq<Entry>>, team: int, service: int) {
    forall k :: 0 <= k < |closed| ==>
      Replay(closed[k], team, service).Checks() == OneIf(cfg.IsDuty(Duty(team, service)))
  }

  ghost predicate OpenCheckedAt(cfg: Config, s: State, team: int, service: int) {
    Replay(s.open, team, service).Checks() == OneIf(Recorded(cfg, s, Duty(team, service)))
  }

  ghost predicate Checked(cfg: Config, s: State) {
    && s.pending <= cfg.Duties()
    && forall t, i :: CheckedAt(cfg, s, t, i)
  }

  /** Only flags of real teams, checked services and ticks up to now are signed; all past ones are. */
  ghost predicate SignedSound(cfg: Config, s: State) {
    forall tr :: SignedAt(cfg, s, tr)
  }

  ghost predicate SignedAt(cfg: Config, s: State, tr: Triple) {
    var duty := Duty(tr.team, tr.service);
    && (tr in s.signed ==> 1 <= tr.tick <= s.currentTick && cfg.IsDuty(duty))
    && (1 <= tr.tick <= s.currentTick && cfg.IsDuty(duty) && (tr.tick == s.currentTick ==> duty !in s.pending)
        ==> tr in s.signed)
  }

  /** The scores and positions of a closed board follow from its raw data. */
  ghost predicate TeamScored(scoring: Scoring, team: TeamRecord) {
    && (forall i :: i in team.services ==> team.services[i].score == ServiceScore(scoring, team.services[i].raw))
    && team.points == PublicPoints(scoring, team.services, team.services.Keys, |scoring.private|)
  }

  ghost predicate BoardScored(cfg: Config, b: Board) {
    && (forall t :: t in b.teams ==> TeamScored(cfg.ScoringRules(), b.teams[t]))
    && Ranked(b, cfg.nan)
  }

  ghost predicate Scored(cfg: Config, s: State) {
    && (forall k :: 0 <= k < |s.ticks| ==> BoardScored(cfg, s.ticks[k]))
    && (s.overall.Some? ==> BoardScored(cfg, s.overall.value))
  }

  ghost predicate Inv(cfg: Config, s: State)
    requires cfg.Valid()
  {
    && Shapes(cfg, s) && Scored(cfg, s) && Aligned(cfg, s) && Replayed(s)
    && LogSound(cfg, s) && Checked(cfg, s) && SignedSound(cfg, s)
  }

  // ---------- Summaries keep the shape and the tick ----------

  lemma {:induction false} GatherShape(cfg: Config, ticks: seq<Board>)
    requires |ticks| > 0 && forall k :: 0 <= k < |ticks| ==> Shape(cfg, ticks[k])
    ensures Shape(cfg, Gather(ticks))
  {
    var n := |ticks| - 1;
    var before, last := Gather(ticks[..n]), ticks[n];
    if n > 0 {
      GatherShape(cfg, ticks[..n]);
    }
    var merged := MergeBoard(before, last);
    forall t | t in merged.teams ensures cfg.IsTeamId(t) && TeamShape(cfg, t, merged.teams[t]) {
      assert merged.teams[t] == MergeTeam(before.teams, t, last.teams[t]);
      MergeTeamShape(cfg, before.teams, t, last.teams[t]);
    }
  }

  lemma MergeTeamShape(cfg: Config, acc: map<int, TeamRecord>, t: int, more: TeamRecord)
    requires cfg.IsTeamId(t) && TeamShape(cfg, t, more)
    requires t in acc ==> TeamShape(cfg, t, acc[t])
    ensures TeamShape(cfg, t, MergeTeam(acc, t, more))
  {
  }

  lemma SummarizesShape(cfg: Config, ticks: seq<Board>, b: Board)
    requires |ticks| > 0 && forall k :: 0 <= k < |ticks| ==> Shape(cfg, ticks[k])
    requires Summarizes(cfg.ScoringRules(), cfg.nan, ticks, b)
    ensures Shape(cfg, b)
  {
    GatherShape(cfg, ticks);
    var sums, scored := Gather(ticks), Summary(cfg.ScoringRules(), ticks);
    assert Unplaced(b).teams.Keys == b.teams.Keys;
    forall t | t in b.teams ensures cfg.IsTeamId(t) && TeamShape(cfg, t, b.teams[t]) {
      assert t in Unplaced(b).teams && Unplaced(b).teams[t] == b.teams[t].(position := 0);
      assert scored.teams[t] == ScoreTeam(cfg.ScoringRules(), sums.teams[t]);
      ScoreTeamShape(cfg, t, sums.teams[t]);
    }
  }

  lemma ScoreTeamShape(cfg: Config, t: int, team: TeamRecord)
    requires cfg.IsTeamId(t) && TeamShape(cfg, t, team)
    ensures TeamShape(cfg, t, ScoreTeam(cfg.ScoringRules(), team))
  {
  }

  lemma ScoreTeamScored(scoring: Scoring, team: TeamRecord)
    ensures TeamScored(scoring, ScoreTeam(scoring, team))
  {
  }

  lemma SummarizesScored(cfg: Config, ticks: seq<Board>, b: Board)
    requires Summarizes(cfg.ScoringRules(), cfg.nan, ticks, b)
    ensures BoardScored(cfg, b)
  {
    var sums, scored := Gather(ticks), Summary(cfg.ScoringRules(), ticks);
    assert Unplaced(b).teams.Keys == b.teams.Keys;
    forall t | t in b.teams ensures TeamScored(cfg.ScoringRules(), b.teams[t]) {
      assert t in Unplaced(b).teams && Unplaced(b).teams[t] == b.teams[t].(position := 0);
      assert scored.teams[t] == ScoreTeam(cfg.ScoringRules(), sums.teams[t]);
      ScoreTeamScored(cfg.ScoringRules(), sums.teams[t]);
    }
  }

  lemma {:induction false} GatherTick(ticks: seq<Board>, n: int)
    requires |ticks| > 0 && ticks[|ticks| - 1].tick == n >= 1
    requires forall k :: 0 <= k < |ticks| ==> ticks[k].tick <= n
    ensures Gather(ticks).tick == n
  {
    TickBound(ticks[..|ticks| - 1], n);
  }

  lemma {:induction false} TickBound(ticks: seq<Board>, n: int)
    requires n >= 0 && forall k :: 0 <= k < |ticks| ==> ticks[k].tick <= n
    ensures Gather(ticks).tick <= n
  {
    if |ticks| > 0 {
      TickBound(ticks[..|ticks| - 1], n);
    }
  }

  // ---------- Updates of the open board ----------

  lemma StolenShape(cfg: Config, b: Board, info: int, tr: Triple)
    requires Shape(cfg, b) && cfg.IsTeamId(info) && cfg.IsTeamId(tr.team) && 0 <= tr.service < |cfg.services|
    ensures info in b.teams && tr.team in b.teams
    ensures tr.service in b.teams[info].services && tr.service in b.teams[tr.team].services
    ensures Shape(cfg, Stolen(b, info, tr)) && Stolen(b, info, tr).tick == b.tick
  {
  }

  /** An accepted flag changes the open board as its log entry says. */
  lemma StolenAt(b: Board, info: int, tr: Triple, t: int, i: int)
    requires info in b.teams && tr.team in b.teams && info != tr.team
    requires tr.service in b.teams[info].services && tr.service in b.teams[tr.team].services
    ensures RawAt(Stolen(b, info, tr), t, i) ==
            RawAt(b, t, i).Plus(Effect(Steal(info, tr.team, tr.tick, tr.service), t, i))
  {
  }

  lemma AddCheckShape(cfg: Config, b: Board, t: int, i: int, success: bool)
    requires Shape(cfg, b) && t in b.teams && i in b.teams[t].services
    ensures Shape(cfg, AddCheck(b, t, i, success)) && AddCheck(b, t, i, success).tick == b.tick
  {
  }

  /** A recorded check changes the open board as its log entry says. */
  lemma AddCheckAt(b: Board, t: int, i: int, success: bool, t': int, i': int)
    requires t in b.teams && i in b.teams[t].services
    ensures RawAt(AddCheck(b, t, i, success), t', i') == RawAt(b, t', i').Plus(Effect(Check(t, i, success), t', i'))
  {
  }

  lemma FreshBoardShape(cfg: Config, tick: int)
    ensures Shape(cfg, FreshBoard(cfg, tick)) && FreshBoard(cfg, tick).tick == tick
  {
  }

  lemma FreshBoardAt(cfg: Config, tick: int, t: int, i: int)
    ensures RawAt(FreshBoard(cfg, tick), t, i) == NO_DATA
  {
  }

  // ---------- Every step keeps the invariant: boards ----------

  lemma InitialInv(cfg: Config, s: State)
    requires cfg.Valid() && IsInitial(s)
    ensures Inv(cfg, s)
  {
  }

  /** A rollover turns the open tick into an archived one and re-summarizes the archive. */
  lemma RolledShapes(cfg: Config, s: State, s': State)
    requires cfg.Valid() && Shapes(cfg, s) && Rolled(cfg, s, s')
    ensures Shapes(cfg, s')
  {
    FreshBoardShape(cfg, s'.currentTick);
    if s.current.Some? {
      SummarizesShape(cfg, [s.current.value], s'.ticks[|s.ticks|]);
      forall k | 0 <= k < |s'.ticks| ensures Shape(cfg, s'.ticks[k]) {
        if k < |s.ticks| {
          assert s'.ticks[k] == s.ticks[k];
        }
      }
      SummarizesShape(cfg, s'.ticks, s'.overall.value);
    }
  }

  lemma RolledScored(cfg: Config, s: State, s': State)
    requires Scored(cfg, s) && Rolled(cfg, s, s')
    ensures Scored(cfg, s')
  {
    if s.current.Some? {
      SummarizesScored(cfg, [s.current.value], s'.ticks[|s.ticks|]);
      SummarizesScored(cfg, s'.ticks, s'.overall.value);
      forall k | 0 <= k < |s'.ticks| ensures BoardScored(cfg, s'.ticks[k]) {
        if k < |s.ticks| {
          assert s'.ticks[k] == s.ticks[k];
        }
      }
    }
  }

  lemma RolledTicks(cfg: Config, s: State, s': State)
    requires cfg.Valid() && Aligned(cfg, s) && Rolled(cfg, s, s') && s.phase == Playing
    ensures |s'.closed| == |s'.ticks| == s.currentTick
    ensures forall k :: 0 <= k < |s'.ticks| ==> s'.ticks[k].tick == k + 1
    ensures s'.overall.Some? <==> |s'.ticks| > 0
    ensures s'.overall.Some? ==> s'.overall.value.tick == |s'.ticks|
    ensures s'.current.Some? && s'.current.value.tick == s'.currentTick
  {
    if s.current.Some? {
      var n := |s.ticks|;
      GatherTick([s.current.value], s.currentTick);
      SummarizesTick(cfg, [s.current.value], s'.ticks[n]);
      forall k | 0 <= k < |s'.ticks| ensures s'.ticks[k].tick == k + 1 {
        if k < n {
          assert s'.ticks[k] == s.ticks[k];
        }
      }
      GatherTick(s'.ticks, n + 1);
      SummarizesTick(cfg, s'.ticks, s'.overall.value);
    }
  }

  lemma SummarizesTick(cfg: Config, ticks: seq<Board>, b: Board)
    requires Summarizes(cfg.ScoringRules(), cfg.nan, ticks, b)
    ensures b.tick == Gather(ticks).tick
  {
  }

  // ---------- Every step keeps the invariant: replay ----------

  /** The tick that is closed keeps the raw data it had while it was open. */
  lemma ClosedTickRaw(cfg: Config, s: State, s': State, t: int, i: int)
    requires cfg.Valid() && Rolled(cfg, s, s') && s.current.Some?
    ensures RawAt(s'.ticks[|s.ticks|], t, i) == RawAt(s.current.value, t, i)
  {
    var b := s.current.value;
    SummarizesRaw(cfg.ScoringRules(), cfg.nan, [b], s'.ticks[|s.ticks|], t, i);
    SumRawExtend([], b, t, i);
    assert [] + [b] == [b];
    PlusNothing(RawAt(b, t, i));
  }

  lemma RolledTicksReplay(cfg: Config, s: State, s': State, t: int, i: int)
    requires cfg.Valid() && Rolled(cfg, s, s') && s.current.Some? && ReplayedAt(s, t, i)
    ensures TicksReplay(s'.ticks, s'.closed, t, i)
  {
    ClosedTickRaw(cfg, s, s', t, i);
    forall k | 0 <= k < |s'.ticks| ensures RawAt(s'.ticks[k], t, i) == Replay(s'.closed[k], t, i) {
      if k < |s.ticks| {
        assert s'.ticks[k] == s.ticks[k];
      }
    }
  }

  lemma RolledReplayedAt(cfg: Config, s: State, s': State, t: int, i: int)
    requires cfg.Valid() && Rolled(cfg, s, s') && ReplayedAt(s, t, i)
    ensures ReplayedAt(s', t, i)
  {
    FreshBoardAt(cfg, s'.currentTick, t, i);
    if s.current.Some? {
      RolledTicksReplay(cfg, s, s', t, i);
      SumOfReplays(s'.ticks, s'.closed, t, i);
      SummarizesRaw(cfg.ScoringRules(), cfg.nan, s'.ticks, s'.overall.value, t, i);
    }
  }

  /** One more entry in the log and its effect on the open board. */
  lemma EntryReplayedAt(s: State, s': State, e: Entry, t: int, i: int)
    requires ReplayedAt(s, t, i) && s.current.Some? && s'.current.Some?
    requires s'.ticks == s.ticks && s'.closed == s.closed && s'.overall == s.overall && s'.open == s.open + [e]
    requires RawAt(s'.current.value, t, i) == RawAt(s.current.value, t, i).Plus(Effect(e, t, i))
    ensures ReplayedAt(s', t, i)
  {
  }

  lemma CheckReplayed(s: State, duty: Duty, success: bool, s': State)
    requires Replayed(s) && CheckRecorded(s, duty, success, s')
    ensures Replayed(s')
  {
    forall t, i ensures ReplayedAt(s', t, i) {
      assert ReplayedAt(s, t, i);
      AddCheckAt(s.current.value, duty.team, duty.check, success, t, i);
      EntryReplayedAt(s, s', Check(duty.team, duty.check, success), t, i);
    }
  }

  lemma FlagReplayed(s: State, info: int, tr: Triple, s': State)
    requires Replayed(s) && FlagScored(s, info, tr, s') && info != tr.team
    ensures Replayed(s')
  {
    forall t, i ensures ReplayedAt(s', t, i) {
      assert ReplayedAt(s, t, i);
      StolenAt(s.current.value, info, tr, t, i);
      EntryReplayedAt(s, s', Steal(info, tr.team, tr.tick, tr.service), t, i);
    }
  }

  // ---------- Every step keeps the invariant: log ----------

  lemma RolledLog(cfg: Config, s: State, s': State)
    requires cfg.Valid() && Rolled(cfg, s, s') && Aligned(cfg, s) && LogSound(cfg, s) && s.phase == Playing
    ensures s'.History() == s.History()
    ensures LogSound(cfg, s')
  {
  }

  lemma StealsOnceExtend(log: seq<Entry>, e: Entry)
    requires StealsOnce(log) && (e.Steal? ==> e !in log)
    ensures StealsOnce(log + [e])
  {
  }

  lemma EntryLogSound(cfg: Config, s: State, s': State, e: Entry)
    requires cfg.Valid() && LogSound(cfg, s) && EntrySound(cfg, e, s.currentTick) && (e.Steal? ==> e !in s.History())
    requires s'.closed == s.closed && s'.open == s.open + [e] && s'.currentTick == s.currentTick
    ensures LogSound(cfg, s')
  {
    assert s'.History() == s.History() + [e];
    StealsOnceExtend(s.History(), e);
  }

  // ---------- Every step keeps the invariant: checks ----------

  lemma RolledCheckedAt(cfg: Config, s: State, s': State, t: int, i: int)
    requires cfg.Valid() && CheckedAt(cfg, s, t, i) && (TickBegins(cfg, s, s') || GameCloses(cfg, s, s'))
    ensures CheckedAt(cfg, s', t, i)
  {
  }

  /** One more entry in the log takes its duty off the pending ones, if it has one. */
  lemma EntryCheckedAt(cfg: Config, s: State, s': State, e: Entry, t: int, i: int)
    requires OpenCheckedAt(cfg, s, t, i) && s.current.Some? && s'.current.Some? && s'.phase == s.phase
    requires s'.open == s.open + [e]
    requires e.Steal? ==> s'.pending == s.pending
    requires e.Check? ==> var duty := Duty(e.team, e.service);
                          s.phase == Playing && cfg.IsDuty(duty) && duty in s.pending
                            && s'.pending == s.pending - {duty}
    ensures OpenCheckedAt(cfg, s', t, i)
  {
  }

  lemma RolledChecked(cfg: Config, s: State, s': State)
    requires cfg.Valid() && Checked(cfg, s) && (TickBegins(cfg, s, s') || GameCloses(cfg, s, s'))
    ensures Checked(cfg, s')
  {
    forall t, i ensures CheckedAt(cfg, s', t, i) {
      assert CheckedAt(cfg, s, t, i);
      RolledCheckedAt(cfg, s, s', t, i);
    }
  }

  lemma CheckChecked(cfg: Config, s: State, duty: Duty, success: bool, s': State)
    requires cfg.Valid() && Checked(cfg, s) && CheckRecorded(s, duty, success, s') && s.phase == Playing
    ensures Checked(cfg, s')
  {
    assert duty in cfg.Duties();
    forall t, i ensures CheckedAt(cfg, s', t, i) {
      assert CheckedAt(cfg, s, t, i);
      EntryCheckedAt(cfg, s, s', Check(duty.team, duty.check, success), t, i);
    }
  }

  lemma FlagChecked(cfg: Config, s: State, info: int, tr: Triple, s': State)
    requires cfg.Valid() && Checked(cfg, s) && FlagScored(s, info, tr, s')
    ensures Checked(cfg, s')
  {
    forall t, i ensures CheckedAt(cfg, s', t, i) {
      assert CheckedAt(cfg, s, t, i);
      EntryCheckedAt(cfg, s, s', Steal(info, tr.team, tr.tick, tr.service), t, i);
    }
  }

  // ---------- Every step keeps the invariant ----------

  lemma RolloverKeepsInv(cfg: Config, s: State, s': State)
    requires cfg.Valid() && Inv(cfg, s) && (TickBegins(cfg, s, s') || GameCloses(cfg, s, s'))
    ensures Inv(cfg, s')
  {
    RolledShapes(cfg, s, s');
    RolledScored(cfg, s, s');
    RolledTicks(cfg, s, s');
    RolledLog(cfg, s, s');
    RolledChecked(cfg, s, s');
    assert Replayed(s') by {
      forall t, i ensures ReplayedAt(s', t, i) {
        assert ReplayedAt(s, t, i);
        RolledReplayedAt(cfg, s, s', t, i);
      }
    }
    assert SignedSound(cfg, s') by {
      forall tr ensures SignedAt(cfg, s', tr) {
        assert SignedAt(cfg, s, tr);
      }
    }
  }

  lemma CheckKeepsInv(cfg: Config, s: State, duty: Duty, success: bool, s': State)
    requires cfg.Valid() && Inv(cfg, s) && CheckRecorded(s, duty, success, s')
    ensures Inv(cfg, s')
  {
    assert cfg.IsDuty(duty);
    AddCheckShape(cfg, s.current.value, duty.team, duty.check, success);
    CheckReplayed(s, duty, success, s');
    EntryLogSound(cfg, s, s', Check(duty.team, duty.check, success));
    CheckChecked(cfg, s, duty, success, s');
    assert SignedSound(cfg, s') by {
      forall tr ensures SignedAt(cfg, s', tr) {
        assert SignedAt(cfg, s, tr);
      }
    }
  }

  /** The duplicate test on the summary and the open tick is a test on the whole log. */
  lemma StolenByIsHistory(cfg: Config, s: State, thief: int, victim: int, tick: int, service: int)
    requires Replayed(s) && s.current.Some? && s.overall.Some?
    ensures StolenBy(s.overall.value, s.current.value, thief, service) == Replay(s.History(), thief, service).stolen
    ensures FlagInfo(victim, tick) in StolenBy(s.overall.value, s.current.value, thief, service)
            <==> Steal(thief, victim, tick, service) in s.History()
  {
    assert ReplayedAt(s, thief, service);
    ReplayConcat(Flatten(s.closed), s.open, thief, service);
    StolenIffLogged(s.History(), thief, service, victim, tick);
  }

  /** An accepted flag is a sound new entry: not the own team's, in the window, of a real team, and not logged yet. */
  lemma AcceptedIsSound(cfg: Config, s: State, info: int, flag: string)
    requires cfg.Valid() && Inv(cfg, s) && Unforged(cfg, s, flag)
    requires Judge(cfg, s.current, s.overall, info, flag) == Answer(FlagAccepted)
    ensures s.current.Some? && cfg.decode(flag).Some?
    ensures var tr := cfg.decode(flag).value;
            && cfg.IsTeamId(info) && cfg.IsTeamId(tr.team) && info != tr.team && 0 <= tr.service < |cfg.services|
            && EntrySound(cfg, Steal(info, tr.team, tr.tick, tr.service), s.currentTick)
            && Steal(info, tr.team, tr.tick, tr.service) !in s.History()
  {
    var tr := cfg.decode(flag).value;
    assert SignedAt(cfg, s, tr);
    StolenByIsHistory(cfg, s, info, tr.team, tr.tick, tr.service);
  }

  lemma FlagKeepsInv(cfg: Config, s: State, info: int, tr: Triple, s': State)
    requires cfg.Valid() && Inv(cfg, s) && FlagScored(s, info, tr, s')
    requires cfg.IsTeamId(info) && cfg.IsTeamId(tr.team) && info != tr.team && 0 <= tr.service < |cfg.services|
    requires EntrySound(cfg, Steal(info, tr.team, tr.tick, tr.service), s.currentTick)
    requires Steal(info, tr.team, tr.tick, tr.service) !in s.History()
    ensures Inv(cfg, s')
  {
    FlagBoards(cfg, s, info, tr, s');
    FlagReplayed(s, info, tr, s');
    EntryLogSound(cfg, s, s', Steal(info, tr.team, tr.tick, tr.service));
    FlagChecked(cfg, s, info, tr, s');
    SameSigned(cfg, s, s');
  }

  lemma FlagBoards(cfg: Config, s: State, info: int, tr: Triple, s': State)
    requires cfg.Valid() && Shapes(cfg, s) && Aligned(cfg, s) && FlagScored(s, info, tr, s')
    requires cfg.IsTeamId(info) && cfg.IsTeamId(tr.team) && 0 <= tr.service < |cfg.services|
    ensures Shapes(cfg, s') && Aligned(cfg, s')
  {
    StolenShape(cfg, s.current.value, info, tr);
  }

  /** Steps that touch no board and no log. */
  lemma SameBoardsKeepInv(cfg: Config, s: State, s': State)
    requires cfg.Valid() && Inv(cfg, s) && Aligned(cfg, s') && SignedSound(cfg, s')
    requires s'.current == s.current && s'.ticks == s.ticks && s'.overall == s.overall
    requires s'.closed == s.closed && s'.open == s.open && s'.pending == s.pending && s'.currentTick == s.currentTick
    requires s.current.None? || (s'.phase == Playing <==> s.phase == Playing)
    ensures Inv(cfg, s')
  {
    SameReplayed(s, s');
    SameChecked(cfg, s, s');
    assert s'.History() == s.History();
  }

  lemma SameReplayed(s: State, s': State)
    requires Replayed(s)
    requires s'.current == s.current && s'.ticks == s.ticks && s'.overall == s.overall
    requires s'.closed == s.closed && s'.open == s.open
    ensures Replayed(s')
  {
    forall t, i ensures ReplayedAt(s', t, i) {
      assert ReplayedAt(s, t, i);
    }
  }

  lemma SameChecked(cfg: Config, s: State, s': State)
    requires Checked(cfg, s)
    requires s'.current == s.current && s'.closed == s.closed && s'.open == s.open && s'.pending == s.pending
    requires s.current.None? || (s'.phase == Playing <==> s.phase == Playing)
    ensures Checked(cfg, s')
  {
    forall t, i ensures CheckedAt(cfg, s', t, i) {
      assert CheckedAt(cfg, s, t, i);
      SameOpenCheckedAt(cfg, s, s', t, i);
    }
  }

  lemma SameOpenCheckedAt(cfg: Config, s: State, s': State, t: int, i: int)
    requires OpenCheckedAt(cfg, s, t, i)
    requires s'.current == s.current && s'.open == s.open && s'.pending == s.pending
    requires s.current.None? || (s'.phase == Playing <==> s.phase == Playing)
    ensures OpenCheckedAt(cfg, s', t, i)
  {
  }

  lemma SameSigned(cfg: Config, s: State, s': State)
    requires SignedSound(cfg, s)
    requires s'.signed == s.signed && s'.currentTick == s.currentTick && s'.pending == s.pending
    ensures SignedSound(cfg, s')
  {
    forall tr ensures SignedAt(cfg, s', tr) {
      assert SignedAt(cfg, s, tr);
    }
  }

  lemma SubmitKeepsInv(cfg: Config, s: State, info: int, flag: string, outcome: Outcome, s': State)
    requires cfg.Valid() && Inv(cfg, s) && Submitted(cfg, s, info, flag, outcome, s')
    ensures Inv(cfg, s')
  {
    var done := s.(inFlight := s.inFlight - 1);
    SameSigned(cfg, s, done);
    SameBoardsKeepInv(cfg, s, done);
    if outcome == Answer(FlagAccepted) {
      AcceptedIsSound(cfg, s, info, flag);
      assert done.History() == s.History();
      FlagKeepsInv(cfg, done, info, cfg.decode(flag).value, s');
    }
  }

  lemma QuietStepKeepsInv(cfg: Config, s: State, step: Step, s': State)
    requires cfg.Valid() && Inv(cfg, s) && Next(cfg, s, step, s')
    requires step.Start? || step.GenerateFlag? || step.EnterSubmit? || step.Stop?
    ensures Inv(cfg, s')
  {
    assert SignedSound(cfg, s') by {
      forall tr ensures SignedAt(cfg, s', tr) {
        assert SignedAt(cfg, s, tr);
      }
    }
    SameBoardsKeepInv(cfg, s, s');
  }

  lemma StepKeepsInv(cfg: Config, s: State, step: Step, s': State)
    requires cfg.Valid() && Inv(cfg, s) && Next(cfg, s, step, s')
    ensures Inv(cfg, s')
  {
    match step
    case RecordCheck(duty, success) => CheckKeepsInv(cfg, s, duty, success, s');
    case Submit(info, flag, outcome) => SubmitKeepsInv(cfg, s, info, flag, outcome, s');
    case FinalRollover => RolloverKeepsInv(cfg, s, s');
    case BeginTick =>
      if TickBegins(cfg, s, s') {
        RolloverKeepsInv(cfg, s, s');
      }
    case _ => QuietStepKeepsInv(cfg, s, step, s');
  }

  lemma {:induction false} RunKeepsInv(cfg: Config, states: seq<State>, steps: seq<Step>, n: nat)
    requires cfg.Valid() && Run(cfg, states, steps) && n <= |steps|
    ensures Inv(cfg, states[n])
  {
    if n == 0 {
      InitialInv(cfg, states[0]);
    } else {
      RunKeepsInv(cfg, states, steps, n - 1);
      assert StepAt(cfg, states, steps, n - 1);
      StepKeepsInv(cfg, states[n - 1], steps[n - 1], states[n]);
    }
  }

  /** The invariant holds in every reachable state. */
  lemma ReachableInv(cfg: Config, s: State)
    requires cfg.Valid() && Reachable(cfg, s)
    ensures Inv(cfg, s)
  {
    var states, steps :| Run(cfg, states, steps) && states[|steps|] == s;
    RunKeepsInv(cfg, states, steps, |steps|);
  }
}
