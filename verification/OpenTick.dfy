/** The board of a new tick: every team and bot, every configured service, no data. */
module OpenTick {
  import opened GoValues
  import opened Scoreboard
  import opened GameRules
  import opened ScoreboardObjects

  /** One team or bot with all configured services and no data. */
  method NewTeamState(cfg: Config, t: int) returns (team: TeamState)
    requires cfg.IsTeamId(t)
    ensures fresh(team) && team.Valid() && fresh(team.Repr) && team.id == t && team.View() == FreshTeam(cfg, t)
  {
    team := new TeamState(t, t >= |cfg.teams|, TeamName(cfg, t));
    ghost var blank := team.View();
    for i := 0 to |cfg.services|
      invariant team.Valid() && fresh(team.Repr)
      invariant team.View() == blank.(services := map j | 0 <= j < i :: NewService(cfg.services[j].name))
    {
      team.EnsureService(i, cfg.services[i].name);
    }
  }

  /** The new board when the first `n` teams, and their bots, are on it. */
  function FirstTeams(cfg: Config, tick: int, n: nat): Board {
    Board(tick, map t | t in cfg.TeamIds() && (t < n || BOT_ID_OFFSET <= t < BOT_ID_OFFSET + n) :: FreshTeam(cfg, t))
  }

  lemma OneMoreTeam(cfg: Config, tick: int, n: nat)
    requires cfg.Valid() && n < |cfg.teams|
    ensures var more := WithTeam(FirstTeams(cfg, tick, n), n, FreshTeam(cfg, n));
            FirstTeams(cfg, tick, n + 1) ==
            if cfg.bots then WithTeam(more, BOT_ID_OFFSET + n, FreshTeam(cfg, BOT_ID_OFFSET + n)) else more
  {
  }

  method AddTeam(cfg: Config, board: ScoreboardState, t: int)
    requires cfg.IsTeamId(t) && board.Valid()
    modifies board
    ensures board.Valid() && fresh(board.Repr - old(board.Repr))
    ensures board.View() == WithTeam(old(board.View()), t, FreshTeam(cfg, t))
  {
    var team := NewTeamState(cfg, t);
    assert board.Valid() && board.View() == old(board.View());
    board.PutTeam(t, team);
  }

  method AddTeamAndBot(cfg: Config, board: ScoreboardState, n: nat)
    requires cfg.Valid() && n < |cfg.teams| && board.Valid()
    requires board.View() == FirstTeams(cfg, board.Tick, n)
    modifies board
    ensures board.Valid() && fresh(board.Repr - old(board.Repr)) && board.Tick == old(board.Tick)
    ensures board.View() == FirstTeams(cfg, board.Tick, n + 1)
  {
    OneMoreTeam(cfg, board.Tick, n);
    AddTeam(cfg, board, n);
    if cfg.bots {
      AddTeam(cfg, board, BOT_ID_OFFSET + n);
    }
  }

  lemma AllTeams(cfg: Config, tick: int)
    ensures FirstTeams(cfg, tick, |cfg.teams|) == FreshBoard(cfg, tick)
  {
  }

  /** Nothing has been recorded and nobody has points. */
  ghost predicate Blank(b: Board) {
    forall t :: t in b.teams ==>
      && b.teams[t].points == Num(0.0) && b.teams[t].position == 0
      && forall i :: i in b.teams[t].services ==> BlankService(b.teams[t].services[i])
  }

  predicate BlankService(service: ServiceRecord) {
    && service.raw == Raw([], [], CheckCounts(0, 0))
    && service.score == Score(Num(0.0), Num(0.0), Num(0.0), Num(0.0), Num(0.0))
  }

  lemma FreshIsBlank(cfg: Config, tick: int)
    ensures Blank(FreshBoard(cfg, tick)) && Shape(cfg, FreshBoard(cfg, tick))
  {
  }

  /** The board of a tick that has just begun. */
  method NewScoreboard(cfg: Config, tick: int) returns (board: ScoreboardState)
    requires cfg.Valid()
    ensures board.Valid() && fresh(board.Repr) && board.View() == FreshBoard(cfg, tick)
    ensures Blank(board.View()) && Shape(cfg, board.View()) && board.Tick == tick
  {
    board := new ScoreboardState(tick);
    assert FirstTeams(cfg, tick, 0).teams == map[];
    for n := 0 to |cfg.teams|
      invariant board.Valid() && fresh(board.Repr)
      invariant board.Tick == tick && board.View() == FirstTeams(cfg, tick, n)
    {
      AddTeamAndBot(cfg, board, n);
    }
    AllTeams(cfg, tick);
    FreshIsBlank(cfg, tick);
  }
}
