/**
  The slices of a game are the lists of its boards: the table of slices, worked on as the source works on its slices,
  mirrors the state of the rules after every step of every run.
 */
module GameLists {
  import opened Codec
  import opened Scoreboard
  import opened GameRules
  import opened GameInvariant
  import opened Slices

  /** The lists that every board of the game has. */
  function Cells(cfg: Config): (cells: set<Cell>)
    ensures forall c :: c in cells <==> cfg.IsTeamId(c.team) && 0 <= c.service < |cfg.services|
  {
    var lost := set t, i | t in cfg.TeamIds() && 0 <= i < |cfg.services| :: Cell(t, i, LostFlags);
    var stolen := set t, i | t in cfg.TeamIds() && 0 <= i < |cfg.services| :: Cell(t, i, StolenFlags);
    assert forall c: Cell :: c in lost + stolen <==> cfg.IsTeamId(c.team) && 0 <= c.service < |cfg.services| by {
      forall c: Cell
        ensures c in lost + stolen <==> cfg.IsTeamId(c.team) && 0 <= c.service < |cfg.services|
      {
        assert c == Cell(c.team, c.service, if c.side == LostFlags then LostFlags else StolenFlags);
      }
    }
    lost + stolen
  }

  ghost predicate OnBoards(s: State, name: BoardName) {
    match name
    case Closed(k) => k < |s.ticks|
    case Overall => s.overall.Some?
    case Open => s.current.Some?
  }

  /** The two lists of one service, on all boards. */
  ghost predicate ServiceMirrored(lists: Lists, s: State, t: int, i: int) {
    && (s.current.Some? ==> MirrorsAt(lists, Open, s.current.value, t, i))
    && (forall k :: 0 <= k < |s.ticks| ==> MirrorsAt(lists, Closed(k), s.ticks[k], t, i))
    && (s.overall.Some? ==> MirrorsAt(lists, Overall, s.overall.value, t, i))
  }

  /** The table has exactly the lists of the boards, with their contents. */
  ghost predicate Mirrors(cfg: Config, lists: Lists, s: State) {
    && (forall k :: k in lists <==> OnBoards(s, k.board) && k.cell in Cells(cfg))
    && forall t, i :: ServiceMirrored(lists, s, t, i)
  }

  // ---------- What a step does to the slices ----------

  function WithTheft(lists: Lists, info: int, tr: Triple): Lists
    requires ListKey(Open, Cell(info, tr.service, StolenFlags)) in lists
    requires ListKey(Open, Cell(tr.team, tr.service, LostFlags)) in lists
  {
    var own := ListKey(Open, Cell(info, tr.service, StolenFlags));
    var other := ListKey(Open, Cell(tr.team, tr.service, LostFlags));
    lists[own := lists[own] + [FlagInfo(tr.team, tr.tick)]][other := lists[other] + [FlagInfo(info, tr.tick)]]
  }

  function RolledOver(cfg: Config, lists: Lists, s: State): Lists {
    if s.current.None? then Cleared(lists, Open, Cells(cfg)) else RolledLists(lists, |s.ticks|, Cells(cfg))
  }

  // ---------- A rollover ----------

  lemma RolledKeys(cfg: Config, lists: Lists, s: State, s': State, k: ListKey)
    requires cfg.Valid() && Mirrors(cfg, lists, s) && Rolled(cfg, s, s')
    ensures k in RolledOver(cfg, lists, s) <==> OnBoards(s', k.board) && k.cell in Cells(cfg)
  {
    var cells := Cells(cfg);
    assert k in KeysOf(Open, cells) <==> k.board == Open && k.cell in cells;
    if s.current.Some? {
      var n := |s.ticks|;
      SummedUpAt(lists, [Open], Closed(n), cells, k);
      SummedUpAt(SummedUp(lists, [Open], Closed(n), cells), ClosedTicks(n + 1), Overall, cells, k);
    }
  }

  /** A service that no board has stays without lists. */
  lemma NoListsMirrored(cfg: Config, lists: Lists, s: State, t: int, i: int)
    requires Shapes(cfg, s) && !(cfg.IsTeamId(t) && 0 <= i < |cfg.services|)
    requires forall k :: k in lists ==> k.cell in Cells(cfg)
    ensures ServiceMirrored(lists, s, t, i)
  {
    forall b | Shape(cfg, b) ensures RawAt(b, t, i) == NO_DATA {
      assert t in b.teams ==> TeamShape(cfg, t, b.teams[t]);
    }
  }

  ghost predicate BothIn(cells: set<Cell>, t: int, i: int) {
    Cell(t, i, LostFlags) in cells && Cell(t, i, StolenFlags) in cells
  }

  lemma OpenBecomesClosed(lists: Lists, n: nat, cells: set<Cell>, t: int, i: int, b: Board)
    requires BothIn(cells, t, i) && forall d :: d in cells ==> ListKey(Open, d) in lists
    requires MirrorsAt(lists, Open, b, t, i)
    ensures MirrorsAt(RolledLists(lists, n, cells), Closed(n), b, t, i)
  {
    RolledListsAt(lists, n, cells, Cell(t, i, LostFlags));
    RolledListsAt(lists, n, cells, Cell(t, i, StolenFlags));
  }

  lemma ClosedStays(lists: Lists, n: nat, cells: set<Cell>, t: int, i: int, b: Board, k: nat)
    requires BothIn(cells, t, i)
    requires forall d :: d in cells ==> ListKey(Open, d) in lists && ListKey(Closed(k), d) in lists
    requires k < n && MirrorsAt(lists, Closed(k), b, t, i)
    ensures MirrorsAt(RolledLists(lists, n, cells), Closed(k), b, t, i)
  {
    RolledListsAt(lists, n, cells, Cell(t, i, LostFlags));
    RolledListsAt(lists, n, cells, Cell(t, i, StolenFlags));
  }

  lemma OpenIsEmptied(lists: Lists, n: nat, cells: set<Cell>, t: int, i: int, b: Board)
    requires BothIn(cells, t, i) && forall d :: d in cells ==> ListKey(Open, d) in lists
    requires RawAt(b, t, i) == NO_DATA
    ensures MirrorsAt(RolledLists(lists, n, cells), Open, b, t, i)
  {
    RolledListsAt(lists, n, cells, Cell(t, i, LostFlags));
    RolledListsAt(lists, n, cells, Cell(t, i, StolenFlags));
  }

  lemma ClosedMirrored(cfg: Config, lists: Lists, s: State, s': State, t: int, i: int, k: nat)
    requires cfg.Valid() && Mirrors(cfg, lists, s) && Rolled(cfg, s, s') && s.current.Some? && k <= |s.ticks|
    requires cfg.IsTeamId(t) && 0 <= i < |cfg.services|
    ensures MirrorsAt(RolledLists(lists, |s.ticks|, Cells(cfg)), Closed(k), s'.ticks[k], t, i)
  {
    assert ServiceMirrored(lists, s, t, i);
    if k == |s.ticks| {
      OpenBecomesClosed(lists, k, Cells(cfg), t, i, s.current.value);
      ClosedTickRaw(cfg, s, s', t, i);
    } else {
      assert s'.ticks[k] == s.ticks[k];
      ClosedStays(lists, |s.ticks|, Cells(cfg), t, i, s.ticks[k], k);
    }
  }

  lemma SummaryMirrored(cfg: Config, lists: Lists, s: State, s': State, t: int, i: int)
    requires cfg.Valid() && Mirrors(cfg, lists, s) && Rolled(cfg, s, s') && s.current.Some?
    requires cfg.IsTeamId(t) && 0 <= i < |cfg.services|
    ensures MirrorsAt(RolledLists(lists, |s.ticks|, Cells(cfg)), Overall, s'.overall.value, t, i)
  {
    var rolled := RolledLists(lists, |s.ticks|, Cells(cfg));
    forall k | 0 <= k < |s'.ticks| ensures MirrorsAt(rolled, Closed(k), s'.ticks[k], t, i) {
      ClosedMirrored(cfg, lists, s, s', t, i, k);
    }
    RolledListsAt(lists, |s.ticks|, Cells(cfg), Cell(t, i, LostFlags));
    RolledListsAt(lists, |s.ticks|, Cells(cfg), Cell(t, i, StolenFlags));
    ListsAreSums(rolled, s'.ticks, t, i);
    SummarizesRaw(cfg.ScoringRules(), cfg.nan, s'.ticks, s'.overall.value, t, i);
  }

  /** A rollover of the slices is a rollover of the boards. */
  lemma RolloverMirrors(cfg: Config, lists: Lists, s: State, s': State)
    requires cfg.Valid() && Mirrors(cfg, lists, s) && Shapes(cfg, s) && Rolled(cfg, s, s')
    requires s.current.None? ==> s.ticks == [] && s.overall.None?
    ensures Mirrors(cfg, RolledOver(cfg, lists, s), s')
  {
    var rolled := RolledOver(cfg, lists, s);
    RolledShapes(cfg, s, s');
    forall k ensures k in rolled <==> OnBoards(s', k.board) && k.cell in Cells(cfg) {
      RolledKeys(cfg, lists, s, s', k);
    }
    forall t, i ensures ServiceMirrored(rolled, s', t, i) {
      if cfg.IsTeamId(t) && 0 <= i < |cfg.services| {
        RolledServiceMirrored(cfg, lists, s, s', t, i);
      } else {
        NoListsMirrored(cfg, rolled, s', t, i);
      }
    }
  }

  lemma RolledServiceMirrored(cfg: Config, lists: Lists, s: State, s': State, t: int, i: int)
    requires cfg.Valid() && Mirrors(cfg, lists, s) && Rolled(cfg, s, s')
    requires s.current.None? ==> s.ticks == [] && s.overall.None?
    requires cfg.IsTeamId(t) && 0 <= i < |cfg.services|
    ensures ServiceMirrored(RolledOver(cfg, lists, s), s', t, i)
  {
    FreshBoardAt(cfg, s'.currentTick, t, i);
    if s.current.Some? {
      forall k | 0 <= k < |s'.ticks| ensures MirrorsAt(RolledOver(cfg, lists, s), Closed(k), s'.ticks[k], t, i) {
        ClosedMirrored(cfg, lists, s, s', t, i, k);
      }
      SummaryMirrored(cfg, lists, s, s', t, i);
      OpenIsEmptied(lists, |s.ticks|, Cells(cfg), t, i, s'.current.value);
    }
  }

  // ---------- An accepted flag ----------

  lemma OpenTheftMirrored(lists: Lists, b: Board, info: int, tr: Triple, t: int, i: int)
    requires HasService(b, info, tr.service) && HasService(b, tr.team, tr.service) && info != tr.team
    requires ListKey(Open, Cell(info, tr.service, StolenFlags)) in lists
    requires ListKey(Open, Cell(tr.team, tr.service, LostFlags)) in lists
    requires MirrorsAt(lists, Open, b, t, i)
    ensures MirrorsAt(WithTheft(lists, info, tr), Open, Stolen(b, info, tr), t, i)
  {
    StolenAt(b, info, tr, t, i);
  }

  lemma StolenMirrored(lists: Lists, s: State, info: int, tr: Triple, s': State, t: int, i: int)
    requires ServiceMirrored(lists, s, t, i) && FlagScored(s, info, tr, s') && info != tr.team
    requires ListKey(Open, Cell(info, tr.service, StolenFlags)) in lists
    requires ListKey(Open, Cell(tr.team, tr.service, LostFlags)) in lists
    ensures ServiceMirrored(WithTheft(lists, info, tr), s', t, i)
  {
    OpenTheftMirrored(lists, s.current.value, info, tr, t, i);
  }

  /** The two entries in the slices are the two entries on the board. */
  lemma FlagMirrors(cfg: Config, lists: Lists, s: State, info: int, tr: Triple, s': State)
    requires cfg.Valid() && Mirrors(cfg, lists, s) && FlagScored(s, info, tr, s')
    requires cfg.IsTeamId(info) && cfg.IsTeamId(tr.team) && info != tr.team && 0 <= tr.service < |cfg.services|
    ensures ListKey(Open, Cell(info, tr.service, StolenFlags)) in lists
    ensures ListKey(Open, Cell(tr.team, tr.service, LostFlags)) in lists
    ensures Mirrors(cfg, WithTheft(lists, info, tr), s')
  {
    var scored := WithTheft(lists, info, tr);
    forall k ensures k in scored <==> OnBoards(s', k.board) && k.cell in Cells(cfg) {
      assert k in scored <==> k in lists;
    }
    forall t, i ensures ServiceMirrored(scored, s', t, i) {
      assert ServiceMirrored(lists, s, t, i);
      StolenMirrored(lists, s, info, tr, s', t, i);
    }
  }

  lemma CheckMirrors(cfg: Config, lists: Lists, s: State, duty: Duty, success: bool, s': State)
    requires Mirrors(cfg, lists, s) && CheckRecorded(s, duty, success, s')
    ensures Mirrors(cfg, lists, s')
  {
    forall k ensures k in lists <==> OnBoards(s', k.board) && k.cell in Cells(cfg) {
      assert OnBoards(s', k.board) <==> OnBoards(s, k.board);
    }
    forall t, i ensures ServiceMirrored(lists, s', t, i) {
      assert ServiceMirrored(lists, s, t, i);
      AddCheckAt(s.current.value, duty.team, duty.check, success, t, i);
    }
  }

  lemma SameMirrors(cfg: Config, lists: Lists, s: State, s': State)
    requires Mirrors(cfg, lists, s)
    requires s'.current == s.current && s'.ticks == s.ticks && s'.overall == s.overall
    ensures Mirrors(cfg, lists, s')
  {
    forall k ensures k in lists <==> OnBoards(s', k.board) && k.cell in Cells(cfg) {
      assert OnBoards(s', k.board) <==> OnBoards(s, k.board);
    }
    forall t, i ensures ServiceMirrored(lists, s', t, i) {
      assert ServiceMirrored(lists, s, t, i);
    }
  }

  // ---------- Every run ----------

  /** What a step does to the table: a rollover, the two entries of an accepted flag, or nothing. */
  ghost predicate Follows(cfg: Config, lists: Lists, s: State, step: Step, s': State, lists': Lists)
    requires cfg.Valid()
  {
    if step.FinalRollover? || (step.BeginTick? && s.currentTick < cfg.TotalTicks()) then
      lists' == RolledOver(cfg, lists, s)
    else if step.Submit? && step.outcome == Answer(FlagAccepted) && cfg.decode(step.flag).Some? then
      var tr := cfg.decode(step.flag).value;
      && ListKey(Open, Cell(step.info, tr.service, StolenFlags)) in lists
      && ListKey(Open, Cell(tr.team, tr.service, LostFlags)) in lists
      && lists' == WithTheft(lists, step.info, tr)
    else lists' == lists
  }

  lemma SubmitMirrors(cfg: Config, lists: Lists, s: State, info: int, flag: string, s': State) returns (lists': Lists)
    requires cfg.Valid() && Inv(cfg, s) && Mirrors(cfg, lists, s)
    requires Submitted(cfg, s, info, flag, Answer(FlagAccepted), s')
    ensures Follows(cfg, lists, s, Submit(info, flag, Answer(FlagAccepted)), s', lists') && Mirrors(cfg, lists', s')
  {
    var tr := cfg.decode(flag).value;
    var done := s.(inFlight := s.inFlight - 1);
    AcceptedIsSound(cfg, s, info, flag);
    SameMirrors(cfg, lists, s, done);
    FlagMirrors(cfg, lists, done, info, tr, s');
    lists' := WithTheft(lists, info, tr);
  }

  /** After every step of the game the table of slices can follow, and it mirrors the new state. */
  lemma StepKeepsMirror(cfg: Config, lists: Lists, s: State, step: Step, s': State) returns (lists': Lists)
    requires cfg.Valid() && Inv(cfg, s) && Next(cfg, s, step, s') && Mirrors(cfg, lists, s)
    ensures Follows(cfg, lists, s, step, s', lists') && Mirrors(cfg, lists', s')
  {
    if step.FinalRollover? || (step.BeginTick? && s.currentTick < cfg.TotalTicks()) {
      lists' := RolledOver(cfg, lists, s);
      RolloverMirrors(cfg, lists, s, s');
    } else if step.Submit? && step.outcome == Answer(FlagAccepted) {
      lists' := SubmitMirrors(cfg, lists, s, step.info, step.flag, s');
    } else if step.RecordCheck? {
      CheckMirrors(cfg, lists, s, step.duty, step.success, s');
      lists' := lists;
    } else {
      SameMirrors(cfg, lists, s, s');
      lists' := lists;
    }
  }

  ghost predicate FollowsAt(cfg: Config, states: seq<State>, steps: seq<Step>, lists: seq<Lists>, j: nat)
    requires cfg.Valid() && j < |steps| < |states| && j + 1 < |lists|
  {
    Follows(cfg, lists[j], states[j], steps[j], states[j + 1], lists[j + 1])
  }

  lemma InitialMirrors(cfg: Config, s: State)
    requires IsInitial(s)
    ensures Mirrors(cfg, map[], s)
  {
  }

  lemma RunStepIsMirrored(cfg: Config, states: seq<State>, steps: seq<Step>, lists: Lists, j: nat)
    returns (lists': Lists)
    requires cfg.Valid() && Run(cfg, states, steps) && j < |steps| && Mirrors(cfg, lists, states[j])
    ensures Follows(cfg, lists, states[j], steps[j], states[j + 1], lists') && Mirrors(cfg, lists', states[j + 1])
  {
    RunKeepsInv(cfg, states, steps, j);
    assert StepAt(cfg, states, steps, j);
    lists' := StepKeepsMirror(cfg, lists, states[j], steps[j], states[j + 1]);
  }

  /** Along every run the table of slices goes along with the boards, starting empty. */
  lemma {:induction false} RunIsMirrored(cfg: Config, states: seq<State>, steps: seq<Step>, n: nat)
    returns (lists: seq<Lists>)
    requires cfg.Valid() && Run(cfg, states, steps) && n <= |steps|
    ensures |lists| == n + 1 && lists[0] == map[]
    ensures forall j :: 0 <= j < n ==> FollowsAt(cfg, states, steps, lists, j)
    ensures forall j :: 0 <= j <= n ==> Mirrors(cfg, lists[j], states[j])
  {
    if n == 0 {
      lists := [map[]];
      InitialMirrors(cfg, states[0]);
    } else {
      var before := RunIsMirrored(cfg, states, steps, n - 1);
      var last := RunStepIsMirrored(cfg, states, steps, before[n - 1], n - 1);
      lists := before + [last];
      forall j | 0 <= j < n ensures FollowsAt(cfg, states, steps, lists, j) {
        if j < n - 1 {
          assert FollowsAt(cfg, states, steps, before, j);
        }
      }
    }
  }

  // ---------- The slices themselves ----------

  lemma MirrorHas(cfg: Config, table: ListTable, s: State)
    requires table.Valid() && Mirrors(cfg, table.View(), s)
    ensures s.current.Some? ==> table.Has(Open, Cells(cfg))
    ensures forall k :: 0 <= k < |s.ticks| ==> table.Has(Closed(k), Cells(cfg))
  {
    assert table.View().Keys == table.slots.Keys;
  }

  /** `updateScoreboard` on the slices, with `n` closed ticks; `begun` tells whether there is an open tick. */
  method RollSlices(table: ListTable, cfg: Config, begun: bool, n: nat, ghost s: State, ghost s': State)
    requires cfg.Valid() && table.Valid() && Mirrors(cfg, table.View(), s) && Shapes(cfg, s) && Rolled(cfg, s, s')
    requires begun == s.current.Some? && n == |s.ticks| && (s.current.None? ==> s.ticks == [] && s.overall.None?)
    modifies table, table.owner.Keys
    ensures table.Valid() && Mirrors(cfg, table.View(), s')
  {
    RolloverMirrors(cfg, table.View(), s, s');
    MirrorHas(cfg, table, s);
    if begun {
      table.Rollover(n, Cells(cfg));
    } else {
      table.CreateBoard(Open, Cells(cfg));
    }
  }

  /** The last part of `submitFlag` on the slices: it decides as on the boards, and the slices follow the boards. */
  method SubmitSlices(table: ListTable, cfg: Config, info: int, tr: Triple, ghost s: State, ghost s': State)
      returns (accepted: bool)
    requires cfg.Valid() && table.Valid() && Mirrors(cfg, table.View(), s) && FlagScored(s, info, tr, s')
    requires s.overall.Some? && cfg.IsTeamId(info) && cfg.IsTeamId(tr.team) && info != tr.team
    requires 0 <= tr.service < |cfg.services|
    modifies table, table.owner.Keys
    ensures table.Valid()
    ensures accepted <==>
            FlagInfo(tr.team, tr.tick) !in StolenBy(s.overall.value, s.current.value, info, tr.service)
    ensures Mirrors(cfg, table.View(), if accepted then s' else s)
  {
    ghost var lists := table.View();
    FlagMirrors(cfg, lists, s, info, tr, s');
    assert lists.Keys == table.slots.Keys;
    assert ServiceMirrored(lists, s, info, tr.service);
    var thief, victim := Cell(info, tr.service, StolenFlags), Cell(tr.team, tr.service, LostFlags);
    assert ListKey(Overall, thief) in lists;
    accepted := table.Score(thief, victim, FlagInfo(tr.team, tr.tick), FlagInfo(info, tr.tick));
  }
}
