/** `summarizeState` on the mutable scoreboards: sum up the ticks, score the sums, rank the teams. */
module Summarize {
  import opened Collections
  import opened GoValues
  import opened Scoreboard
  import opened ScoreboardObjects

  /** Every service on the board has a place in the configured list. */
  ghost predicate InRange(b: Board, n: nat) {
    forall t, i :: t in b.teams && i in b.teams[t].services ==> 0 <= i < n
  }

  lemma {:induction false} GatherInRange(ticks: seq<Board>, n: nat)
    requires forall k :: 0 <= k < |ticks| ==> InRange(ticks[k], n)
    ensures InRange(Gather(ticks), n)
  {
    if |ticks| == 0 {
    } else {
      var before, last := Gather(ticks[..|ticks| - 1]), ticks[|ticks| - 1];
      GatherInRange(ticks[..|ticks| - 1], n);
      var merged := MergeBoard(before, last);
      forall t, i | t in merged.teams && i in merged.teams[t].services ensures 0 <= i < n {
        if t in last.teams {
          assert merged.teams[t] == MergeTeam(before.teams, t, last.teams[t]);
        } else {
          assert merged.teams[t] == before.teams[t];
        }
      }
    }
  }

  // ---------- Sums ----------

  /** Sum up the raw data of all ticks. */
  method GatherTicks(ticks: seq<ScoreboardState>, ghost views: seq<Board>) returns (result: ScoreboardState)
    requires |views| == |ticks| && forall k :: 0 <= k < |ticks| ==> ticks[k].Valid() && ticks[k].View() == views[k]
    ensures result.Valid() && fresh(result.Repr) && result.View() == Gather(views)
  {
    result := new ScoreboardState(0);
    for n := 0 to |ticks|
      invariant result.Valid() && fresh(result.Repr)
      invariant forall k :: 0 <= k < |ticks| ==> ticks[k].Valid() && ticks[k].View() == views[k]
      invariant result.View() == Gather(views[..n])
    {
      assert views[..n + 1][..n] == views[..n];
      result.Absorb(ticks[n]);
    }
    assert views[..|ticks|] == views;
  }

  // ---------- Scores ----------

  lemma ScoreTeamsStep(scoring: Scoring, b: Board, done: set<int>, t: int)
    requires t in b.teams && t !in done
    ensures var before := ScoreTeams(scoring, b.teams, done);
            && before[t] == b.teams[t]
            && b.(teams := ScoreTeams(scoring, b.teams, done + {t})) ==
               WithTeam(b.(teams := before), t, ScoreTeam(scoring, b.teams[t]))
  {
  }

  /** Score every team and list them all, in any order. */
  method ScoreBoard(scoring: Scoring, board: ScoreboardState) returns (order: seq<int>)
    requires board.Valid() && InRange(board.View(), |scoring.private|)
    modifies board.Repr
    ensures board.Valid() && board.Repr == old(board.Repr)
    ensures board.View() == old(board.View()).(teams :=
              ScoreTeams(scoring, old(board.View()).teams, old(board.View()).teams.Keys))
    ensures Lists(order, old(board.View()).teams.Keys)
  {
    ghost var before, done: set<int> := board.View(), {};
    var todo := board.Teams.Keys;
    order := [];
    assert before.teams == ScoreTeams(scoring, before.teams, {});
    while todo != {}
      invariant board.Valid() && board.Repr == old(board.Repr) && InRange(before, |scoring.private|)
      invariant done !! todo && done + todo == before.teams.Keys == board.Teams.Keys && Lists(order, done)
      invariant board.View() == before.(teams := ScoreTeams(scoring, before.teams, done))
    {
      var t := Pick(todo);
      ScoreTeamsStep(scoring, before, done, t);
      assert board.View().teams[t] == board.Teams[t].View() == before.teams[t];
      assert board.Teams[t].Services.Keys == before.teams[t].services.Keys;
      board.ScoreTeamAt(scoring, t);
      order := order + [t];
      todo, done := todo - {t}, done + {t};
    }
    assert done == before.teams.Keys;
  }

  // ---------- Positions ----------

  /** Every id of the set once, and nothing else. */
  ghost predicate Lists(order: seq<int>, ids: set<int>) {
    && (forall j, k :: 0 <= j < k < |order| ==> order[j] != order[k])
    && (forall j :: 0 <= j < |order| ==> order[j] in ids)
    && (forall t :: t in ids ==> t in order)
  }

  ghost predicate SortedBy(keys: map<int, int>, order: seq<int>)
    requires forall j :: 0 <= j < |order| ==> order[j] in keys
  {
    forall j, k :: 0 <= j < k < |order| ==> keys[order[j]] >= keys[order[k]]
  }

  /** Sort the teams by whole points, best first. Which of two tied teams comes first is not promised. */
  method Sort(keys: map<int, int>, order: seq<int>) returns (sorted: seq<int>)
    requires Lists(order, keys.Keys)
    ensures Lists(sorted, keys.Keys) && SortedBy(keys, sorted)
  {
    sorted := [];
    for n := 0 to |order|
      invariant Lists(sorted, Elements(order[..n])) && forall j :: 0 <= j < |sorted| ==> sorted[j] in keys
      invariant SortedBy(keys, sorted)
    {
      assert order[..n + 1] == order[..n] + [order[n]];
      sorted := Insert(keys, sorted, order[n], Elements(order[..n]));
      assert Elements(order[..n + 1]) == Elements(order[..n]) + {order[n]};
    }
    assert order[..|order|] == order;
  }

  method Insert(keys: map<int, int>, sorted: seq<int>, t: int, ghost ids: set<int>) returns (longer: seq<int>)
    requires t in keys && t !in ids && Lists(sorted, ids) && ids <= keys.Keys && SortedBy(keys, sorted)
    ensures Lists(longer, ids + {t}) && SortedBy(keys, longer)
  {
    var p := 0;
    while p < |sorted| && keys[sorted[p]] >= keys[t]
      invariant 0 <= p <= |sorted| && forall j :: 0 <= j < p ==> keys[sorted[j]] >= keys[t]
    {
      p := p + 1;
    }
    longer := sorted[..p] + [t] + sorted[p..];
    assert sorted == sorted[..p] + sorted[p..];
    InsertedLists(sorted[..p], sorted[p..], t, ids);
    InsertedSorted(keys, sorted[..p], sorted[p..], t);
  }

  lemma InsertedLists(low: seq<int>, high: seq<int>, t: int, ids: set<int>)
    requires t !in ids && Lists(low + high, ids)
    ensures Lists(low + [t] + high, ids + {t})
  {
    var sorted, longer := low + high, low + [t] + high;
    forall j, k | 0 <= j < k < |longer| ensures longer[j] != longer[k] {
      var j', k' := if j < |low| then j else j - 1, if k < |low| then k else k - 1;
      assert j != |low| ==> longer[j] == sorted[j'] && sorted[j'] in ids;
      assert k != |low| ==> longer[k] == sorted[k'] && sorted[k'] in ids;
    }
    forall u | u in ids + {t} ensures u in longer {
      assert u != t ==> u in sorted;
    }
    forall j | 0 <= j < |longer| ensures longer[j] in ids + {t} {
      assert j != |low| ==> longer[j] == sorted[if j < |low| then j else j - 1];
    }
  }

  lemma InsertedSorted(keys: map<int, int>, low: seq<int>, high: seq<int>, t: int)
    requires t in keys && forall j :: 0 <= j < |low + high| ==> (low + high)[j] in keys
    requires SortedBy(keys, low + high)
    requires forall j :: 0 <= j < |low| ==> low[j] in keys && keys[low[j]] >= keys[t]
    requires high != [] ==> high[0] in keys && keys[high[0]] < keys[t]
    ensures var longer := low + [t] + high;
            (forall j :: 0 <= j < |longer| ==> longer[j] in keys) && SortedBy(keys, longer)
  {
    var sorted, longer := low + high, low + [t] + high;
    forall j | 0 <= j < |longer| ensures longer[j] in keys {
      assert j != |low| ==> longer[j] == sorted[if j < |low| then j else j - 1];
    }
    forall j, k | 0 <= j < k < |longer| ensures keys[longer[j]] >= keys[longer[k]] {
      var j', k' := if j < |low| then j else j - 1, if k < |low| then k else k - 1;
      assert j != |low| ==> longer[j] == sorted[j'];
      assert k != |low| ==> longer[k] == sorted[k'];
      if k > |low| {
        assert sorted[|low|] == high[0];
      }
    }
  }

  function RankKeys(b: Board, nan: int): map<int, int> {
    map t | t in b.teams :: RankKey(b.teams[t].points, nan)
  }

  /** The board when the first `n` teams of a ranking have their positions. */
  ghost function Ranking(b: Board, order: seq<int>, n: nat): (placed: Board)
    requires n <= |order| && forall j :: 0 <= j < |order| ==> order[j] in b.teams
    ensures placed.teams.Keys == b.teams.Keys
  {
    if n == 0 then b else Placed(Ranking(b, order, n - 1), order[n - 1], n)
  }

  lemma {:induction false} RankingAt(b: Board, order: seq<int>, n: nat, t: int)
    requires n <= |order| && Lists(order, b.teams.Keys) && t in b.teams
    ensures var team := Ranking(b, order, n).teams[t];
            && team == b.teams[t].(position := team.position)
            && forall j :: 0 <= j < n && order[j] == t ==> team.position == j + 1
  {
    if n == 0 {
    } else {
      RankingAt(b, order, n - 1, t);
    }
  }

  lemma {:induction false} RankingTick(b: Board, order: seq<int>, n: nat)
    requires n <= |order| && forall j :: 0 <= j < |order| ==> order[j] in b.teams
    ensures Ranking(b, order, n).tick == b.tick
  {
    if n == 0 {
    } else {
      RankingTick(b, order, n - 1);
    }
  }

  /** Numbering the teams of a sorted list ranks the board and changes nothing else. */
  lemma RankingRanks(b: Board, order: seq<int>, nan: int)
    requires Lists(order, b.teams.Keys)
    requires SortedBy(RankKeys(b, nan), order)
    ensures var placed := Ranking(b, order, |order|); Ranked(placed, nan) && Unplaced(placed) == Unplaced(b)
  {
    var placed := Ranking(b, order, |order|);
    RankingTick(b, order, |order|);
    forall t | t in b.teams ensures placed.teams[t] == b.teams[t].(position := placed.teams[t].position) {
      RankingAt(b, order, |order|, t);
    }
    assert Unplaced(placed).teams == Unplaced(b).teams;
    RankingSorted(b, placed, order, nan);
  }

  lemma RankingSorted(b: Board, placed: Board, order: seq<int>, nan: int)
    requires Lists(order, b.teams.Keys) && SortedBy(RankKeys(b, nan), order)
    requires placed == Ranking(b, order, |order|)
    requires forall t :: t in b.teams ==> placed.teams[t].points == b.teams[t].points
    ensures IsRanking(placed, order, nan)
  {
    forall j | 0 <= j < |order| ensures placed.teams[order[j]].position == j + 1 {
      RankingAt(b, order, |order|, order[j]);
    }
    forall j, k | 0 <= j < k < |order|
      ensures RankKey(placed.teams[order[j]].points, nan) >= RankKey(placed.teams[order[k]].points, nan)
    {
      SortedPair(b, placed, order, nan, j, k);
    }
  }

  lemma SortedPair(b: Board, placed: Board, order: seq<int>, nan: int, j: nat, k: nat)
    requires j < k < |order| && Lists(order, b.teams.Keys) && b.teams.Keys == placed.teams.Keys
    requires SortedBy(RankKeys(b, nan), order)
    requires forall t :: t in b.teams ==> placed.teams[t].points == b.teams[t].points
    ensures RankKey(placed.teams[order[j]].points, nan) >= RankKey(placed.teams[order[k]].points, nan)
  {
  }

  method KeysOf(board: ScoreboardState, nan: int) returns (keys: map<int, int>)
    requires board.Valid()
    ensures keys == RankKeys(board.View(), nan)
  {
    keys := map t | t in board.Teams :: RankKey(board.Teams[t].Points, nan);
    ghost var view := board.View();
    forall t | t in keys ensures keys[t] == RankKeys(view, nan)[t] {
      assert view.teams[t] == board.Teams[t].View();
    }
  }

  /** The teams get the positions 1, 2, ... in the order given. */
  method Number(board: ScoreboardState, order: seq<int>)
    requires board.Valid() && forall j :: 0 <= j < |order| ==> order[j] in board.View().teams
    modifies board.Repr
    ensures board.Valid() && board.Repr == old(board.Repr)
    ensures board.View() == Ranking(old(board.View()), order, |order|)
  {
    ghost var before := board.View();
    for n := 0 to |order|
      invariant board.Valid() && board.Repr == old(board.Repr) && board.Teams == old(board.Teams)
      invariant board.View() == Ranking(before, order, n)
    {
      board.PlaceTeam(order[n], n + 1);
    }
  }

  /** Sort the teams by points and number them. */
  method RankBoard(board: ScoreboardState, order: seq<int>, nan: int)
    requires board.Valid() && Lists(order, board.View().teams.Keys)
    modifies board.Repr
    ensures board.Valid() && board.Repr == old(board.Repr)
    ensures Ranked(board.View(), nan) && Unplaced(board.View()) == Unplaced(old(board.View()))
  {
    var keys := KeysOf(board, nan);
    var sorted := Sort(keys, order);
    RankingRanks(board.View(), sorted, nan);
    Number(board, sorted);
  }

  // ---------- Summaries ----------

  lemma {:induction false} GatherUnplaced(ticks: seq<Board>)
    ensures forall t :: t in Gather(ticks).teams ==> Gather(ticks).teams[t].position == 0
  {
    if |ticks| == 0 {
    } else {
      var before, last := Gather(ticks[..|ticks| - 1]), ticks[|ticks| - 1];
      GatherUnplaced(ticks[..|ticks| - 1]);
      var merged := MergeBoard(before, last);
      forall t | t in merged.teams ensures merged.teams[t].position == 0 {
        if t in last.teams {
          assert merged.teams[t] == MergeTeam(before.teams, t, last.teams[t]);
        }
      }
    }
  }

  lemma SummaryUnplaced(scoring: Scoring, ticks: seq<Board>)
    ensures Unplaced(Summary(scoring, ticks)) == Summary(scoring, ticks)
  {
    GatherUnplaced(ticks);
    var b := Summary(scoring, ticks);
    forall t | t in b.teams ensures b.teams[t].(position := 0) == b.teams[t] {
      assert b.teams[t] == ScoreTeam(scoring, Gather(ticks).teams[t]);
    }
    assert Unplaced(b).teams == b.teams;
  }

  /** A new board that sums up, scores and ranks the given ticks, none of which changes. */
  method SummarizeState(scoring: Scoring, nan: int, ticks: seq<ScoreboardState>, ghost views: seq<Board>)
    returns (result: ScoreboardState)
    requires |views| == |ticks| && forall k :: 0 <= k < |ticks| ==> ticks[k].Valid() && ticks[k].View() == views[k]
    requires forall k :: 0 <= k < |views| ==> InRange(views[k], |scoring.private|)
    ensures result.Valid() && fresh(result.Repr)
    ensures Summarizes(scoring, nan, views, result.View())
  {
    result := GatherTicks(ticks, views);
    GatherInRange(views, |scoring.private|);
    var order := ScoreBoard(scoring, result);
    SummaryUnplaced(scoring, views);
    RankBoard(result, order, nan);
  }
}
