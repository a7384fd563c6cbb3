/**
  The lists of flags as Go slices: a backing array, a length, and spare capacity that `append` fills in place.
  No two lists on the scoreboards ever share a backing array, so filling spare capacity never shows.
 */
module Slices {
  import opened GoValues
  import opened Scoreboard

  /** A slice that starts at the first element of its backing array; the capacity is the length of the array. */
  datatype Slice = Slice(back: array?<FlagInfo>, len: nat) {
    predicate Fits() {
      if back == null then len == 0 else len <= back.Length
    }

    function Capacity(): nat {
      if back == null then 0 else back.Length
    }

    function Contents(): seq<FlagInfo>
      requires Fits()
      reads back
    {
      if back == null then [] else back[..len]
    }
  }

  const NIL := Slice(null, 0)

  /**
    `append`: in place when there is room, otherwise into a new array, whose size the runtime chooses. The slice
    appended to still reads the same, but its spare capacity may have been overwritten.
   */
  method Append(s: Slice, more: seq<FlagInfo>) returns (r: Slice)
    requires s.Fits()
    modifies s.back
    ensures r.Fits() && r.Contents() == old(s.Contents()) + more
    ensures s.Contents() == old(s.Contents())
    ensures forall j :: s.len + |more| <= j < s.Capacity() ==> s.back[j] == old(s.back[j])
    ensures if s.len + |more| <= s.Capacity() then r.back == s.back else r.back != null && fresh(r.back)
  {
    var needed := s.len + |more|;
    var back := s.back;
    if needed > s.Capacity() {
      back := Grow(s, needed);
    }
    for j := 0 to |more|
      invariant back != null ==> back.Length >= needed && back[..s.len + j] == old(s.Contents()) + more[..j]
      invariant s.Contents() == old(s.Contents())
      invariant forall i :: s.len + j <= i < s.Capacity() ==> s.back[i] == old(s.back[i])
    {
      back[s.len + j] := more[j];
    }
    r := Slice(back, needed);
  }

  method Grow(s: Slice, needed: nat) returns (back: array<FlagInfo>)
    requires s.Fits() && needed > s.Capacity()
    ensures fresh(back) && back.Length >= needed && back[..s.len] == s.Contents()
  {
    var spare: int :| spare >= 0;
    back := new FlagInfo[needed + spare](_ => FlagInfo(0, 0));
    for j := 0 to s.len
      invariant back[..j] == s.Contents()[..j]
    {
      back[j] := s.back[j];
    }
  }

  method Contains(s: Slice, f: FlagInfo) returns (found: bool)
    requires s.Fits()
    ensures found <==> f in s.Contents()
  {
    for j := 0 to s.len
      invariant f !in s.Contents()[..j]
    {
      if s.back[j] == f {
        assert s.Contents()[j] == f;
        return true;
      }
    }
    return false;
  }

  /** Why sharing would be wrong: appending to a prefix of a list overwrites the list. */
  method AppendToPrefix(s: Slice, t: Slice, f: FlagInfo) returns (r: Slice)
    requires s.Fits() && t.Fits() && s.back == t.back && s.len < t.len
    modifies s.back
    ensures t.Contents() == old(t.Contents())[s.len := f]
  {
    r := Append(s, [f]);
    assert s.back[s.len] == r.Contents()[s.len];
  }

  datatype BoardName = Closed(tick: nat) | Overall | Open

  datatype Side = LostFlags | StolenFlags

  /** Which list of a board: of which team, service and side. */
  datatype Cell = Cell(team: int, service: int, side: Side)

  datatype ListKey = ListKey(board: BoardName, cell: Cell)

  /** All lists that can be reached from the scoreboards. */
  class ListTable {
    var slots: map<ListKey, Slice>
    // The only list that uses a backing array.
    ghost var owner: map<object, ListKey>

    constructor ()
      ensures Valid() && View() == map[] && owner == map[]
    {
      slots, owner := map[], map[];
    }

    ghost predicate Owned(k: ListKey, s: Slice)
      reads this
    {
      s.Fits() && (s.back != null ==> s.back in owner && owner[s.back] == k)
    }

    ghost predicate Valid()
      reads this
    {
      forall k :: k in slots ==> Owned(k, slots[k])
    }

    /** No two lists share a backing array. */
    lemma NothingShared(k: ListKey, l: ListKey)
      requires Valid() && k in slots && l in slots && k != l && slots[k].back != null
      ensures slots[k].back != slots[l].back
    {
    }

    ghost function View(): map<ListKey, seq<FlagInfo>>
      requires Valid()
      reads this, owner.Keys
    {
      map k | k in slots :: slots[k].Contents()
    }

    method Create(k: ListKey)
      requires Valid()
      modifies `slots
      ensures Valid() && owner == old(owner) && View() == old(View())[k := []]
    {
      slots := slots[k := NIL];
    }

    method Add(k: ListKey, more: seq<FlagInfo>)
      requires Valid() && k in slots
      modifies this, owner.Keys
      ensures Valid() && fresh(owner.Keys - old(owner.Keys)) && View() == old(View())[k := old(View())[k] + more]
    {
      ghost var before := View();
      var longer := Append(slots[k], more);
      forall l | l in slots && l != k ensures slots[l].Contents() == before[l] {
      }
      if longer.back != slots[k].back {
        Own(k, longer.back);
      }
      Store(k, longer, before);
    }

    ghost method Own(k: ListKey, back: array<FlagInfo>)
      requires Valid() && back !in owner
      modifies `owner
      ensures Valid() && owner == old(owner)[back := k]
    {
      owner := owner[back := k];
    }

    method Store(k: ListKey, longer: Slice, ghost before: map<ListKey, seq<FlagInfo>>)
      requires Valid() && k in slots && Owned(k, longer) && before.Keys == slots.Keys
      requires forall l :: l in slots && l != k ==> slots[l].Contents() == before[l]
      modifies `slots
      ensures Valid() && View() == before[k := longer.Contents()]
    {
      slots := slots[k := longer];
    }

    method Read(k: ListKey) returns (contents: seq<FlagInfo>)
      requires Valid() && k in slots
      ensures contents == View()[k]
    {
      contents := if slots[k].back == null then [] else slots[k].back[..slots[k].len];
    }

    /**
      `flagsStolenBy`: the result may well lie in the spare capacity of the first list, and still no list changes.
     */
    method Together(k: ListKey, l: ListKey) returns (both: Slice)
      requires Valid() && k in slots && l in slots
      modifies owner.Keys
      ensures Valid() && View() == old(View()) && slots == old(slots) && owner == old(owner)
      ensures both.Fits() && both.Contents() == old(View())[k] + old(View())[l]
    {
      ghost var before := View();
      var more := Read(l);
      both := Append(slots[k], more);
      forall m | m in slots ensures slots[m].Contents() == before[m] {
      }
      assert View() == before;
    }

    /** The lists of a new board are empty; what was there before under these names is dropped. */
    method CreateBoard(name: BoardName, cells: set<Cell>)
      requires Valid()
      modifies `slots
      ensures Valid() && owner == old(owner) && View() == Cleared(old(View()), name, cells)
      ensures slots.Keys == old(slots.Keys) + KeysOf(name, cells)
    {
      ghost var before, done: set<Cell> := View(), {};
      var todo := cells;
      assert Cleared(before, name, {}) == before;
      while todo != {}
        invariant Valid() && owner == old(owner) && todo + done == cells && todo !! done
        invariant View() == Cleared(before, name, done)
      {
        var c := Pick(todo);
        ClearedStep(before, name, done, c);
        Create(ListKey(name, c));
        todo, done := todo - {c}, done + {c};
      }
      assert done == cells && slots.Keys == View().Keys;
    }

    /** `append(target, source...)` */
    method AddList(source: ListKey, target: ListKey)
      requires Valid() && source in slots && target in slots
      modifies this, owner.Keys
      ensures Valid() && fresh(owner.Keys - old(owner.Keys)) && slots.Keys == old(slots.Keys)
      ensures View() == old(View())[target := old(View())[target] + old(View())[source]]
    {
      var more := Read(source);
      Add(target, more);
      assert slots.Keys == View().Keys;
    }

    method AddCell(source: BoardName, target: BoardName, c: Cell, ghost before: Lists, ghost done: set<Cell>)
      requires Valid() && source != target && c !in done && ListKey(source, c) in slots && ListKey(target, c) in slots
      requires View() == Joined(before, source, target, done)
      modifies this, owner.Keys
      ensures Valid() && fresh(owner.Keys - old(owner.Keys)) && slots.Keys == old(slots.Keys)
      ensures View() == Joined(before, source, target, done + {c})
    {
      assert View().Keys == slots.Keys == before.Keys;
      AddList(ListKey(source, c), ListKey(target, c));
      JoinedStep(before, source, target, done, c);
    }

    /** The lists of one board are appended to those of another, in any order. */
    method AddBoard(source: BoardName, target: BoardName, cells: set<Cell>)
      requires Valid() && source != target && Has(source, cells) && Has(target, cells)
      modifies this, owner.Keys
      ensures Valid() && fresh(owner.Keys - old(owner.Keys)) && slots.Keys == old(slots.Keys)
      ensures View() == Joined(old(View()), source, target, cells)
    {
      ghost var before, start, done: set<Cell> := View(), owner.Keys, {};
      var todo := cells;
      assert Joined(before, source, target, {}) == before;
      while todo != {}
        invariant Valid() && fresh(owner.Keys - start) && todo + done == cells && todo !! done
        invariant slots.Keys == old(slots.Keys) && Has(source, cells) && Has(target, cells)
        invariant View() == Joined(before, source, target, done)
      {
        var c :| c in todo;
        assert ListKey(source, c) in slots && ListKey(target, c) in slots;
        AddCell(source, target, c, before, done);
        todo, done := todo - {c}, done + {c};
      }
      assert done == cells;
    }

    /** `summarizeState`, its lists: the sources are appended, in order, to the empty lists of a new board. */
    method SumUp(sources: seq<BoardName>, target: BoardName, cells: set<Cell>)
      requires Valid() && target !in sources && forall n :: 0 <= n < |sources| ==> Has(sources[n], cells)
      modifies this, owner.Keys
      ensures Valid() && fresh(owner.Keys - old(owner.Keys)) && slots.Keys == old(slots.Keys) + KeysOf(target, cells)
      ensures View() == SummedUp(old(View()), sources, target, cells)
    {
      ghost var before := View();
      CreateBoard(target, cells);
      for n := 0 to |sources|
        invariant Valid() && fresh(owner.Keys - old(owner.Keys))
        invariant slots.Keys == old(slots.Keys) + KeysOf(target, cells)
        invariant View() == SummedUp(before, sources[..n], target, cells)
      {
        assert sources[..n + 1][..n] == sources[..n];
        assert old(Has(sources[n], cells)) && Has(sources[n], cells);
        AddBoard(sources[n], target, cells);
      }
      assert sources[..|sources|] == sources;
    }

    ghost predicate Has(name: BoardName, cells: set<Cell>)
      reads `slots
    {
      forall c :: c in cells ==> ListKey(name, c) in slots
    }

    /**
      The duplicate check and the two list entries of an accepted flag. The check appends to a slice that lies in the
      summary; the lists change only as the two entries say.
     */
    method Score(thief: Cell, victim: Cell, stolen: FlagInfo, lost: FlagInfo) returns (accepted: bool)
      requires Valid() && thief != victim
      requires Has(Overall, {thief}) && Has(Open, {thief, victim})
      modifies this, owner.Keys
      ensures Valid() && fresh(owner.Keys - old(owner.Keys))
      ensures accepted <==> stolen !in old(View())[ListKey(Overall, thief)] + old(View())[ListKey(Open, thief)]
      ensures View() == if !accepted then old(View())
                        else old(View())[ListKey(Open, thief) := old(View())[ListKey(Open, thief)] + [stolen]]
                                        [ListKey(Open, victim) := old(View())[ListKey(Open, victim)] + [lost]]
    {
      var seen := Together(ListKey(Overall, thief), ListKey(Open, thief));
      var found := Contains(seen, stolen);
      accepted := !found;
      if accepted {
        Add(ListKey(Open, thief), [stolen]);
        assert ListKey(Open, victim) in View();
        Add(ListKey(Open, victim), [lost]);
      }
    }

    /** `updateScoreboard` with `n` closed ticks: close the open tick, sum up the archive, open a new tick. */
    method Rollover(n: nat, cells: set<Cell>)
      requires Valid() && Has(Open, cells) && forall k :: 0 <= k < n ==> Has(Closed(k), cells)
      modifies this, owner.Keys
      ensures Valid() && fresh(owner.Keys - old(owner.Keys)) && View() == RolledLists(old(View()), n, cells)
    {
      SumUp([Open], Closed(n), cells);
      forall k | 0 <= k < n + 1 ensures Has(Closed(k), cells) {
        if k == n {
          KeysOfAll(Closed(n), cells);
        } else {
          assert old(Has(Closed(k), cells));
        }
      }
      ghost var used := owner.Keys;
      assert fresh(used - old(owner.Keys));
      SumUp(ClosedTicks(n + 1), Overall, cells);
      assert fresh(owner.Keys - used);
      CreateBoard(Open, cells);
    }
  }

  lemma KeysOfAll(name: BoardName, cells: set<Cell>)
    ensures forall c :: c in cells ==> ListKey(name, c) in KeysOf(name, cells)
  {
  }

  function ClosedTicks(n: nat): (names: seq<BoardName>)
    ensures |names| == n && forall k :: 0 <= k < n ==> names[k] == Closed(k)
  {
    seq(n, k requires 0 <= k < n => Closed(k))
  }

  type Lists = map<ListKey, seq<FlagInfo>>

  function KeysOf(name: BoardName, cells: set<Cell>): set<ListKey> {
    set c | c in cells :: ListKey(name, c)
  }

  function Cleared(lists: Lists, name: BoardName, cells: set<Cell>): Lists {
    map k | k in lists.Keys + KeysOf(name, cells) :: if k.board == name && k.cell in cells then [] else lists[k]
  }

  lemma ClearedStep(lists: Lists, name: BoardName, done: set<Cell>, c: Cell)
    ensures Cleared(lists, name, done + {c}) == Cleared(lists, name, done)[ListKey(name, c) := []]
  {
  }

  function Joined(lists: Lists, source: BoardName, target: BoardName, done: set<Cell>): Lists {
    map k | k in lists ::
      if k.board == target && k.cell in done && ListKey(source, k.cell) in lists
      then lists[k] + lists[ListKey(source, k.cell)] else lists[k]
  }

  lemma JoinedStep(lists: Lists, source: BoardName, target: BoardName, done: set<Cell>, c: Cell)
    requires source != target && c !in done && ListKey(source, c) in lists && ListKey(target, c) in lists
    ensures var before, k := Joined(lists, source, target, done), ListKey(target, c);
            && before[ListKey(source, c)] == lists[ListKey(source, c)]
            && Joined(lists, source, target, done + {c}) == before[k := before[k] + before[ListKey(source, c)]]
  {
  }

  function SummedUp(lists: Lists, sources: seq<BoardName>, target: BoardName, cells: set<Cell>): Lists {
    if |sources| == 0 then Cleared(lists, target, cells)
    else Joined(SummedUp(lists, sources[..|sources| - 1], target, cells), sources[|sources| - 1], target, cells)
  }

  function RolledLists(lists: Lists, n: nat, cells: set<Cell>): Lists {
    var closed := SummedUp(lists, [Open], Closed(n), cells);
    Cleared(SummedUp(closed, ClosedTicks(n + 1), Overall, cells), Open, cells)
  }

  /** The lists of one cell on several boards, one after the other. */
  function Concatenated(lists: Lists, boards: seq<BoardName>, c: Cell): seq<FlagInfo> {
    if |boards| == 0 then []
    else
      var k := ListKey(boards[|boards| - 1], c);
      Concatenated(lists, boards[..|boards| - 1], c) + if k in lists then lists[k] else []
  }

  lemma {:induction false} SummedUpAt(lists: Lists, sources: seq<BoardName>, target: BoardName, cells: set<Cell>,
                                      k: ListKey)
    requires target !in sources
    ensures var sums := SummedUp(lists, sources, target, cells);
            && (k in sums <==> k in lists || (k.board == target && k.cell in cells))
            && (k in sums ==> sums[k] == if k.board == target && k.cell in cells
                                         then Concatenated(lists, sources, k.cell) else lists[k])
  {
    if |sources| == 0 {
      assert k in KeysOf(target, cells) <==> k.board == target && k.cell in cells;
    } else {
      var init, last := sources[..|sources| - 1], sources[|sources| - 1];
      SummedUpAt(lists, init, target, cells, k);
      SummedUpAt(lists, init, target, cells, ListKey(last, k.cell));
    }
  }

  predicate SameList(a: Lists, b: Lists, k: ListKey) {
    (k in a <==> k in b) && (k in a ==> a[k] == b[k])
  }

  lemma {:induction false} ConcatenatedFrame(a: Lists, b: Lists, boards: seq<BoardName>, c: Cell)
    requires forall n :: 0 <= n < |boards| ==> SameList(a, b, ListKey(boards[n], c))
    ensures Concatenated(a, boards, c) == Concatenated(b, boards, c)
  {
    if |boards| > 0 {
      var init := boards[..|boards| - 1];
      forall n | 0 <= n < |init|
        ensures SameList(a, b, ListKey(init[n], c))
      {
        assert init[n] == boards[n];
      }
      ConcatenatedFrame(a, b, init, c);
    }
  }

  lemma RolledListsFrame(lists: Lists, n: nat, cells: set<Cell>, k: ListKey)
    requires k.cell in cells
    ensures var closed, rolled := SummedUp(lists, [Open], Closed(n), cells), RolledLists(lists, n, cells);
            && (k in rolled <==> k in lists || k.board == Closed(n) || k.board == Overall || k.board == Open)
            && (k.board.Closed? ==> (k in closed <==> k in rolled) && (k in closed ==> rolled[k] == closed[k]))
            && (k.board == Open ==> rolled[k] == [])
            && (k.board == Overall ==> rolled[k] == SummedUp(closed, ClosedTicks(n + 1), Overall, cells)[k])
            && (k.board.Closed? && k.board != Closed(n) && k in lists ==> closed[k] == lists[k])
  {
    var closed := SummedUp(lists, [Open], Closed(n), cells);
    SummedUpAt(lists, [Open], Closed(n), cells, k);
    SummedUpAt(closed, ClosedTicks(n + 1), Overall, cells, k);
    KeysOfAll(Open, cells);
  }

  lemma RolledClosed(lists: Lists, n: nat, cells: set<Cell>, c: Cell)
    requires c in cells && ListKey(Open, c) in lists
    ensures var rolled := RolledLists(lists, n, cells);
            ListKey(Closed(n), c) in rolled && rolled[ListKey(Closed(n), c)] == lists[ListKey(Open, c)]
  {
    SummedUpAt(lists, [Open], Closed(n), cells, ListKey(Closed(n), c));
    RolledListsFrame(lists, n, cells, ListKey(Closed(n), c));
    assert [Open][..0] == [];
    assert Concatenated(lists, [Open], c) == [] + lists[ListKey(Open, c)];
  }

  lemma RolledSummary(lists: Lists, n: nat, cells: set<Cell>, c: Cell)
    requires c in cells
    ensures var rolled := RolledLists(lists, n, cells);
            ListKey(Overall, c) in rolled && rolled[ListKey(Overall, c)] == Concatenated(rolled, ClosedTicks(n + 1), c)
  {
    var closed, rolled := SummedUp(lists, [Open], Closed(n), cells), RolledLists(lists, n, cells);
    SummedUpAt(closed, ClosedTicks(n + 1), Overall, cells, ListKey(Overall, c));
    RolledListsFrame(lists, n, cells, ListKey(Overall, c));
    var names := ClosedTicks(n + 1);
    forall k | 0 <= k < |names| ensures SameList(closed, rolled, ListKey(names[k], c)) {
      RolledListsFrame(lists, n, cells, ListKey(names[k], c));
    }
    ConcatenatedFrame(closed, rolled, names, c);
  }

  /**
    After a rollover the new closed tick has the lists of the old open tick, the summary has those of all closed ticks
    in order, the new open tick has none, and the older closed ticks have not changed.
   */
  lemma RolledListsAt(lists: Lists, n: nat, cells: set<Cell>, c: Cell)
    requires c in cells && forall d :: d in cells ==> ListKey(Open, d) in lists
    ensures var rolled := RolledLists(lists, n, cells);
            && (forall name :: ListKey(name, c) in rolled <==>
                  ListKey(name, c) in lists || name == Closed(n) || name == Overall || name == Open)
            && rolled[ListKey(Closed(n), c)] == lists[ListKey(Open, c)]
            && rolled[ListKey(Overall, c)] == Concatenated(rolled, ClosedTicks(n + 1), c)
            && rolled[ListKey(Open, c)] == []
            && forall k: nat :: k < n && ListKey(Closed(k), c) in lists ==>
                 rolled[ListKey(Closed(k), c)] == lists[ListKey(Closed(k), c)]
  {
    RolledClosed(lists, n, cells, c);
    RolledSummary(lists, n, cells, c);
    forall name {
      RolledListsFrame(lists, n, cells, ListKey(name, c));
    }
  }

  /** The two lists of a service are those that the board records. */
  ghost predicate MirrorsAt(lists: Lists, name: BoardName, b: Board, t: int, i: int) {
    var lost, stolen := ListKey(name, Cell(t, i, LostFlags)), ListKey(name, Cell(t, i, StolenFlags));
    && RawAt(b, t, i).lost == (if lost in lists then lists[lost] else [])
    && RawAt(b, t, i).stolen == (if stolen in lists then lists[stolen] else [])
  }

  /** So appending the lists of the closed ticks gives the lists that the sum of their boards has. */
  lemma {:induction false} ListsAreSums(lists: Lists, ticks: seq<Board>, t: int, i: int)
    requires forall k :: 0 <= k < |ticks| ==> MirrorsAt(lists, Closed(k), ticks[k], t, i)
    ensures Concatenated(lists, ClosedTicks(|ticks|), Cell(t, i, LostFlags)) == SumRaw(ticks, t, i).lost
    ensures Concatenated(lists, ClosedTicks(|ticks|), Cell(t, i, StolenFlags)) == SumRaw(ticks, t, i).stolen
  {
    if |ticks| > 0 {
      var n := |ticks| - 1;
      forall k | 0 <= k < n ensures MirrorsAt(lists, Closed(k), ticks[..n][k], t, i) {
        assert ticks[..n][k] == ticks[k];
      }
      ListsAreSums(lists, ticks[..n], t, i);
      assert MirrorsAt(lists, Closed(n), ticks[n], t, i);
      assert ClosedTicks(n + 1)[..n] == ClosedTicks(n);
    }
  }
}
