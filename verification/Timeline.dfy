/** The timeline: events sorted by tick, and one scan of the whole queue in every tick. */
module Timeline {
  import opened GoValues
  import opened GameRules

  /** An event is due at an offset from the start of the game, in nanoseconds. */
  datatype Event = Event(name: string, at: int) {
    function Tick(tickRate: int): int
      requires tickRate > 0
    {
      TruncDiv(at, tickRate)
    }
  }

  /** An event has reached a tick when so many ticks fit before it; its tick is negative only below minus one tick. */
  lemma EventTick(ev: Event, tickRate: int, n: int)
    requires tickRate > 0 && n >= 1
    ensures ev.Tick(tickRate) >= n <==> ev.at >= n * tickRate
    ensures ev.Tick(tickRate) >= 0 <==> ev.at > -tickRate
  {
    QuotientReaches(ev.at, tickRate, n);
  }

  ghost predicate Sorted(queue: seq<Event>, tickRate: int)
    requires tickRate > 0
  {
    forall j, k :: 0 <= j < k < |queue| ==> queue[j].Tick(tickRate) <= queue[k].Tick(tickRate)
  }

  /** The events whose ticks lie in a range, in queue order. */
  function Due(queue: seq<Event>, tickRate: int, first: int, last: int): seq<Event>
    requires tickRate > 0
  {
    if |queue| == 0 then []
    else
      var ev := queue[|queue| - 1];
      Due(queue[..|queue| - 1], tickRate, first, last) + if first <= ev.Tick(tickRate) <= last then [ev] else []
  }

  /** The scan of one tick. */
  method RunEvents(queue: seq<Event>, tickRate: int, tick: int) returns (triggered: seq<Event>)
    requires tickRate > 0
    ensures triggered == Due(queue, tickRate, tick, tick)
  {
    triggered := [];
    for n := 0 to |queue|
      invariant triggered == Due(queue[..n], tickRate, tick, tick)
    {
      assert queue[..n + 1][..n] == queue[..n];
      if queue[n].Tick(tickRate) == tick {
        triggered := triggered + [queue[n]];
      }
    }
    assert queue[..|queue|] == queue;
  }

  /** Everything triggered up to a tick: the scans of ticks 1, 2, ..., one after the other. */
  function Triggered(queue: seq<Event>, tickRate: int, ticks: nat): seq<Event>
    requires tickRate > 0
  {
    if ticks == 0 then [] else Triggered(queue, tickRate, ticks - 1) + Due(queue, tickRate, ticks, ticks)
  }

  /** How many events lie before a tick. */
  function Before(queue: seq<Event>, tickRate: int, tick: int): (n: nat)
    requires tickRate > 0
    ensures n <= |queue|
  {
    if |queue| == 0 then 0
    else Before(queue[..|queue| - 1], tickRate, tick) + if queue[|queue| - 1].Tick(tickRate) < tick then 1 else 0
  }

  lemma {:induction false} BeforeSorted(queue: seq<Event>, tickRate: int, tick: int)
    requires tickRate > 0 && Sorted(queue, tickRate)
    ensures forall j :: 0 <= j < |queue| ==> (j < Before(queue, tickRate, tick) <==> queue[j].Tick(tickRate) < tick)
  {
    if |queue| > 0 {
      BeforeSorted(queue[..|queue| - 1], tickRate, tick);
    }
  }

  /** In a sorted queue the events of a range of ticks stand together. */
  lemma {:induction false} DueIsContiguous(queue: seq<Event>, tickRate: int, first: int, last: int)
    requires tickRate > 0 && Sorted(queue, tickRate) && first <= last + 1
    ensures Before(queue, tickRate, first) <= Before(queue, tickRate, last + 1)
    ensures Due(queue, tickRate, first, last) ==
            queue[Before(queue, tickRate, first)..Before(queue, tickRate, last + 1)]
  {
    if |queue| > 0 {
      var init := queue[..|queue| - 1];
      DueIsContiguous(init, tickRate, first, last);
      BeforeSorted(queue, tickRate, first);
      BeforeSorted(queue, tickRate, last + 1);
    }
  }

  /**
    When tick `ticks` has begun, what has been triggered is the contiguous part of the queue with ticks 1 to `ticks`:
    every such event once, in queue order, and no other.
   */
  lemma {:induction false} TriggeredIsContiguous(queue: seq<Event>, tickRate: int, ticks: nat)
    requires tickRate > 0 && Sorted(queue, tickRate)
    ensures Before(queue, tickRate, 1) <= Before(queue, tickRate, ticks + 1)
    ensures Triggered(queue, tickRate, ticks) == queue[Before(queue, tickRate, 1)..Before(queue, tickRate, ticks + 1)]
  {
    DueIsContiguous(queue, tickRate, 1, ticks);
    if ticks > 0 {
      TriggeredIsContiguous(queue, tickRate, ticks - 1);
      DueIsContiguous(queue, tickRate, ticks, ticks);
      DueIsContiguous(queue, tickRate, 1, ticks - 1);
    }
  }

  lemma {:induction false} DueCounts(queue: seq<Event>, tickRate: int, first: int, last: int, ev: Event)
    requires tickRate > 0
    ensures multiset(Due(queue, tickRate, first, last))[ev] ==
            if first <= ev.Tick(tickRate) <= last then multiset(queue)[ev] else 0
  {
    if |queue| > 0 {
      var init, added := queue[..|queue| - 1], queue[|queue| - 1];
      DueCounts(init, tickRate, first, last, ev);
      assert queue == init + [added];
      OneMoreCounts(init, added, ev);
      OneMoreCounts(Due(init, tickRate, first, last), added, ev);
    }
  }

  lemma OneMoreCounts(s: seq<Event>, added: Event, ev: Event)
    ensures multiset(s + [added])[ev] == multiset(s)[ev] + if added == ev then 1 else 0
  {
  }

  /**
    Whatever order the sort gives to events of the same tick: an event of the timeline has been triggered as often as
    it is listed when the time between its tick and the next contains it, and never before; an event that is due within
    the first tick length never is, because the first tick begins after it.
   */
  lemma TriggeredOnce(timeline: seq<Event>, queue: seq<Event>, tickRate: int, ticks: nat, ev: Event)
    requires tickRate > 0 && Sorted(queue, tickRate) && multiset(queue) == multiset(timeline)
    ensures multiset(Triggered(queue, tickRate, ticks))[ev] ==
            if tickRate <= ev.at < (ticks + 1) * tickRate then multiset(timeline)[ev] else 0
  {
    EventTick(ev, tickRate, 1);
    EventTick(ev, tickRate, ticks + 1);
    TriggeredIsContiguous(queue, tickRate, ticks);
    DueIsContiguous(queue, tickRate, 1, ticks);
    DueCounts(queue, tickRate, 1, ticks, ev);
  }

  // ---------- The timeline of a run ----------

  predicate BeganTick(states: seq<State>, steps: seq<Step>, j: nat)
    requires j < |steps| < |states|
  {
    steps[j].BeginTick? && states[j + 1].currentTick != states[j].currentTick
  }

  /** The ticks that the first `n` steps of a run began, and the events that were triggered in them. */
  function BegunTicks(states: seq<State>, steps: seq<Step>, n: nat): seq<int>
    requires n <= |steps| < |states|
  {
    if n == 0 then []
    else BegunTicks(states, steps, n - 1) + if BeganTick(states, steps, n - 1) then [states[n].currentTick] else []
  }

  function TriggeredIn(queue: seq<Event>, tickRate: int, states: seq<State>, steps: seq<Step>, n: nat): seq<Event>
    requires tickRate > 0 && n <= |steps| < |states|
  {
    if n == 0 then []
    else
      var tick := states[n].currentTick;
      TriggeredIn(queue, tickRate, states, steps, n - 1)
      + if BeganTick(states, steps, n - 1) then Due(queue, tickRate, tick, tick) else []
  }

  lemma TickSteps(cfg: Config, states: seq<State>, steps: seq<Step>, j: nat)
    requires cfg.Valid() && Run(cfg, states, steps) && j < |steps|
    ensures states[j + 1].currentTick ==
            if BeganTick(states, steps, j) then states[j].currentTick + 1 else states[j].currentTick
  {
    assert StepAt(cfg, states, steps, j);
  }

  /** A run begins the ticks 1, 2, ... up to its counter, each once and in this order. */
  lemma {:induction false} RunBeginsTicks(cfg: Config, states: seq<State>, steps: seq<Step>, n: nat)
    requires cfg.Valid() && Run(cfg, states, steps) && n <= |steps|
    ensures var ticks := BegunTicks(states, steps, n);
            |ticks| == states[n].currentTick && forall k :: 0 <= k < |ticks| ==> ticks[k] == k + 1
  {
    if n > 0 {
      RunBeginsTicks(cfg, states, steps, n - 1);
      TickSteps(cfg, states, steps, n - 1);
    }
  }

  lemma {:induction false} RunScans(cfg: Config, queue: seq<Event>, states: seq<State>, steps: seq<Step>, n: nat)
    requires cfg.Valid() && Run(cfg, states, steps) && n <= |steps|
    ensures states[n].currentTick >= 0
    ensures TriggeredIn(queue, cfg.tickRate, states, steps, n) == Triggered(queue, cfg.tickRate, states[n].currentTick)
  {
    RunBeginsTicks(cfg, states, steps, n);
    if n > 0 {
      RunScans(cfg, queue, states, steps, n - 1);
      TickSteps(cfg, states, steps, n - 1);
    }
  }

  /** So what a run has triggered is the contiguous part of the queue with ticks 1 to its counter. */
  lemma RunTriggers(cfg: Config, queue: seq<Event>, states: seq<State>, steps: seq<Step>, n: nat)
    requires cfg.Valid() && Run(cfg, states, steps) && n <= |steps| && Sorted(queue, cfg.tickRate)
    ensures states[n].currentTick >= 0
    ensures TriggeredIn(queue, cfg.tickRate, states, steps, n) == Triggered(queue, cfg.tickRate, states[n].currentTick)
    ensures var first, last := Before(queue, cfg.tickRate, 1), Before(queue, cfg.tickRate, states[n].currentTick + 1);
            first <= last && TriggeredIn(queue, cfg.tickRate, states, steps, n) == queue[first..last]
  {
    RunScans(cfg, queue, states, steps, n);
    TriggeredIsContiguous(queue, cfg.tickRate, states[n].currentTick);
  }
}
