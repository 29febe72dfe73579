/** Lifetime usage per model, across any number of processes sharing one file. */
module Ledger {
  import opened Basics

  datatype Usage = Usage(requests: nat, promptTokens: nat, completionTokens: nat)
  {
    function Plus(o: Usage): Usage {
      Usage(requests + o.requests, promptTokens + o.promptTokens, completionTokens + o.completionTokens)
    }
  }

  function NoUsage(): Usage {
    Usage(0, 0, 0)
  }

  type Table = map<string, Usage>

  function In(t: Table, model: string): Usage {
    if model in t then t[model] else NoUsage()
  }

  /** The counters one tick reports: absolute values since its process started. */
  type Counters = seq<(string, Usage)>

  /** The last entry for `model`, if any. */
  function Reported(current: Counters, model: string): Option<Usage> {
    if current == [] then None
    else
      var n := |current| - 1;
      if current[n].0 == model then Some(current[n].1) else Reported(current[..n], model)
  }

  /** The running process's books, and the file that outlives it. */
  class Books {
    var baseline: Table
    var live: Table
    var file: Table

    ghost function View(): State reads this {
      State(baseline, live, file)
    }

    constructor ()
      ensures View() == Empty()
    {
      baseline, live, file := map[], map[], map[];
    }

    /** A new process reads the file; its own counters start from zero. */
    method Load()
      modifies this
      ensures View() == Next(old(View()), Restart)
    {
      baseline := file;
      live := file;
    }

    /** Fold this process's counters onto the baseline, and persist. */
    method Absorb(current: Counters)
      modifies this
      ensures View() == Next(old(View()), Tick(current))
    {
      for k := 0 to |current|
        invariant baseline == old(baseline) && file == old(file)
        invariant live == Folded(baseline, old(live), current[..k])
      {
        var (model, now) := current[k];
        live := live[model := In(baseline, model).Plus(now)];
        assert current[..k + 1][..k] == current[..k];
      }
      assert current[..|current|] == current;
      file := live;
    }
  }

  datatype State = State(baseline: Table, live: Table, file: Table)

  function Empty(): State {
    State(map[], map[], map[])
  }

  datatype Event = Restart | Tick(current: Counters)

  function Folded(baseline: Table, live: Table, current: Counters): Table {
    if current == [] then live
    else
      var n := |current| - 1;
      Folded(baseline, live, current[..n])[current[n].0 := In(baseline, current[n].0).Plus(current[n].1)]
  }

  function Next(s: State, e: Event): State {
    match e
    case Restart => State(s.file, s.file, s.file)
    case Tick(current) =>
      var live := Folded(s.baseline, s.live, current);
      State(s.baseline, live, live)
  }

  function After(events: seq<Event>): State {
    if events == [] then Empty() else Next(After(events[..|events| - 1]), events[|events| - 1])
  }

  // ---- What the totals should be, from the events alone ----

  /** For one model: the last counters of all the processes that have ended, added up, and the
      last counter absorbed by the process now running. */
  datatype Sums = Sums(settled: Usage, current: Usage)

  function NextSums(t: Sums, e: Event, model: string): Sums {
    match e
    case Restart => Sums(t.settled.Plus(t.current), NoUsage())
    case Tick(current) =>
      match Reported(current, model)
      case Some(u) => Sums(t.settled, u)
      case None => t
  }

  function SumsOf(events: seq<Event>, model: string): Sums {
    if events == [] then Sums(NoUsage(), NoUsage())
    else NextSums(SumsOf(events[..|events| - 1], model), events[|events| - 1], model)
  }

  lemma {:induction false} FoldedIs(baseline: Table, live: Table, current: Counters, model: string)
    ensures In(Folded(baseline, live, current), model)
         == match Reported(current, model)
            case Some(u) => In(baseline, model).Plus(u)
            case None => In(live, model)
  {
    if current != [] {
      FoldedIs(baseline, live, current[..|current| - 1], model);
    }
  }

  /** TOTALS SURVIVE RESTARTS. After any sequence of processes and ticks, each model's persisted
      total is the sum over processes of the last counter absorbed: nothing is lost at a
      restart, and no tick is counted twice. */
  lemma {:induction false} FileIsTheSumOverProcesses(events: seq<Event>, model: string)
    ensures Balanced(After(events), SumsOf(events, model), model)
  {
    if events == [] {
      assert After(events) == Empty() && SumsOf(events, model) == Sums(NoUsage(), NoUsage());
      EmptyBalanced(model);
    } else {
      var n := |events| - 1;
      FileIsTheSumOverProcesses(events[..n], model);
      StaysBalanced(After(events[..n]), SumsOf(events[..n], model), events[n], model);
    }
  }

  lemma {:induction false} EmptyBalanced(model: string)
    ensures Balanced(Empty(), Sums(NoUsage(), NoUsage()), model)
  {
  }

  ghost predicate AddsUp(u: Usage, a: Usage, b: Usage) {
    && u.requests == a.requests + b.requests
    && u.promptTokens == a.promptTokens + b.promptTokens
    && u.completionTokens == a.completionTokens + b.completionTokens
  }

  /** The file holds the finished processes and the running one; the baseline holds only the
      finished ones. */
  ghost predicate Balanced(s: State, t: Sums, model: string) {
    && AddsUp(In(s.file, model), t.settled, t.current)
    && In(s.baseline, model) == t.settled
    && In(s.live, model) == In(s.file, model)
  }

  lemma {:induction false} StaysBalanced(s: State, t: Sums, e: Event, model: string)
    requires Balanced(s, t, model)
    ensures Balanced(Next(s, e), NextSums(t, e, model), model)
  {
    if e.Tick? {
      FoldedIs(s.baseline, s.live, e.current, model);
    }
  }

  /** Repeating a tick changes no total. */
  lemma {:induction false} ReabsorbingIsHarmless(events: seq<Event>, current: Counters, model: string)
    ensures var once := Next(After(events), Tick(current));
      In(Next(once, Tick(current)).file, model) == In(once.file, model)
  {
    var s := After(events);
    FoldedIs(s.baseline, s.live, current, model);
    FoldedIs(s.baseline, Folded(s.baseline, s.live, current), current, model);
  }
}
