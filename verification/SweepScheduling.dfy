/**
 How heartbeat sweeps are scheduled: a timer task sets a pending flag and queues work for the
 HTTP task, which clears the flag when the work starts. The two tasks interleave between the
 sections that hold the client mutex.
 */
module SweepScheduling {

  /** Where the timer task is: asleep, about to call the queue, or about to undo after the queue refused. */
  datatype Timer = Asleep | Queueing | Undoing

  /** Where the HTTP task is: not sweeping, started but not past the clear, or sweeping past it. */
  datatype Worker = Free | Started | Sweeping

  datatype State = State(pending: bool, timer: Timer, queued: nat, worker: Worker)

  datatype Step = Tick | QueueAccepts | QueueRefuses | Undo | Start | Clear | Finish

  const INITIAL := State(false, Asleep, 0, Free)

  predicate Enabled(s: State, step: Step) {
    match step
    case Tick => s.timer.Asleep?
    case QueueAccepts => s.timer.Queueing?
    case QueueRefuses => s.timer.Queueing?
    case Undo => s.timer.Undoing?
    case Start => s.worker.Free? && s.queued > 0
    case Clear => s.worker.Started?
    case Finish => s.worker.Sweeping?
  }

  /** One atomic step; a step that is not enabled changes nothing. */
  function Next(s: State, step: Step): State {
    if !Enabled(s, step) then s else
    match step
    case Tick => s.(pending := true, timer := if s.pending then Asleep else Queueing)
    case QueueAccepts => s.(timer := Asleep, queued := s.queued + 1)
    case QueueRefuses => s.(timer := Undoing)
    case Undo => s.(timer := Asleep, pending := false)
    case Start => s.(worker := Started, queued := s.queued - 1)
    case Clear => s.(worker := Sweeping, pending := false)
    case Finish => s.(worker := Free)
  }

  function Run(s: State, steps: seq<Step>): State {
    if steps == [] then s else Next(Run(s, steps[..|steps| - 1]), steps[|steps| - 1])
  }

  /** Sweeps announced but not yet past their clear, including one being queued or undone. */
  function InFlight(s: State): nat {
    (if s.timer.Asleep? then 0 else 1) + s.queued + if s.worker.Started? then 1 else 0
  }

  /**
   Under every interleaving at most one sweep is in flight, and the flag is set exactly while one
   is about to be queued, about to be undone, queued, or started and not past its clear.
   */
  lemma {:induction false} PendingMeansInFlight(steps: seq<Step>)
    ensures var s := Run(INITIAL, steps);
            InFlight(s) <= 1 && (s.pending <==> InFlight(s) == 1)
  {
    if steps != [] {
      PendingMeansInFlight(steps[..|steps| - 1]);
    }
  }

  /** How many steps other than ticks are left before the tasks come to rest. */
  function Rank(s: State): nat {
    (match s.timer case Asleep => 0 case Queueing => 4 case Undoing => 1) + 3 * s.queued +
    match s.worker case Free => 0 case Started => 2 case Sweeping => 1
  }

  function ProgressCount(s: State, steps: seq<Step>): nat {
    if steps == [] then 0
    else
      var before := Run(s, steps[..|steps| - 1]);
      var last := steps[|steps| - 1];
      ProgressCount(s, steps[..|steps| - 1]) + if last != Tick && Enabled(before, last) then 1 else 0
  }

  /** While the flag is set some task can move on. */
  lemma ProgressPossible(steps: seq<Step>)
    requires Run(INITIAL, steps).pending
    ensures exists step :: step != Tick && Enabled(Run(INITIAL, steps), step)
  {
    PendingMeansInFlight(steps);
    var s := Run(INITIAL, steps);
    assert Enabled(s, QueueAccepts) || Enabled(s, Undo) || Enabled(s, Start) || Enabled(s, Clear) || Enabled(s, Finish);
  }

  lemma {:induction false} RunAppend(s: State, first: seq<Step>, second: seq<Step>)
    ensures Run(Run(s, first), second) == Run(s, first + second)
  {
    if second == [] {
      assert first + second == first;
    } else {
      var last := |second| - 1;
      RunAppend(s, first, second[..last]);
      assert (first + second)[..|first + second| - 1] == first + second[..last];
    }
  }

  /** While the flag stays set every move of a task uses up rank and ticks change nothing. */
  lemma {:induction false} RankUsedUp(s: State, steps: seq<Step>)
    requires forall k :: 0 <= k <= |steps| ==> Run(s, steps[..k]).pending
    ensures Rank(Run(s, steps)) + ProgressCount(s, steps) <= Rank(s)
  {
    if steps != [] {
      var shorter := steps[..|steps| - 1];
      assert forall k :: 0 <= k <= |shorter| ==> shorter[..k] == steps[..k];
      RankUsedUp(s, shorter);
      assert Run(s, steps[..|steps| - 1]).pending;
    }
  }

  lemma FlagClears(history: seq<Step>, steps: seq<Step>)
    requires ProgressCount(Run(INITIAL, history), steps) >= Rank(Run(INITIAL, history))
    ensures exists k :: 0 <= k <= |steps| && !Run(INITIAL, history + steps[..k]).pending
  {
    var s := Run(INITIAL, history);
    assert steps[..|steps|] == steps;
    if forall k :: 0 <= k <= |steps| ==> Run(s, steps[..k]).pending {
      RankUsedUp(s, steps);
      RunAppend(INITIAL, history, steps);
      PendingMeansInFlight(history + steps);
      assert false;
    }
    var k :| 0 <= k <= |steps| && !Run(s, steps[..k]).pending;
    RunAppend(INITIAL, history, steps[..k]);
  }

  /**
   The flag never sticks: while it is set some task can move on, from every reachable state, and any
   continuation in which the tasks make as many moves as the rank of that state passes through a
   moment with the flag clear.
   */
  lemma FlagNeverSticks(history: seq<Step>, steps: seq<Step>)
    ensures Run(INITIAL, history).pending ==> exists step :: step != Tick && Enabled(Run(INITIAL, history), step)
    ensures ProgressCount(Run(INITIAL, history), steps) >= Rank(Run(INITIAL, history)) ==>
              exists k :: 0 <= k <= |steps| && !Run(INITIAL, history + steps[..k]).pending
  {
    if Run(INITIAL, history).pending {
      ProgressPossible(history);
    }
    if ProgressCount(Run(INITIAL, history), steps) >= Rank(Run(INITIAL, history)) {
      FlagClears(history, steps);
    }
  }
}
