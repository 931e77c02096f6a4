// A component supervised by Restart, itself supervised by Reset, with its
// resets requested through a buffered channel (common/daemon/component.go).
// Every goroutine step is an atomic step.
module Supervision {
  import opened Prelude

  // What happens to the components at the bottom.  gen counts the Restarts
  // that Reset has launched; at is the clock reading before the start; a start
  // that is not ok has returned no component.
  datatype Event =
    | Started(gen: nat, at: int, ok: bool)
    | Stopped

  // Where Restart is in its loop.
  datatype RestartAt =
    | Top                  // to read the clock
    | Starting             // to call start
    | Selecting            // started; waiting for a stop or an error
    | StoppingComponent    // to stop the component, if there is one
    | Checking             // to look at whether it was a stop
    | Waiting(until: int)  // for the interval to end
    | Done                 // finished is closed

  datatype Restart = Restart(
    at: RestartAt,
    gen: nat,
    tStart: int,
    component: bool,  // start has returned one
    failed: bool,     // an error has been posted
    stopAsked: bool,  // the stop channel is closed
    stopped: bool)

  // Where Reset is.
  datatype ResetAt =
    | First           // waiting for an initial reset
    | Draining        // taking redundant resets
    | Launching       // found no more of them
    | Watching        // waiting for a stop or a reset
    | Ending(last: bool)  // stopping the Restart, for good or not
    | Finished

  datatype State = State(
    now: int,
    log: seq<Event>,
    at: ResetAt,
    stopAsked: bool,
    buffered: nat,   // resets in the channel
    unserved: bool,  // a reset has been requested since the last launch
    gens: nat,
    child: Option<Restart>)

  datatype Config = Config(interval: int, capacity: nat)

  function Initial(now: int): State {
    State(now, [], First, false, 0, false, 0, None)
  }

  // --- the steps of Restart ---

  ghost predicate RestartStep(c: Config, r: Restart, r': Restart, now: int, log: seq<Event>, log': seq<Event>) {
    match r.at
    case Top =>
      log' == log && r' == r.(at := Starting, tStart := now, failed := false)
    case Starting =>
      exists ok: bool ::
        log' == log + [Started(r.gen, r.tStart, ok)] && r' == r.(at := Selecting, component := ok, failed := r'.failed)
    case Selecting =>
      log' == log &&
      ((r.stopAsked && r' == r.(at := StoppingComponent, stopped := true)) ||
       (r.failed && r' == r.(at := StoppingComponent)))
    case StoppingComponent =>
      && log' == (if r.component then log + [Stopped] else log)
      && r' == r.(at := Checking, component := false)
    case Checking =>
      log' == log && r' == r.(at :=
        if r.stopped then Done
        else if r.tStart + c.interval > now then Waiting(r.tStart + c.interval)
        else Top)
    case Waiting(until) =>
      log' == log &&
      ((r.stopAsked && r' == r.(at := Done)) ||
       (now >= until && r' == r.(at := Top)))
    case Done => false
  }

  // --- the steps of Reset, and what happens around it ---

  datatype Step =
    | Tick            // time passes
    | Request         // requestReset: dropped if the buffer is full
    | AskStop         // someone stops the whole
    | Fail            // an error is posted to the current sink
    | Child           // Restart moves
    | Consume         // Reset takes a request
    | Drained         // no more requests
    | Launch
    | Leave           // Reset sees the stop
    | AskChild        // the stop channel of Restart is closed
    | Reap            // and Restart has finished

  function NewRestart(gen: nat): Restart {
    Restart(Top, gen, 0, false, false, false, false)
  }

  ghost predicate Next(c: Config, s: State, s': State, step: Step) {
    match step
    case Tick => s'.now >= s.now && s' == s.(now := s'.now)
    case Request => s' ==
      s.(unserved := true, buffered := if s.buffered < c.capacity then s.buffered + 1 else s.buffered)
    case AskStop => s' == s.(stopAsked := true)
    case Fail => s.child.Some? && s' == s.(child := Some(s.child.value.(failed := true)))
    case Child =>
      && s.child.Some? && s'.child.Some?
      && RestartStep(c, s.child.value, s'.child.value, s.now, s.log, s'.log)
      && s' == s.(log := s'.log, child := s'.child)
    case Consume =>
      && s.buffered > 0
      && (match s.at
          case First => s' == s.(buffered := s.buffered - 1, at := Draining)
          case Draining => s' == s.(buffered := s.buffered - 1)
          case Watching => s' == s.(buffered := s.buffered - 1, at := Ending(false))
          case _ => false)
    case Drained => s.at == Draining && s.buffered == 0 && s' == s.(at := Launching)
    case Launch =>
      s.at == Launching &&
      s' == s.(at := Watching, unserved := false, gens := s.gens + 1, child := Some(NewRestart(s.gens)))
    case Leave =>
      s.stopAsked &&
      (match s.at
       case First => s' == s.(at := Finished)
       case Watching => s' == s.(at := Ending(true))
       case _ => false)
    case AskChild => s.at.Ending? && s.child.Some? && s' == s.(child := Some(s.child.value.(stopAsked := true)))
    case Reap =>
      s.at.Ending? && s.child.Some? && s.child.value.at == Done && s.child.value.stopAsked &&
      s' == s.(child := None, at := if s.at.last then Finished else Draining)
  }

  // --- what the log must look like ---

  ghost predicate Alive(log: seq<Event>) {
    log != [] && log[|log| - 1].Started? && log[|log| - 1].ok
  }

  // The latest start, if any.
  function LastStart(log: seq<Event>): (last: Option<Event>)
    ensures last.Some? ==> last.value.Started?
  {
    if log == [] then None
    else if log[|log| - 1].Started? then Some(log[|log| - 1])
    else LastStart(log[..|log| - 1])
  }

  ghost predicate MayFollow(c: Config, log: seq<Event>, e: Event) {
    match e
    case Started(gen, at, _) =>
      && !Alive(log)
      && (var last := LastStart(log);
          last.Some? ==> last.value.gen <= gen && (last.value.gen == gen ==> at >= last.value.at + c.interval))
    case Stopped => Alive(log)
  }

  ghost predicate Proper(c: Config, log: seq<Event>) {
    forall n :: 0 <= n < |log| ==> MayFollow(c, log[..n], log[n])
  }

  lemma ProperMore(c: Config, log: seq<Event>, e: Event)
    requires Proper(c, log) && MayFollow(c, log, e)
    ensures Proper(c, log + [e])
  {
    forall n | 0 <= n < |log + [e]| ensures MayFollow(c, (log + [e])[..n], (log + [e])[n]) {
      assert (log + [e])[..n] == log[..n];
      if n == |log| {
        assert log[..n] == log;
      } else {
        assert MayFollow(c, log[..n], log[n]);
      }
    }
  }

  lemma LastStartMore(log: seq<Event>, e: Event)
    ensures LastStart(log + [e]) == if e.Started? then Some(e) else LastStart(log)
    ensures Alive(log + [e]) <==> e.Started? && e.ok
  {
    assert (log + [e])[..|log|] == log;
  }

  // --- the invariant ---

  ghost predicate Holding(at: ResetAt) {
    at == Draining || at == Launching || at == Ending(false)
  }

  // Restart's variables against the clock and the log.
  ghost predicate ChildInv(c: Config, r: Restart, now: int, log: seq<Event>) {
    var last := LastStart(log);
    && (Alive(log) <==> r.component)
    && (r.component ==> r.at == Selecting || r.at == StoppingComponent)
    && (last.Some? ==> last.value.gen <= r.gen)
    && (last.Some? && last.value.gen == r.gen ==>
         match r.at
         case Top => now >= last.value.at + c.interval
         case Starting => r.tStart >= last.value.at + c.interval
         case Waiting(until) => last.value.at == r.tStart && until == r.tStart + c.interval
         case _ => last.value.at == r.tStart)
    && (r.at != Top && r.at != Starting ==> last.Some? && last.value.gen == r.gen)
    && (r.stopped || r.at == Done ==> r.stopAsked)
  }

  ghost predicate Inv(c: Config, s: State) {
    && Proper(c, s.log)
    && (s.unserved ==> s.buffered > 0 || Holding(s.at))
    && (s.child.Some? <==> s.at == Watching || s.at.Ending?)
    && (s.child.None? ==> !Alive(s.log) && (LastStart(s.log).Some? ==> LastStart(s.log).value.gen < s.gens))
    && (s.child.Some? ==> s.child.value.gen + 1 == s.gens && ChildInv(c, s.child.value, s.now, s.log))
    && (s.child.Some? && s.child.value.stopAsked ==> s.at.Ending?)
  }

  lemma ChildStepKeeps(c: Config, r: Restart, r': Restart, now: int, log: seq<Event>, log': seq<Event>)
    requires Proper(c, log) && ChildInv(c, r, now, log) && RestartStep(c, r, r', now, log, log')
    ensures Proper(c, log') && ChildInv(c, r', now, log') && r'.gen == r.gen && r'.stopAsked == r.stopAsked
  {
    if log' != log {
      var e := log'[|log|];
      assert log' == log + [e];
      ProperMore(c, log, e);
      LastStartMore(log, e);
    }
  }

  lemma StepKeepsInv(c: Config, s: State, s': State, step: Step)
    requires c.capacity > 0 && Inv(c, s) && Next(c, s, s', step)
    ensures Inv(c, s')
  {
    if step == Child {
      ChildStepKeeps(c, s.child.value, s'.child.value, s.now, s.log, s'.log);
    }
  }

  // --- runs ---

  ghost predicate Run(c: Config, run: seq<State>, steps: seq<Step>) {
    && |run| == |steps| + 1
    && run[0] == Initial(run[0].now)
    && (forall n :: 0 <= n < |steps| ==> Next(c, run[n], run[n + 1], steps[n]))
  }

  lemma {:induction false} RunKeepsInv(c: Config, run: seq<State>, steps: seq<Step>, n: nat)
    requires c.capacity > 0 && Run(c, run, steps) && n < |run|
    ensures Inv(c, run[n])
  {
    if n > 0 {
      RunKeepsInv(c, run, steps, n - 1);
      StepKeepsInv(c, run[n - 1], run[n], steps[n - 1]);
    }
  }

  // In every run each component is stopped before the next is started, and
  // nothing is stopped but a component that has been started and not stopped.
  lemma StartsAndStopsAlternate(c: Config, run: seq<State>, steps: seq<Step>, n: nat, i: nat)
    requires c.capacity > 0 && Run(c, run, steps) && n < |run| && i < |run[n].log|
    ensures var log := run[n].log;
            && (log[i].Started? && log[i].ok && i + 1 < |log| ==> log[i + 1] == Stopped)
            && (log[i] == Stopped ==> i > 0 && log[i - 1].Started? && log[i - 1].ok)
  {
    RunKeepsInv(c, run, steps, n);
    var log := run[n].log;
    assert MayFollow(c, log[..i], log[i]);
    if i + 1 < |log| {
      assert MayFollow(c, log[..i + 1], log[i + 1]);
    }
  }

  // Nor is any left running once Restart or Reset has finished, that is, once
  // Stop returns.
  lemma NoneSurvives(c: Config, run: seq<State>, steps: seq<Step>, n: nat)
    requires c.capacity > 0 && Run(c, run, steps) && n < |run|
    requires run[n].child.None? || run[n].child.value.at == Done
    ensures !Alive(run[n].log)
  {
    RunKeepsInv(c, run, steps, n);
  }

  lemma {:induction false} FinishedForGood(c: Config, run: seq<State>, steps: seq<Step>, m: nat, n: nat)
    requires c.capacity > 0 && Run(c, run, steps) && m <= n < |run| && run[m].at == Finished
    ensures run[n].at == Finished && run[n].log == run[m].log && !Alive(run[n].log)
  {
    RunKeepsInv(c, run, steps, n);
    if m < n {
      FinishedForGood(c, run, steps, m, n - 1);
      RunKeepsInv(c, run, steps, n - 1);
      assert Next(c, run[n - 1], run[n], steps[n - 1]);
    }
  }

  lemma {:induction false} LastStartIsLatest(c: Config, log: seq<Event>, i: nat)
    requires Proper(c, log) && i < |log| && log[i].Started?
    ensures var last := LastStart(log);
            last.Some? && log[i].gen <= last.value.gen &&
            (log[i].gen == last.value.gen && c.interval >= 0 ==> log[i].at <= last.value.at)
  {
    var before := log[..|log| - 1];
    if i < |log| - 1 {
      assert Proper(c, before) by {
        forall n | 0 <= n < |before| ensures MayFollow(c, before[..n], before[n]) {
          assert before[..n] == log[..n] && MayFollow(c, log[..n], log[n]);
        }
      }
      LastStartIsLatest(c, before, i);
      assert MayFollow(c, log[..|log| - 1], log[|log| - 1]);
    }
  }

  // One Restart reads the clock for two starts at least the interval apart.
  lemma StartsAreApart(c: Config, run: seq<State>, steps: seq<Step>, n: nat, i: nat, j: nat)
    requires c.capacity > 0 && c.interval >= 0 && Run(c, run, steps) && n < |run|
    requires i < j < |run[n].log| && run[n].log[i].Started? && run[n].log[j].Started?
    requires run[n].log[i].gen == run[n].log[j].gen
    ensures run[n].log[j].at >= run[n].log[i].at + c.interval
  {
    RunKeepsInv(c, run, steps, n);
    var log := run[n].log;
    var before := log[..j];
    assert Proper(c, before) by {
      forall k | 0 <= k < |before| ensures MayFollow(c, before[..k], before[k]) {
        assert before[..k] == log[..k] && MayFollow(c, log[..k], log[k]);
      }
    }
    LastStartIsLatest(c, before, i);
    assert MayFollow(c, log[..j], log[j]);
  }

  lemma {:induction false} StaysUnserved(c: Config, run: seq<State>, steps: seq<Step>, m: nat, n: nat)
    requires Run(c, run, steps) && m < n < |run| && steps[m] == Request
    requires forall k :: m <= k < n ==> steps[k] != Launch
    ensures run[n].unserved
  {
    assert Next(c, run[n - 1], run[n], steps[n - 1]);
    if m < n - 1 {
      StaysUnserved(c, run, steps, m, n - 1);
    }
  }

  // No reset is lost: until the next launch, a request is in the channel or
  // Reset is on its way to a launch.
  lemma NoResetIsLost(c: Config, run: seq<State>, steps: seq<Step>, m: nat, n: nat)
    requires c.capacity > 0 && Run(c, run, steps) && m < n < |run| && steps[m] == Request
    requires forall k :: m <= k < n ==> steps[k] != Launch
    ensures run[n].buffered > 0 || Holding(run[n].at)
  {
    StaysUnserved(c, run, steps, m, n);
    RunKeepsInv(c, run, steps, n);
  }

  // Restart finishes only when it is asked to.
  lemma DoneWasAsked(c: Config, run: seq<State>, steps: seq<Step>, n: nat)
    requires c.capacity > 0 && Run(c, run, steps) && n < |run|
    requires run[n].child.Some? && run[n].child.value.at == Done
    ensures run[n].child.value.stopAsked && run[n].at.Ending?
  {
    RunKeepsInv(c, run, steps, n);
  }

  // --- what can always happen next ---

  ghost predicate Leads(c: Config, s: State, steps: seq<Step>, s': State)
    decreases |steps|
  {
    if steps == [] then s' == s else exists m :: Next(c, s, m, steps[0]) && Leads(c, m, steps[1..], s')
  }

  lemma LeadsFrom(c: Config, s: State, m: State, step: Step, steps: seq<Step>, s': State)
    requires Next(c, s, m, step) && Leads(c, m, steps, s')
    ensures Leads(c, s, [step] + steps, s')
  {
    assert ([step] + steps)[1..] == steps;
  }

  lemma {:induction false} LeadsOn(c: Config, s: State, steps: seq<Step>, m: State, more: seq<Step>, s': State)
    requires Leads(c, s, steps, m) && Leads(c, m, more, s')
    ensures Leads(c, s, steps + more, s')
    decreases |steps|
  {
    if steps == [] {
      assert steps + more == more;
    } else {
      var n :| Next(c, s, n, steps[0]) && Leads(c, n, steps[1..], m);
      LeadsOn(c, n, steps[1..], m, more, s');
      LeadsFrom(c, s, n, steps[0], steps[1..] + more, s');
      assert [steps[0]] + (steps[1..] + more) == steps + more;
    }
  }

  lemma {:induction false} LeadsKeepsInv(c: Config, s: State, steps: seq<Step>, s': State)
    requires c.capacity > 0 && Inv(c, s) && Leads(c, s, steps, s')
    ensures Inv(c, s')
    decreases |steps|
  {
    if steps != [] {
      var m :| Next(c, s, m, steps[0]) && Leads(c, m, steps[1..], s');
      StepKeepsInv(c, s, m, steps[0]);
      LeadsKeepsInv(c, m, steps[1..], s');
    }
  }

  // Steps that Restart takes by itself.
  ghost predicate OfChild(steps: seq<Step>) {
    forall step :: step in steps ==> step == Tick || step == Child
  }

  function ToStart(at: RestartAt): nat {
    match at
    case Starting => 0
    case Top => 1
    case Waiting(_) => 2
    case Checking => 3
    case StoppingComponent => 4
    case Selecting => 5
    case Done => 6
  }

  lemma {:induction false} ComesToStart(c: Config, s: State) returns (steps: seq<Step>, s': State)
    requires c.capacity > 0 && Inv(c, s) && s.child.Some?
    requires var r := s.child.value; !r.stopAsked && (r.at == Selecting ==> r.failed)
    ensures Leads(c, s, steps, s') && OfChild(steps) && s' == s.(now := s'.now, log := s'.log, child := s'.child)
    ensures s'.child.Some? && s'.child.value.gen == s.child.value.gen && !s'.child.value.stopAsked
    ensures exists at :: s'.log == (if Alive(s.log) then s.log + [Stopped] else s.log) +
                         [Started(s.child.value.gen, at, true)]
    decreases ToStart(s.child.value.at)
  {
    var r := s.child.value;
    if r.at == Starting {
      s' := s.(log := s.log + [Started(r.gen, r.tStart, true)], child := Some(r.(at := Selecting, component := true)));
      assert Next(c, s, s', Child);
      LeadsFrom(c, s, s', Child, [], s');
      return [Child], s';
    }
    var m := RestartMoves(c, s);
    var rest;
    rest, s' := ComesToStart(c, m);
    if r.at.Waiting? && s.now < r.at.until {
      var later := s.(now := r.at.until);
      LeadsFrom(c, later, m, Child, rest, s');
      LeadsFrom(c, s, later, Tick, [Child] + rest, s');
      steps := [Tick] + ([Child] + rest);
    } else {
      LeadsFrom(c, s, m, Child, rest, s');
      steps := [Child] + rest;
    }
  }

  // What Restart goes on to when nobody asks it to stop.
  function MovedUnasked(c: Config, r: Restart, now: int): Restart {
    match r.at
    case Top => r.(at := Starting, tStart := now, failed := false)
    case Starting => r.(at := Selecting, component := true)
    case Selecting => r.(at := StoppingComponent)
    case StoppingComponent => r.(at := Checking, component := false)
    case Checking => r.(at := if r.tStart + c.interval > now then Waiting(r.tStart + c.interval) else Top)
    case Waiting(_) => r.(at := Top)
    case Done => r
  }

  // One step nearer to a start, after the end of the interval if need be.
  lemma RestartMoves(c: Config, s: State) returns (m: State)
    requires c.capacity > 0 && Inv(c, s) && s.child.Some? && s.child.value.at != Starting
    requires var r := s.child.value; !r.stopAsked && (r.at == Selecting ==> r.failed)
    ensures m.child.Some? && ToStart(m.child.value.at) < ToStart(s.child.value.at) && m.child.value.at != Selecting
    ensures m == s.(now := m.now, log := m.log, child := m.child) && Inv(c, m)
    ensures m.child.value.gen == s.child.value.gen && !m.child.value.stopAsked
    ensures if Alive(s.log) && s.child.value.at == StoppingComponent then m.log == s.log + [Stopped] && !Alive(m.log)
            else m.log == s.log
    ensures if s.child.value.at.Waiting? && s.now < s.child.value.at.until
            then var later := s.(now := s.child.value.at.until); Next(c, s, later, Tick) && Next(c, later, m, Child)
            else Next(c, s, m, Child)
  {
    var r := s.child.value;
    var from := if r.at.Waiting? && s.now < r.at.until then s.(now := r.at.until) else s;
    assert from == s || Next(c, s, from, Tick);
    if from != s {
      StepKeepsInv(c, s, from, Tick);
    }
    m := from.(log := if r.at == StoppingComponent && r.component then s.log + [Stopped] else s.log,
               child := Some(MovedUnasked(c, r, from.now)));
    assert Next(c, from, m, Child);
    StepKeepsInv(c, from, m, Child);
  }

  // At every point of every run: a component that has failed is stopped and
  // started anew by Restart itself, as long as it is not asked to stop.
  lemma FailedIsRestarted(c: Config, run: seq<State>, steps: seq<Step>, n: nat)
    returns (more: seq<Step>, s': State)
    requires c.capacity > 0 && Run(c, run, steps) && n < |run|
    requires run[n].child.Some? && run[n].child.value.failed && !run[n].child.value.stopAsked
    ensures Leads(c, run[n], more, s') && OfChild(more)
    ensures s'.child.Some? && s'.child.value.gen == run[n].child.value.gen
    ensures exists at :: s'.log == (if Alive(run[n].log) then run[n].log + [Stopped] else run[n].log) +
                         [Started(run[n].child.value.gen, at, true)]
  {
    RunKeepsInv(c, run, steps, n);
    more, s' := ComesToStart(c, run[n]);
  }

  // Steps of Reset and Restart, with nothing asked of them.
  ghost predicate Unprompted(steps: seq<Step>) {
    forall step :: step in steps ==> step != Request && step != AskStop && step != Fail
  }

  function ToDone(r: Restart): nat {
    match r.at
    case Done => 0
    case Waiting(_) => 1
    case Checking => if r.stopped then 1 else 6
    case StoppingComponent => if r.stopped then 2 else 7
    case Selecting => 3
    case Starting => 4
    case Top => 5
  }

  // What Restart goes on to when it is asked to stop.
  function MovedAsked(c: Config, r: Restart, now: int): Restart {
    match r.at
    case Selecting => r.(at := StoppingComponent, stopped := true)
    case Checking => if r.stopped then r.(at := Done) else MovedUnasked(c, r, now)
    case Waiting(_) => r.(at := Done)
    case _ => MovedUnasked(c, r, now)
  }

  lemma {:induction false} ChildEnds(c: Config, s: State) returns (steps: seq<Step>, s': State)
    requires c.capacity > 0 && Inv(c, s) && s.child.Some? && s.child.value.stopAsked
    ensures Leads(c, s, steps, s') && OfChild(steps) && s' == s.(log := s'.log, child := s'.child)
    ensures s'.child.Some? && s'.child.value.at == Done && s'.child.value.stopAsked && Inv(c, s')
    decreases ToDone(s.child.value)
  {
    var r := s.child.value;
    if r.at == Done {
      steps, s' := [], s;
    } else {
      var m := RestartEnds(c, s);
      var rest;
      rest, s' := ChildEnds(c, m);
      LeadsFrom(c, s, m, Child, rest, s');
      steps := [Child] + rest;
    }
  }

  lemma RestartEnds(c: Config, s: State) returns (m: State)
    requires c.capacity > 0 && Inv(c, s) && s.child.Some? && s.child.value.stopAsked && s.child.value.at != Done
    ensures Next(c, s, m, Child) && Inv(c, m) && m == s.(log := m.log, child := m.child)
    ensures m.child.value.stopAsked && ToDone(m.child.value) < ToDone(s.child.value)
  {
    var r := s.child.value;
    var log := MovedLog(r, s.log);
    AskedStep(c, r, s.now, s.log);
    m := s.(log := log, child := Some(MovedAsked(c, r, s.now)));
    StepKeepsInv(c, s, m, Child);
  }

  function MovedLog(r: Restart, log: seq<Event>): seq<Event> {
    match r.at
    case Starting => log + [Started(r.gen, r.tStart, true)]
    case StoppingComponent => if r.component then log + [Stopped] else log
    case _ => log
  }

  lemma AskedStep(c: Config, r: Restart, now: int, log: seq<Event>)
    requires r.stopAsked && r.at != Done
    ensures RestartStep(c, r, MovedAsked(c, r, now), now, log, MovedLog(r, log))
    ensures ToDone(MovedAsked(c, r, now)) < ToDone(r) && MovedAsked(c, r, now).stopAsked
  {
  }

  lemma EndsChild(c: Config, s: State) returns (steps: seq<Step>, s': State)
    requires c.capacity > 0 && Inv(c, s) && s.at.Ending?
    ensures Leads(c, s, steps, s') && Unprompted(steps) && Inv(c, s')
    ensures s' == s.(log := s'.log, child := None, at := if s.at.last then Finished else Draining)
  {
    var asked := s.(child := Some(s.child.value.(stopAsked := true)));
    StepKeepsInv(c, s, asked, AskChild);
    var ended;
    steps, ended := ChildEnds(c, asked);
    s' := Reaped(c, ended);
    steps := LeadsThrough(c, s, asked, steps, ended, s');
  }

  lemma LeadsThrough(c: Config, s: State, asked: State, steps: seq<Step>, ended: State, s': State)
    returns (all: seq<Step>)
    requires Next(c, s, asked, AskChild) && Leads(c, asked, steps, ended) && OfChild(steps) && Next(c, ended, s', Reap)
    ensures Leads(c, s, all, s') && Unprompted(all)
  {
    LeadsFrom(c, ended, s', Reap, [], s');
    LeadsOn(c, asked, steps, ended, [Reap], s');
    LeadsFrom(c, s, asked, AskChild, steps + [Reap], s');
    all := [AskChild] + (steps + [Reap]);
  }

  lemma Reaped(c: Config, s: State) returns (s': State)
    requires c.capacity > 0 && Inv(c, s)
    requires s.at.Ending? && s.child.Some? && s.child.value.at == Done && s.child.value.stopAsked
    ensures Inv(c, s')
    ensures s' == s.(child := None, at := if s.at.last then Finished else Draining) && Next(c, s, s', Reap)
  {
    s' := s.(child := None, at := if s.at.last then Finished else Draining);
    StepKeepsInv(c, s, s', Reap);
  }

  lemma {:induction false} DrainsAndLaunches(c: Config, s: State) returns (steps: seq<Step>, s': State)
    requires s.at == Draining || s.at == Launching
    ensures Leads(c, s, steps, s') && Unprompted(steps)
    ensures s' == s.(at := Watching, buffered := s'.buffered, unserved := false, gens := s.gens + 1,
                     child := Some(NewRestart(s.gens)))
    decreases if s.at == Draining then s.buffered + 1 else 0
  {
    if s.at == Launching {
      s' := s.(at := Watching, unserved := false, gens := s.gens + 1, child := Some(NewRestart(s.gens)));
      LeadsFrom(c, s, s', Launch, [], s');
      return [Launch], s';
    }
    var step := if s.buffered > 0 then Consume else Drained;
    var m := if s.buffered > 0 then s.(buffered := s.buffered - 1) else s.(at := Launching);
    var rest;
    rest, s' := DrainsAndLaunches(c, m);
    LeadsFrom(c, s, m, step, rest, s');
    steps := [step] + rest;
  }

  lemma ComesToLaunch(c: Config, s: State) returns (steps: seq<Step>, s': State)
    requires c.capacity > 0 && Inv(c, s) && s.at != Finished && s.at != Ending(true)
    requires s.at == First || s.at == Watching ==> s.buffered > 0
    ensures Leads(c, s, steps, s') && Unprompted(steps)
    ensures s'.at == Watching && !s'.unserved && s'.gens == s.gens + 1 && s'.child == Some(NewRestart(s.gens))
    ensures s'.stopAsked == s.stopAsked
  {
    var m := s;
    steps := [];
    if s.at == First || s.at == Watching {
      m := s.(buffered := s.buffered - 1, at := if s.at == First then Draining else Ending(false));
      assert Next(c, s, m, Consume);
      StepKeepsInv(c, s, m, Consume);
      LeadsFrom(c, s, m, Consume, [], m);
      steps := [Consume];
    }
    if m.at.Ending? {
      var more, ended := EndsChild(c, m);
      LeadsOn(c, s, steps, m, more, ended);
      m, steps := ended, steps + more;
    }
    var last;
    last, s' := DrainsAndLaunches(c, m);
    LeadsOn(c, s, steps, m, last, s');
    steps := steps + last;
  }

  // At every point of every run: if a reset has been requested, Reset and
  // Restart come to a new launch by themselves, unless they are ending for good.
  lemma ResetIsServed(c: Config, run: seq<State>, steps: seq<Step>, n: nat) returns (more: seq<Step>, s': State)
    requires c.capacity > 0 && Run(c, run, steps) && n < |run|
    requires run[n].unserved && run[n].at != Finished && run[n].at != Ending(true)
    ensures Leads(c, run[n], more, s') && Unprompted(more)
    ensures s'.gens == run[n].gens + 1 && s'.child == Some(NewRestart(run[n].gens)) && !s'.unserved
  {
    RunKeepsInv(c, run, steps, n);
    more, s' := ComesToLaunch(c, run[n]);
  }

  // At every point of every run: if someone has asked for a stop, they come to
  // the end by themselves.
  lemma StopIsServed(c: Config, run: seq<State>, steps: seq<Step>, n: nat) returns (more: seq<Step>, s': State)
    requires c.capacity > 0 && Run(c, run, steps) && n < |run| && run[n].stopAsked
    ensures Leads(c, run[n], more, s') && Unprompted(more)
    ensures s'.at == Finished && s'.child == None && !Alive(s'.log)
  {
    RunKeepsInv(c, run, steps, n);
    var m;
    more, m := ComesToEnding(c, run[n]);
    s' := m;
    if m.at.Ending? {
      var last;
      last, s' := EndsChild(c, m);
      LeadsOn(c, run[n], more, m, last, s');
      more := more + last;
    }
  }

  lemma ComesToEnding(c: Config, s: State) returns (more: seq<Step>, s': State)
    requires c.capacity > 0 && Inv(c, s) && s.stopAsked
    ensures Leads(c, s, more, s') && Unprompted(more) && Inv(c, s')
    ensures s'.at == Finished || s'.at == Ending(true)
  {
    more, s' := [], s;
    if s.at == Draining || s.at == Launching || s.at == Ending(false) {
      more, s' := ComesToLaunch(c, s);
      LeadsKeepsInv(c, s, more, s');
    }
    if s'.at == First || s'.at == Watching {
      var left := s'.(at := if s'.at == First then Finished else Ending(true));
      StepKeepsInv(c, s', left, Leave);
      LeadsFrom(c, s', left, Leave, [], left);
      LeadsOn(c, s, more, s', [Leave], left);
      more, s' := more + [Leave], left;
    }
  }
}
