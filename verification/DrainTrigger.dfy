/**
 * The daemon's coalescing drain trigger. JavaScript runs one callback at a time, so the atomic steps are
 * the stretches of `runDrain` between two suspensions; which suspended call resumes next is arbitrary.
 */
module DrainTrigger {
  /** Where a drain loop is suspended. */
  datatype Phase = Draining | Classifying

  datatype Entry = Triggered | Started | Rejected | Finished | Aborted

  /** `loops` are the drain loops that have been entered and not left; `log` is what happened, in order. */
  datatype State = State(pending: bool, inFlight: bool, aborted: bool, loops: seq<Phase>, log: seq<Entry>)

  datatype Action =
    | Trigger              // `runDrain` is called
    | DrainSettles(i: nat) // the drain of loop i resolves
    | DrainRejects(i: nat) // the drain of loop i throws
    | PassEnds(i: nat)     // the classify pass of loop i ends: the loop condition is read
    | Abort

  const Init: State := State(false, false, false, [], [])

  function Without(loops: seq<Phase>, i: nat): seq<Phase>
    requires i < |loops|
  {
    loops[..i] + loops[i + 1..]
  }

  /** An action that is not enabled changes nothing. */
  function Do(s: State, a: Action): State {
    match a
    case Trigger =>
      if s.inFlight then s.(pending := true, log := s.log + [Triggered])
      else s.(pending := false, inFlight := true, loops := s.loops + [Draining], log := s.log + [Triggered, Started])
    case DrainSettles(i) =>
      if i < |s.loops| && s.loops[i].Draining? then s.(loops := s.loops[i := Classifying]) else s
    case DrainRejects(i) =>
      if i < |s.loops| && s.loops[i].Draining? then
        s.(inFlight := false, loops := Without(s.loops, i), log := s.log + [Rejected])
      else s
    case PassEnds(i) =>
      if i < |s.loops| && s.loops[i].Classifying? then
        if s.pending && !s.aborted then
          s.(pending := false, loops := s.loops[i := Draining], log := s.log + [Started])
        else s.(inFlight := false, loops := Without(s.loops, i), log := s.log + [Finished])
      else s
    case Abort => s.(aborted := true, log := s.log + [Aborted])
  }

  function Run(s: State, acts: seq<Action>): State
    decreases |acts|
  {
    if acts == [] then s else Run(Do(s, acts[0]), acts[1..])
  }

  /***** What the log says *****/

  /** A drain starts after position `t`. */
  ghost predicate StartAfter(log: seq<Entry>, t: int) {
    exists u :: 0 <= u < |log| && t < u && log[u].Started?
  }

  /** Every trigger among the first `n` entries is followed by a drain that starts after it. */
  ghost predicate Served(log: seq<Entry>, n: nat) {
    forall t :: 0 <= t < n && t < |log| && log[t].Triggered? ==> StartAfter(log, t)
  }

  /** Nothing has happened since a loop ended by a rejection. */
  predicate EndedByRejection(log: seq<Entry>) {
    log != [] && log[|log| - 1].Rejected?
  }

  ghost predicate Inv(s: State) {
    // one loop, and the flag says whether it is there
    && |s.loops| == (if s.inFlight then 1 else 0)
    // the pending flag is up exactly while a trigger waits for a start
    && (s.pending <==> !Served(s.log, |s.log|))
    && (s.aborted <==> Aborted in s.log)
    && (s.pending && !s.inFlight ==> s.aborted || EndedByRejection(s.log))
  }

  lemma ServedExtend(log: seq<Entry>, e: Entry)
    ensures e.Started? ==> Served(log + [e], |log| + 1)
    ensures e.Triggered? ==> !Served(log + [e], |log| + 1)
    ensures !e.Started? && !e.Triggered? ==> (Served(log + [e], |log| + 1) <==> Served(log, |log|))
  {
    var more := log + [e];
    if e.Started? {
      forall t | 0 <= t < |more| && more[t].Triggered? ensures StartAfter(more, t) {
        assert more[|log|].Started?;
      }
    } else if e.Triggered? {
      assert more[|log|].Triggered? && !StartAfter(more, |log|);
    } else {
      forall t | 0 <= t < |log| ensures StartAfter(more, t) <==> StartAfter(log, t) {
        if StartAfter(log, t) {
          var u :| 0 <= u < |log| && t < u && log[u].Started?;
          assert more[u].Started?;
        }
        if StartAfter(more, t) {
          var u :| 0 <= u < |more| && t < u && more[u].Started?;
          assert log[u].Started?;
        }
      }
      assert forall t :: 0 <= t < |log| ==> more[t] == log[t];
    }
  }

  lemma DoKeeps(s: State, a: Action)
    requires Inv(s)
    ensures Inv(Do(s, a))
    ensures s.log <= Do(s, a).log
  {
    if a.Trigger? {
      TriggerKeeps(s);
    } else {
      hide Served;
      OthersKeep(s, a);
    }
  }

  lemma TriggerKeeps(s: State)
    requires Inv(s)
    ensures Inv(Do(s, Trigger))
  {
    hide Served;
    var triggered := s.log + [Triggered];
    ServedExtend(s.log, Triggered);
    ServedExtend(triggered, Started);
    assert triggered + [Started] == s.log + [Triggered, Started];
  }

  lemma OthersKeep(s: State, a: Action)
    requires Inv(s) && !a.Trigger?
    ensures Inv(Do(s, a))
  {
    hide Served;
    var next := Do(s, a);
    if next.log != s.log {
      var e := next.log[|s.log|];
      ServedExtend(s.log, e);
      assert next.log == s.log + [e] && next.log[..|s.log|] == s.log;
    }
  }

  lemma {:induction false} RunKeeps(s: State, acts: seq<Action>)
    requires Inv(s)
    ensures Inv(Run(s, acts))
    ensures s.log <= Run(s, acts).log
    decreases |acts|
  {
    if acts != [] {
      DoKeeps(s, acts[0]);
      RunKeeps(Do(s, acts[0]), acts[1..]);
    }
  }

  /***** Main results *****/

  /** In every interleaving at most one drain loop is open, and the in-flight flag says so. */
  lemma OneDrainAtATime(acts: seq<Action>)
    ensures |Run(Init, acts).loops| == if Run(Init, acts).inFlight then 1 else 0
  {
    RunKeeps(Init, acts);
  }

  /**
   * No lost wake-up: once no loop is open, every trigger was followed by a start, unless the daemon was
   * aborted or the last loop was ended by a rejection. The pending flag decides it exactly.
   */
  lemma NoLostWakeup(acts: seq<Action>)
    ensures var s := Run(Init, acts);
      && (Served(s.log, |s.log|) <==> !s.pending)
      && (!s.inFlight && Aborted !in s.log && !EndedByRejection(s.log) ==> Served(s.log, |s.log|))
  {
    RunKeeps(Init, acts);
  }

  /** An open loop that reaches its bottom, without abort or rejection, serves every trigger before it. */
  lemma OpenLoopServes(before: seq<Action>, during: seq<Action>)
    requires var s := Run(Init, before); s.inFlight && !s.aborted
    requires forall a :: a in during ==> !a.Abort? && !a.DrainRejects?
    requires Run(Run(Init, before), during).loops == [Classifying]
    ensures var s, t := Run(Init, before), Do(Run(Run(Init, before), during), PassEnds(0));
      Served(t.log, |s.log|)
  {
    var s := Run(Init, before);
    RunKeeps(Init, before);
    RunKeeps(s, during);
    StaysUnaborted(s, during);
    var m := Run(s, during);
    var t := Do(m, PassEnds(0));
    DoKeeps(m, PassEnds(0));
    assert !t.pending;
    assert Served(t.log, |t.log|);
  }

  lemma {:induction false} StaysUnaborted(s: State, acts: seq<Action>)
    requires !s.aborted && forall a :: a in acts ==> !a.Abort?
    ensures !Run(s, acts).aborted
    decreases |acts|
  {
    if acts != [] { StaysUnaborted(Do(s, acts[0]), acts[1..]); }
  }

  /** Whatever was lost before, the next trigger with no loop open serves it. */
  lemma NextTriggerServes(acts: seq<Action>)
    requires !Run(Init, acts).inFlight
    ensures var t := Do(Run(Init, acts), Trigger); Served(t.log, |t.log|)
  {
    RunKeeps(Init, acts);
    DoKeeps(Run(Init, acts), Trigger);
  }

  /** Both exceptions are real: a rejected drain, and an abort, can each leave a trigger without a start. */
  lemma ExceptionsAreReal()
    ensures var s := Run(Init, [Trigger, Trigger, DrainRejects(0)]);
      !s.inFlight && !s.aborted && !Served(s.log, |s.log|)
    ensures var s := Run(Init, [Trigger, DrainSettles(0), Trigger, Abort, PassEnds(0)]);
      !s.inFlight && !EndedByRejection(s.log) && !Served(s.log, |s.log|)
  {
    var r := [Trigger, Trigger, DrainRejects(0)];
    var a := Do(Do(Init, Trigger), Trigger);
    RunFirst(Init, r);
    RunFirst(Do(Init, Trigger), r[1..]);
    RunFirst(a, r[2..]);
    assert Run(Init, r) == Do(a, DrainRejects(0));
    RunKeeps(Init, r);
    var q := [Trigger, DrainSettles(0), Trigger, Abort, PassEnds(0)];
    var b := Do(Do(Init, Trigger), DrainSettles(0));
    var c := Do(Do(b, Trigger), Abort);
    RunFirst(Init, q);
    RunFirst(Do(Init, Trigger), q[1..]);
    RunFirst(b, q[2..]);
    RunFirst(Do(b, Trigger), q[3..]);
    RunFirst(c, q[4..]);
    assert Run(Init, q) == Do(c, PassEnds(0));
    RunKeeps(Init, q);
  }

  lemma RunFirst(s: State, acts: seq<Action>)
    requires acts != []
    ensures Run(s, acts) == Run(Do(s, acts[0]), acts[1..])
    ensures |acts| == 1 ==> Run(s, acts) == Do(s, acts[0])
  {
  }

  lemma {:induction false} RunConcat(s: State, a: seq<Action>, b: seq<Action>)
    ensures Run(s, a + b) == Run(Run(s, a), b)
    decreases |a|
  {
    if a == [] {
      assert a + b == b;
    } else {
      assert (a + b)[1..] == a[1..] + b;
      RunConcat(Do(s, a[0]), a[1..], b);
    }
  }

  lemma RunSnoc(s: State, acts: seq<Action>, a: Action)
    ensures Run(s, acts + [a]) == Do(Run(s, acts), a)
  {
    RunConcat(s, acts, [a]);
    RunFirst(Run(s, acts), [a]);
  }

  /***** The program *****/

  /** The two variables of `main` that `runDrain` closes over, with the abort signal. */
  class Daemon {
    var pendingTrigger: bool
    var drainInFlight: bool
    var aborted: bool
    /** File events the watcher still has to deliver in this run. */
    var arrivals: nat
    ghost var loops: seq<Phase>
    ghost var log: seq<Entry>

    ghost function View(): State
      reads this
    {
      State(pendingTrigger, drainInFlight, aborted, loops, log)
    }

    constructor (arrivals: nat)
      ensures View() == Init && this.arrivals == arrivals
    {
      pendingTrigger, drainInFlight, aborted := false, false, false;
      this.arrivals := arrivals;
      loops, log := [], [];
    }

    /** What other callbacks do while a drain loop is suspended: they call `runDrain`, or the signal aborts. */
    method Suspend() returns (ghost acts: seq<Action>)
      requires drainInFlight && |loops| == 1
      modifies this
      ensures drainInFlight && loops == old(loops) && arrivals <= old(arrivals)
      ensures pendingTrigger && !old(pendingTrigger) ==> arrivals < old(arrivals)
      ensures View() == Run(old(View()), acts)
      decreases arrivals, 0
    {
      acts := [];
      ghost var start := View();
      while *
        invariant drainInFlight && loops == old(loops) && arrivals <= old(arrivals)
        invariant pendingTrigger && !old(pendingTrigger) ==> arrivals < old(arrivals)
        invariant View() == Run(start, acts)
        decreases arrivals
      {
        if arrivals == 0 { break; }
        arrivals := arrivals - 1;
        ghost var before := View();
        ghost var more;
        if * {
          more := [Abort];
          aborted := true;
          log := log + [Aborted];
        } else {
          more := RunDrain();
        }
        RunFirst(before, [Abort]);
        RunConcat(start, acts, more);
        acts := acts + more;
      }
    }

    /** One call of `runDrain`, from its first statement to its last. */
    method RunDrain() returns (ghost acts: seq<Action>)
      requires |loops| == if drainInFlight then 1 else 0
      modifies this
      ensures acts != [] && acts[0] == Trigger
      ensures View() == Run(old(View()), acts)
      ensures old(drainInFlight) ==>
        && acts == [Trigger] && pendingTrigger && drainInFlight
        && loops == old(loops) && arrivals == old(arrivals)
      ensures !old(drainInFlight) ==> !drainInFlight && loops == []
      decreases arrivals, 2
    {
      hide Run;
      ghost var start := View();
      acts := [Trigger];
      RunFirst(start, acts);
      if drainInFlight {
        log := log + [Triggered];
        pendingTrigger := true;
        return;
      }
      drainInFlight := true;
      loops, log := [Draining], log + [Triggered];
      while true
        invariant drainInFlight && loops == [Draining] && arrivals <= old(arrivals)
        invariant acts != [] && acts[0] == Trigger
        invariant AtStart() == Run(start, acts)
        decreases arrivals
      {
        pendingTrigger := false;
        log := log + [Started];
        ghost var more;
        var again;
        again, more := DrainAndClassify();
        RunConcat(start, acts, more);
        acts := acts + more;
        if !again { return; }
        RunSnoc(start, acts, PassEnds(0));
        acts := acts + [PassEnds(0)];
        assert loops[0 := Draining] == [Draining];
        loops := [Draining];
      }
    }

    /** The state once the next round of the loop has begun. */
    ghost function AtStart(): State
      reads this
    {
      View().(pending := false, log := log + [Started])
    }

    /** The body of the loop after its first statement, and the loop condition. */
    method DrainAndClassify() returns (again: bool, ghost acts: seq<Action>)
      requires drainInFlight && loops == [Draining] && !pendingTrigger
      modifies this
      ensures View() == Run(old(View()), acts)
      ensures again ==> drainInFlight && loops == [Classifying] && pendingTrigger && !aborted && arrivals < old(arrivals)
      ensures !again ==> !drainInFlight && loops == []
      decreases arrivals, 1
    {
      hide Run;
      ghost var start := View();
      acts := Suspend();
      if * {
        // the drain throws: the finally clause runs
        RunSnoc(start, acts, DrainRejects(0));
        acts := acts + [DrainRejects(0)];
        drainInFlight := false;
        loops, log := [], log + [Rejected];
        return false, acts;
      }
      RunSnoc(start, acts, DrainSettles(0));
      acts := acts + [DrainSettles(0)];
      assert loops[0 := Classifying] == [Classifying];
      loops := [Classifying];
      ghost var more := Suspend();
      RunConcat(start, acts, more);
      acts := acts + more;
      again := pendingTrigger && !aborted;
      if !again {
        RunSnoc(start, acts, PassEnds(0));
        acts := acts + [PassEnds(0)];
        drainInFlight := false;
        loops, log := [], log + [Finished];
      }
    }
  }
}
