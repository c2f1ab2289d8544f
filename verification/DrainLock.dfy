/**
 * The drain lock, one system call at a time. A lock file is created exclusively and then filled with
 * the owner's pid; a contender reads it, probes the pid, and unlinks the file of a dead owner before
 * one more attempt.
 */
module DrainLock {
  import opened Wrappers

  type Pid = n: int | n > 0 witness 1

  /** A file at the lock path: which creation it is, who created it, and the pid text once written. */
  datatype File = Absent | Present(gen: nat, maker: Pid, text: Option<Pid>)

  datatype Pc =
    | Quiet                          // no lock call in progress
    | Opened(gen: nat)               // created, pid not written yet
    | Contended                      // the file exists
    | HasRead(holder: Pid, gen: nat) // read a foreign pid
    | Stealing(holder: Pid, gen: nat)// found it dead
    | Retrying                       // has unlinked
    | Unlinking                      // release() has set its flag

  /** A live process: its position and, for each handle it was given, whether it is released. */
  datatype Proc = Proc(pc: Pc, handles: seq<bool>)

  /** Processes not in the map are dead, and stay so. */
  datatype State = State(file: File, procs: map<Pid, Proc>, next: nat)

  datatype Action =
    | Create(p: Pid)
    | Write(p: Pid)
    | WriteFails(p: Pid)      // creation throws before the pid is written
    | CloseFails(p: Pid)      // creation throws after the pid was written
    | Read(p: Pid)
    | Probe(p: Pid)
    | Unlink(p: Pid)
    | Recreate(p: Pid)
    | Release(p: Pid, i: nat)
    | UnlinkOwn(p: Pid)
    | RecreateFails(p: Pid)   // creation throws before there is a file
    | ReadFails(p: Pid)       // these three failures are swallowed
    | UnlinkFails(p: Pid)
    | UnlinkOwnFails(p: Pid)
    | Die(p: Pid)

  function SetPc(s: State, p: Pid, pc: Pc): State
    requires p in s.procs
  {
    s.(procs := s.procs[p := s.procs[p].(pc := pc)])
  }

  /** Exclusive create: `otherwise` is where the caller goes when the file exists. */
  function TryCreate(s: State, p: Pid, otherwise: Pc): State
    requires p in s.procs
  {
    if s.file.Absent? then
      SetPc(s, p, Opened(s.next)).(file := Present(s.next, p, None), next := s.next + 1)
    else SetPc(s, p, otherwise)
  }

  function Step(s: State, a: Action): State {
    if a.p !in s.procs then s
    else
      var me := s.procs[a.p];
      match a
      case Create(p) => if me.pc.Quiet? then TryCreate(s, p, Contended) else s
      case Write(p) =>
        // The text goes to the created file even if the path no longer leads to it.
        if !me.pc.Opened? then s
        else s.(procs := s.procs[p := Proc(Quiet, me.handles + [false])],
                file := if s.file.Present? && s.file.gen == me.pc.gen then s.file.(text := Some(p)) else s.file)
      case WriteFails(p) => if me.pc.Opened? then SetPc(s, p, Quiet) else s
      case CloseFails(p) =>
        if !me.pc.Opened? then s
        else SetPc(s, p, Quiet).(
          file := if s.file.Present? && s.file.gen == me.pc.gen then s.file.(text := Some(p)) else s.file)
      case RecreateFails(p) => if me.pc.Retrying? then SetPc(s, p, Quiet) else s
      case Read(p) =>
        if !me.pc.Contended? then s
        else if s.file.Absent? || s.file.text.None? || s.file.text.value == p then SetPc(s, p, Quiet)
        else SetPc(s, p, HasRead(s.file.text.value, s.file.gen))
      case Probe(p) =>
        if !me.pc.HasRead? then s
        else if me.pc.holder in s.procs then SetPc(s, p, Quiet)
        else SetPc(s, p, Stealing(me.pc.holder, me.pc.gen))
      case Unlink(p) => if me.pc.Stealing? then SetPc(s, p, Retrying).(file := Absent) else s
      case Recreate(p) => if me.pc.Retrying? then TryCreate(s, p, Quiet) else s
      case Release(p, i) =>
        if !me.pc.Quiet? || i >= |me.handles| || me.handles[i] then s
        else s.(procs := s.procs[p := Proc(Unlinking, me.handles[i := true])])
      case UnlinkOwn(p) => if me.pc.Unlinking? then SetPc(s, p, Quiet).(file := Absent) else s
      case ReadFails(p) => if me.pc.Contended? then SetPc(s, p, Quiet) else s
      case UnlinkFails(p) => if me.pc.Stealing? then SetPc(s, p, Retrying) else s
      case UnlinkOwnFails(p) => if me.pc.Unlinking? then SetPc(s, p, Quiet) else s
      case Die(p) => s.(procs := s.procs - {p})
  }

  function Run(s: State, run: seq<Action>): State {
    if run == [] then s else Step(Run(s, run[..|run| - 1]), run[|run| - 1])
  }

  /** No call in progress, no handle given out, and no lock file that names a live process. */
  predicate Initial(s: State) {
    && (forall p: Pid :: p in s.procs ==> s.procs[p] == Proc(Quiet, []))
    && (s.file.Present? ==> s.file.gen < s.next && (s.file.text.Some? ==> s.file.text.value !in s.procs))
  }

  /***** Mutual exclusion *****/

  predicate Holds(s: State, p: Pid, i: nat) {
    p in s.procs && i < |s.procs[p].handles| && !s.procs[p].handles[i]
  }

  /** At most one unreleased handle exists among all processes. */
  ghost predicate MutualExclusion(s: State) {
    forall p: Pid, i: nat, q: Pid, j: nat :: Holds(s, p, i) && Holds(s, q, j) ==> p == q && i == j
  }

  ghost predicate ProcOk(s: State, p: Pid)
    requires p in s.procs
  {
    var me := s.procs[p];
    && (forall i: nat :: Holds(s, p, i) ==>
          && s.file.Present? && s.file.maker == p && s.file.text == Some(p)
          && (me.pc.Quiet? || me.pc.Contended?))
    && (forall i: nat, j: nat :: Holds(s, p, i) && Holds(s, p, j) ==> i == j)
    && match me.pc
       case Opened(gen) => s.file == Present(gen, p, None)
       case Unlinking => s.file.Present? && s.file.maker == p && s.file.text == Some(p)
       case HasRead(holder, gen) =>
         holder != p && gen < s.next && (s.file.Present? && s.file.gen == gen ==> s.file.text == Some(holder))
       case Stealing(holder, gen) =>
         holder !in s.procs && gen < s.next && (s.file.Present? && s.file.gen == gen ==> s.file.text == Some(holder))
       case _ => true
  }

  ghost predicate Inv(s: State) {
    && (forall p: Pid :: p in s.procs ==> ProcOk(s, p))
    && (s.file.Present? ==> s.file.gen < s.next)
  }

  /***** The steals that are harmless *****/

  /**
   * What an unlink by `p` would endanger: another live process that holds the lock, has created the file
   * and not written its pid yet, or is about to unlink it in a release.
   */
  ghost predicate Endangers(s: State, p: Pid) {
    exists q: Pid :: q != p && q in s.procs && InUse(s, q)
  }

  ghost predicate InUse(s: State, q: Pid)
    requires q in s.procs
  {
    s.procs[q].pc.Opened? || s.procs[q].pc.Unlinking? || exists j: nat :: Holds(s, q, j)
  }

  predicate Steals(s: State, a: Action) {
    a.Unlink? && a.p in s.procs && s.procs[a.p].pc.Stealing?
  }

  ghost predicate GuardedStep(s: State, a: Action) {
    Steals(s, a) ==> !Endangers(s, a.p)
  }

  /** Every steal of the run meets the guard at the moment of its unlink. */
  ghost predicate GuardedRun(s: State, run: seq<Action>) {
    run == [] || (GuardedRun(s, run[..|run| - 1]) && GuardedStep(Run(s, run[..|run| - 1]), run[|run| - 1]))
  }

  /** Whatever may follow, with steals that meet the guard, excludes. */
  ghost predicate Secure(s: State) {
    forall run :: GuardedRun(s, run) ==> MutualExclusion(Run(s, run))
  }

  /** A stealer that unlinks a file unlinks the one it read, not a later creation. */
  predicate FaithfulStep(s: State, a: Action) {
    a.Unlink? && a.p in s.procs && s.procs[a.p].pc.Stealing? && s.file.Present? ==> s.file.gen == s.procs[a.p].pc.gen
  }

  predicate Faithful(s: State, run: seq<Action>) {
    run == [] || (Faithful(s, run[..|run| - 1]) && FaithfulStep(Run(s, run[..|run| - 1]), run[|run| - 1]))
  }

  lemma InvExcludes(s: State)
    requires Inv(s)
    ensures MutualExclusion(s)
  {
    forall p: Pid, i: nat, q: Pid, j: nat | Holds(s, p, i) && Holds(s, q, j) ensures p == q && i == j {
      assert ProcOk(s, p) && ProcOk(s, q);
    }
  }

  lemma StepKeeps(s: State, a: Action)
    requires Inv(s) && GuardedStep(s, a)
    ensures Inv(Step(s, a))
  {
    var s' := Step(s, a);
    if s' != s {
      assert ProcOk(s, a.p);
      forall q: Pid | q in s'.procs ensures ProcOk(s', q) {
        assert q in s.procs && ProcOk(s, q);
        forall i: nat | Holds(s', q, i) && q != a.p ensures Holds(s, q, i) {}
        if q == a.p {
          OwnKeeps(s, a);
        } else {
          assert s'.procs[q] == s.procs[q];
          assert Steals(s, a) ==> !InUse(s, q);
        }
      }
    }
  }

  lemma OwnKeeps(s: State, a: Action)
    requires Inv(s)
    requires a.p in s.procs && a.p in Step(s, a).procs
    ensures ProcOk(Step(s, a), a.p)
  {
    var s', p := Step(s, a), a.p;
    assert ProcOk(s, p);
    if a.Release? {
      assert a.i < |s.procs[p].handles| && !s.procs[p].handles[a.i] ==> Holds(s, p, a.i);
    }
    forall i: nat | Holds(s', p, i) ensures Holds(s, p, i) || (a.Write? && s.procs[p].pc.Opened? && i == |s.procs[p].handles|) {}
  }

  /** If every steal meets the guard, at most one process ever holds the lock, through any crashes. */
  lemma {:induction false} GuardedRunsExclude(s: State, run: seq<Action>)
    requires Inv(s) && GuardedRun(s, run)
    ensures Inv(Run(s, run)) && MutualExclusion(Run(s, run))
  {
    if run != [] {
      GuardedRunsExclude(s, run[..|run| - 1]);
      StepKeeps(Run(s, run[..|run| - 1]), run[|run| - 1]);
    }
    InvExcludes(Run(s, run));
  }

  /** Unlinking the very file that was read meets the guard. */
  lemma FaithfulIsGuarded(s: State, a: Action)
    requires Inv(s) && FaithfulStep(s, a)
    ensures GuardedStep(s, a)
  {
    if Steals(s, a) {
      assert ProcOk(s, a.p);
      forall q: Pid | q != a.p && q in s.procs ensures !InUse(s, q) {
        assert ProcOk(s, q);
      }
    }
  }

  lemma {:induction false} FaithfulRunsAreGuarded(s: State, run: seq<Action>)
    requires Inv(s) && Faithful(s, run)
    ensures GuardedRun(s, run)
  {
    if run != [] {
      FaithfulRunsAreGuarded(s, run[..|run| - 1]);
      GuardedRunsExclude(s, run[..|run| - 1]);
      FaithfulIsGuarded(Run(s, run[..|run| - 1]), run[|run| - 1]);
    }
  }

  /** If every steal unlinks the file it read, at most one process ever holds the lock, through any crashes. */
  lemma FaithfulRunsExclude(s: State, run: seq<Action>)
    requires Initial(s) && Faithful(s, run)
    ensures Inv(Run(s, run)) && MutualExclusion(Run(s, run))
  {
    FaithfulRunsAreGuarded(s, run);
    GuardedRunsExclude(s, run);
  }

  /** A release removes the releasing process's own file, and a repeated one does nothing at all. */
  lemma ReleaseRemovesOwn(s: State, run: seq<Action>, p: Pid, i: nat)
    requires Initial(s) && Faithful(s, run)
    ensures var t := Run(s, run);
      && (p in t.procs && t.procs[p].pc.Unlinking? ==> t.file.Present? && t.file.maker == p && t.file.text == Some(p))
      && (p in t.procs && i < |t.procs[p].handles| && t.procs[p].handles[i] ==> Step(t, Release(p, i)) == t)
  {
    FaithfulRunsExclude(s, run);
    var t := Run(s, run);
    if p in t.procs {
      assert ProcOk(t, p);
    }
  }

  /***** When steals are faithful *****/

  predicate InSection(s: State, p: Pid) {
    p in s.procs && (s.procs[p].pc.HasRead? || s.procs[p].pc.Stealing?)
  }

  /** Nobody creates the lock file while another process is between its read and its unlink. */
  ghost predicate QuietStep(s: State, a: Action) {
    (a.Create? || a.Recreate?) && Step(s, a).file != s.file ==> forall q: Pid :: q != a.p ==> !InSection(s, q)
  }

  ghost predicate QuietRun(s: State, run: seq<Action>) {
    run == [] || (QuietRun(s, run[..|run| - 1]) && QuietStep(Run(s, run[..|run| - 1]), run[|run| - 1]))
  }

  function SectionGen(s: State, p: Pid): nat
    requires InSection(s, p)
  {
    s.procs[p].pc.gen
  }

  ghost predicate SectionsFresh(s: State) {
    forall p: Pid :: InSection(s, p) && s.file.Present? ==> s.file.gen == SectionGen(s, p)
  }

  lemma {:induction false} QuietRunsAreFaithful(s: State, run: seq<Action>)
    requires Initial(s) && QuietRun(s, run)
    ensures Faithful(s, run)
    ensures SectionsFresh(Run(s, run))
  {
    if run != [] {
      var before, a := run[..|run| - 1], run[|run| - 1];
      QuietRunsAreFaithful(s, before);
      QuietKeeps(Run(s, before), a);
    }
  }

  lemma QuietKeeps(s: State, a: Action)
    requires SectionsFresh(s) && QuietStep(s, a)
    ensures FaithfulStep(s, a) && SectionsFresh(Step(s, a))
  {
    var s' := Step(s, a);
    assert InSection(s, a.p) && s.file.Present? ==> s.file.gen == SectionGen(s, a.p);
    forall p: Pid | InSection(s', p) && s'.file.Present? ensures s'.file.gen == SectionGen(s', p) {
      assert InSection(s, p) && s.file.Present? ==> s.file.gen == SectionGen(s, p);
    }
  }

  /** Sections do not overlap, and no process dies between another's read of its pid and the probe. */
  ghost predicate OrderlyStep(s: State, a: Action) {
    && (a.Read? && InSection(Step(s, a), a.p) ==> forall q: Pid :: q != a.p ==> !InSection(s, q))
    && (a.Die? ==> forall q: Pid :: q in s.procs && s.procs[q].pc.HasRead? ==> s.procs[q].pc.holder != a.p)
  }

  ghost predicate OrderlyRun(s: State, run: seq<Action>) {
    run == [] || (OrderlyRun(s, run[..|run| - 1]) && OrderlyStep(Run(s, run[..|run| - 1]), run[|run| - 1]))
  }

  /** The file a thief has read stays in place until it unlinks it. */
  ghost predicate SectionOk(s: State, p: Pid) {
    InSection(s, p) && s.procs[p].pc.holder !in s.procs ==>
      s.file.Present? && s.file.gen == SectionGen(s, p) && s.file.text == Some(s.procs[p].pc.holder)
  }

  ghost predicate SectionsOk(s: State) {
    && (forall p: Pid :: SectionOk(s, p))
    && (forall p: Pid, q: Pid :: InSection(s, p) && InSection(s, q) ==> p == q)
  }

  lemma {:induction false} OrderlyRunsAreFaithful(s: State, run: seq<Action>)
    requires Initial(s) && OrderlyRun(s, run)
    ensures Faithful(s, run)
    ensures SectionsOk(Run(s, run))
  {
    if run != [] {
      var before, a := run[..|run| - 1], run[|run| - 1];
      OrderlyRunsAreFaithful(s, before);
      var t := Run(s, before);
      FaithfulRunsExclude(s, before);
      OrderlyKeeps(t, a);
    }
  }

  lemma OrderlyKeeps(s: State, a: Action)
    requires Inv(s) && OrderlyStep(s, a)
    requires SectionsOk(s)
    ensures FaithfulStep(s, a)
    ensures SectionsOk(Step(s, a))
  {
    var s' := Step(s, a);
    assert SectionOk(s, a.p);
    forall p: Pid ensures SectionOk(s', p) {
      SectionOkKeeps(s, a, p);
    }
    assert InSection(s', a.p) ==> InSection(s, a.p) || forall r: Pid :: r != a.p ==> !InSection(s, r);
    forall p: Pid, q: Pid | InSection(s', p) && InSection(s', q) ensures p == q {
      assert p != a.p ==> InSection(s, p);
      assert q != a.p ==> InSection(s, q);
    }
  }

  lemma SectionOkKeeps(s: State, a: Action, p: Pid)
    requires Inv(s) && OrderlyStep(s, a) && SectionsOk(s)
    ensures SectionOk(Step(s, a), p)
  {
    assert SectionOk(s, p);
    if a.p in s.procs && Step(s, a) != s {
      assert ProcOk(s, a.p);
      if a.p != p {
        assert InSection(Step(s, a), p) ==> InSection(s, p) && !InSection(s, a.p);
      }
    }
  }

  /***** What goes wrong otherwise *****/

  /** The remaining calls of a thief that nobody disturbs. */
  function Finish(p: Pid): seq<Action> {
    [Unlink(p), Recreate(p), Write(p)]
  }

  lemma RunSnoc(s: State, run: seq<Action>, a: Action)
    ensures Run(s, run + [a]) == Step(Run(s, run), a)
  {
    assert (run + [a])[..|run|] == run;
  }

  lemma RunTwo(s: State, a: Action, b: Action)
    ensures Run(s, [a, b]) == Step(Step(s, a), b)
  {
    RunSnoc(s, [], a);
    RunSnoc(s, [a], b);
    assert [] + [a] == [a] && [a] + [b] == [a, b];
  }

  lemma RunThree(s: State, a: Action, b: Action, c: Action)
    ensures Run(s, [a, b, c]) == Step(Step(Step(s, a), b), c)
  {
    RunSnoc(s, [], a);
    RunSnoc(s, [a], b);
    RunSnoc(s, [a, b], c);
    assert [] + [a] == [a] && [a] + [b] == [a, b] && [a, b] + [c] == [a, b, c];
  }

  /**
   * Before the unlink, exactly when a steal is harmless: whatever happens afterwards, with later steals
   * meeting the guard, mutual exclusion holds, if and only if no other live process holds the lock, has
   * just created the file, or is about to unlink it.
   */
  lemma StealSafeIff(s: State, p: Pid)
    requires Inv(s) && p in s.procs && s.procs[p].pc.Stealing?
    ensures Secure(Step(s, Unlink(p))) <==> !Endangers(s, p)
  {
    var s' := Step(s, Unlink(p));
    if !Endangers(s, p) {
      StepKeeps(s, Unlink(p));
      forall run | GuardedRun(s', run) ensures MutualExclusion(Run(s', run)) {
        GuardedRunsExclude(s', run);
      }
    } else {
      var q: Pid :| q != p && q in s.procs && InUse(s, q);
      Breaks(s, p, q);
      var run := Violation(s, p, q);
      assert GuardedRun(s', run) && !MutualExclusion(Run(s', run));
    }
  }

  /** After the unlink by `p`: it finishes its acquisition, and `q` its own creation or release. */
  function Violation(s: State, p: Pid, q: Pid): seq<Action>
    requires q in s.procs
  {
    [Recreate(p), Write(p)]
    + if s.procs[q].pc.Opened? then [Write(q)]
      else if s.procs[q].pc.Unlinking? then [UnlinkOwn(q), Create(q), Write(q)]
      else []
  }

  lemma Breaks(s: State, p: Pid, q: Pid)
    requires Inv(s) && p in s.procs && s.procs[p].pc.Stealing?
    requires q != p && q in s.procs && InUse(s, q)
    ensures var s' := Step(s, Unlink(p)); var run := Violation(s, p, q);
      GuardedRun(s', run) && !MutualExclusion(Run(s', run))
  {
    hide Run, GuardedRun, MutualExclusion;
    var s' := Step(s, Unlink(p));
    var head := [Recreate(p), Write(p)];
    var t := Run(s', head);
    RunTwo(s', Recreate(p), Write(p));
    assert t.procs == s.procs[p := Proc(Quiet, s.procs[p].handles + [false])];
    NoSteals(s', head);
    var n := |s.procs[p].handles|;
    assert Holds(t, p, n);
    if s.procs[q].pc.Opened? {
      RunSnoc(s', head, Write(q));
      NoSteals(s', head + [Write(q)]);
      TwoHold(Run(s', head + [Write(q)]), p, n, q, |s.procs[q].handles|);
    } else if s.procs[q].pc.Unlinking? {
      var tail := [UnlinkOwn(q), Create(q), Write(q)];
      RunAppend(s', head, tail);
      RunThree(t, UnlinkOwn(q), Create(q), Write(q));
      NoSteals(s', head + tail);
      TwoHold(Run(s', head + tail), p, n, q, |s.procs[q].handles|);
    } else {
      var j: nat :| Holds(s, q, j);
      assert head + [] == head;
      TwoHold(t, p, n, q, j);
    }
  }

  /** A run is secure after every one of its steps if and only if all its steals meet the guard. */
  lemma {:induction false} SecureIffGuarded(s: State, run: seq<Action>)
    requires Inv(s)
    ensures (forall n :: 0 <= n <= |run| ==> Secure(Run(s, run[..n]))) <==> GuardedRun(s, run)
  {
    if GuardedRun(s, run) {
      forall n | 0 <= n <= |run| ensures Secure(Run(s, run[..n])) {
        GuardedPrefix(s, run, n);
        InvIsSecure(s, run[..n]);
      }
    } else {
      var before, a := run[..|run| - 1], run[|run| - 1];
      SecureIffGuarded(s, before);
      assert forall n :: 0 <= n <= |before| ==> before[..n] == run[..n];
      if GuardedRun(s, before) {
        GuardedRunsExclude(s, before);
        var t := Run(s, before);
        StealSafeIff(t, a.p);
        assert a == Unlink(a.p) && !Secure(Step(t, a));
        assert run[..|run|] == run;
      }
    }
  }

  lemma InvIsSecure(s: State, before: seq<Action>)
    requires Inv(s) && GuardedRun(s, before)
    ensures Secure(Run(s, before))
  {
    GuardedRunsExclude(s, before);
    var t := Run(s, before);
    forall run | GuardedRun(t, run) ensures MutualExclusion(Run(t, run)) {
      GuardedRunsExclude(t, run);
    }
  }

  lemma {:induction false} GuardedPrefix(s: State, run: seq<Action>, n: nat)
    requires GuardedRun(s, run) && n <= |run|
    ensures GuardedRun(s, run[..n])
  {
    if n < |run| {
      GuardedPrefix(s, run[..|run| - 1], n);
      assert run[..|run| - 1][..n] == run[..n];
    } else {
      assert run[..n] == run;
    }
  }

  lemma {:induction false} NoSteals(s: State, run: seq<Action>)
    requires forall a :: a in run ==> !a.Unlink?
    ensures GuardedRun(s, run)
  {
    if run != [] {
      assert run[|run| - 1] in run;
      NoSteals(s, run[..|run| - 1]);
    }
  }

  lemma TwoHold(s: State, p: Pid, i: nat, q: Pid, j: nat)
    requires p != q && Holds(s, p, i) && Holds(s, q, j)
    ensures !MutualExclusion(s)
  {
  }

  /** Three live processes, one dead one, and whatever file is at the path. */
  function Three(file: File): State {
    State(file, map[1 := Proc(Quiet, []), 2 := Proc(Quiet, []), 3 := Proc(Quiet, [])], 1)
  }

  lemma {:induction false} RunAppend(s: State, r1: seq<Action>, r2: seq<Action>)
    ensures Run(s, r1 + r2) == Run(Run(s, r1), r2)
  {
    if r2 == [] {
      assert r1 + r2 == r1;
    } else {
      assert (r1 + r2)[..|r1 + r2| - 1] == r1 + r2[..|r2| - 1];
      RunAppend(s, r1, r2[..|r2| - 1]);
    }
  }

  /** A contender that reads a dead foreign pid. */
  lemma ThiefReads(s: State, p: Pid)
    requires p in s.procs && s.procs[p].pc.Quiet?
    requires s.file.Present? && s.file.text.Some? && s.file.text.value != p && s.file.text.value !in s.procs
    ensures Run(s, [Create(p), Read(p), Probe(p)]) == SetPc(s, p, Stealing(s.file.text.value, s.file.gen))
  {
    RunThree(s, Create(p), Read(p), Probe(p));
  }

  lemma ThiefFinishes(s: State, p: Pid)
    requires p in s.procs && s.procs[p].pc.Stealing?
    ensures Run(s, Finish(p)) == State(Present(s.next, p, Some(p)),
                                       s.procs[p := Proc(Quiet, s.procs[p].handles + [false])], s.next + 1)
  {
    hide Run;
    RunThree(s, Unlink(p), Recreate(p), Write(p));
    var u := Step(s, Unlink(p));
    assert u == State(Absent, s.procs[p := s.procs[p].(pc := Retrying)], s.next);
    RecreateAbsent(u, p);
    var t := Step(u, Recreate(p));
    assert t.procs == s.procs[p := s.procs[p].(pc := Opened(s.next))];
    WriteOpened(t, p);
  }

  lemma RecreateAbsent(s: State, p: Pid)
    requires p in s.procs && s.procs[p].pc.Retrying? && s.file.Absent?
    ensures Step(s, Recreate(p))
         == State(Present(s.next, p, None), s.procs[p := s.procs[p].(pc := Opened(s.next))], s.next + 1)
  {
  }

  lemma WriteOpened(s: State, p: Pid)
    requires p in s.procs && s.procs[p].pc.Opened? && s.file == Present(s.procs[p].pc.gen, p, None)
    ensures Step(s, Write(p))
         == State(s.file.(text := Some(p)), s.procs[p := Proc(Quiet, s.procs[p].handles + [false])], s.next)
  {
  }

  /** Two thieves whose sections overlap: the second unlinks the first one's new lock, and both hold. */
  lemma OverlappingThieves()
    ensures var s := Three(Present(0, 9, Some(9)));
      var run := [Create(1), Read(1), Probe(1)] + [Create(2), Read(2), Probe(2)] + Finish(1) + Finish(2);
      Initial(s) && Holds(Run(s, run), 1, 0) && Holds(Run(s, run), 2, 0)
  {
    hide Run, Step;
    var s := Three(Present(0, 9, Some(9)));
    var a, b := [Create(1), Read(1), Probe(1)], [Create(2), Read(2), Probe(2)];
    ThiefReads(s, 1);
    RunAppend(s, a, b);
    ThiefReads(Run(s, a), 2);
    RunAppend(s, a + b, Finish(1));
    ThiefFinishes(Run(s, a + b), 1);
    RunAppend(s, a + b + Finish(1), Finish(2));
    ThiefFinishes(Run(s, a + b + Finish(1)), 2);
  }

  /** One thief only: the pid it read was alive then, but released the lock and died before the probe. */
  lemma LateDeath()
    ensures var s := Three(Absent);
      var run := [Create(3), Write(3), Create(1)] + [Read(1), Release(3, 0), UnlinkOwn(3)]
                 + [Die(3), Create(2), Write(2)] + [Probe(1)] + Finish(1);
      Initial(s) && Holds(Run(s, run), 1, 0) && Holds(Run(s, run), 2, 0)
  {
    hide Run, Step;
    var s := Three(Absent);
    var a, b, c := [Create(3), Write(3), Create(1)], [Read(1), Release(3, 0), UnlinkOwn(3)], [Die(3), Create(2), Write(2)];
    RunFive(s, a, b, c, [Probe(1)], Finish(1));
    LateStart();
    LateRelease(Run(s, a));
    LateTakeover(Run(Run(s, a), b));
    LateSteal(Run(Run(Run(s, a), b), c));
  }

  lemma RunFive(s: State, a: seq<Action>, b: seq<Action>, c: seq<Action>, d: seq<Action>, e: seq<Action>)
    ensures Run(s, a + b + c + d + e) == Run(Run(Run(Run(Run(s, a), b), c), d), e)
  {
    hide Run, Step;
    RunAppend(s, a + b + c + d, e);
    RunAppend(s, a + b + c, d);
    RunAppend(s, a + b, c);
    RunAppend(s, a, b);
  }

  lemma LateStart()
    ensures var t := Run(Three(Absent), [Create(3), Write(3), Create(1)]);
      t.procs.Keys == {1, 2, 3} && t.file == Present(1, 3, Some(3))
      && t.procs[1] == Proc(Contended, []) && t.procs[2] == Proc(Quiet, []) && t.procs[3] == Proc(Quiet, [false])
  {
    RunThree(Three(Absent), Create(3), Write(3), Create(1));
  }

  lemma LateSteal(s: State)
    requires s.procs.Keys == {1, 2} && s.procs[1] == Proc(HasRead(3, 1), []) && Holds(s, 2, 0)
    ensures var t := Run(Run(s, [Probe(1)]), Finish(1)); Holds(t, 1, 0) && Holds(t, 2, 0)
  {
    RunSnoc(s, [], Probe(1));
    assert [] + [Probe(1)] == [Probe(1)];
    ThiefFinishes(Run(s, [Probe(1)]), 1);
  }

  lemma LateRelease(s: State)
    requires s.procs.Keys == {1, 2, 3} && s.file == Present(1, 3, Some(3))
    requires s.procs[1].pc == Contended && s.procs[3] == Proc(Quiet, [false])
    ensures var t := Run(s, [Read(1), Release(3, 0), UnlinkOwn(3)]);
      t.procs.Keys == {1, 2, 3} && t.file.Absent? && t.procs[2] == s.procs[2]
      && t.procs[1] == Proc(HasRead(3, 1), s.procs[1].handles)
  {
    RunThree(s, Read(1), Release(3, 0), UnlinkOwn(3));
  }

  lemma LateTakeover(s: State)
    requires s.procs.Keys == {1, 2, 3} && s.file.Absent? && s.procs[2].pc.Quiet?
    requires s.procs[1].pc == HasRead(3, 1)
    ensures var t := Run(s, [Die(3), Create(2), Write(2)]);
      t.procs.Keys == {1, 2} && t.procs[1] == s.procs[1] && t.procs[2] == Proc(Quiet, s.procs[2].handles + [false])
  {
    RunThree(s, Die(3), Create(2), Write(2));
  }

  /***** A lone acquirer *****/

  /** All the calls an acquisition may make; those that do not apply change nothing. */
  function Acquire(p: Pid): seq<Action> {
    [Create(p), Read(p), Probe(p)] + Finish(p)
  }

  /** Whether the lock can be had: there is no file, or it names a dead process other than `p`. */
  predicate Obtainable(file: File, live: set<Pid>, p: Pid) {
    file.Absent? || (file.text.Some? && file.text.value != p && file.text.value !in live)
  }

  /** Undisturbed, a process obtains the lock exactly when it is free or names a dead foreign pid. */
  lemma LoneAcquirer(s: State, p: Pid)
    requires p in s.procs && s.procs[p].pc.Quiet?
    ensures var s' := Run(s, Acquire(p));
      && p in s'.procs && s'.procs[p].pc.Quiet?
      && s'.procs[p].handles == s.procs[p].handles + (if Obtainable(s.file, s.procs.Keys, p) then [false] else [])
      && (if Obtainable(s.file, s.procs.Keys, p) then s'.file == Present(s.next, p, Some(p)) else s'.file == s.file)
  {
    hide Run;
    var head := [Create(p), Read(p), Probe(p)];
    RunAppend(s, head, Finish(p));
    if s.file.Absent? {
      RunThree(s, Create(p), Read(p), Probe(p));
      RunThree(Run(s, head), Unlink(p), Recreate(p), Write(p));
    } else if Obtainable(s.file, s.procs.Keys, p) {
      ThiefReads(s, p);
      ThiefFinishes(Run(s, head), p);
    } else {
      RunThree(s, Create(p), Read(p), Probe(p));
      RunThree(Run(s, head), Unlink(p), Recreate(p), Write(p));
    }
  }

  /***** The same calls as code *****/

  /** A handle; releasing it unlinks the lock file once. */
  class Handle {
    const lock: LockPath
    var released: bool

    constructor (lock: LockPath)
      ensures this.lock == lock && !released
    {
      this.lock, this.released := lock, false;
    }

    /** Called by the owner, and once by the listener for the abort of its signal, in either order. */
    method Release(faulty: bool)
      modifies this, lock
      ensures released
      ensures lock.file == old(lock.file) || (!old(released) && lock.file == Absent)
      ensures !faulty && !old(released) ==> lock.file == Absent
      ensures lock.next == old(lock.next)
    {
      if released {
        return;
      }
      released := true;
      var stuck: bool := *;
      if !(faulty && stuck) { lock.file := Absent; }
    }
  }

  datatype Creation = Created | Exists | CreateThrew

  datatype Acquisition = Acquired(handle: Handle) | Contention | AcquireThrew

  /** The lock path is as in the state `s` of the machine. */
  predicate Shows(s: State, file: File, next: nat) {
    s.file == file && s.next == next
  }

  /** `t` is `s` with process `p` at `pc` and in possession of `handles`; nobody else has moved. */
  predicate Moved(s: State, t: State, p: Pid, pc: Pc, handles: seq<bool>) {
    t.procs == s.procs[p := Proc(pc, handles)]
  }

  /** The handles of a process that has been given one more, or not. */
  function Given(handles: seq<bool>, more: bool, released: bool): seq<bool> {
    if more then handles + [released] else handles
  }

  class LockPath {
    var file: File
    var next: nat

    method Fails(faulty: bool) returns (b: bool)
      ensures b ==> faulty
    {
      b := *;
      b := b && faulty;
    }

    /**
     * Exclusive create, the write of the pid, and the close; when `faulty`, each may throw. `run` is what the
     * machine does meanwhile, from a state `s` in which `p` is about to create: at first, or again.
     */
    method TryCreate(p: Pid, faulty: bool, ghost s: State) returns (r: Creation, ghost run: seq<Action>)
      requires Shows(s, file, next) && p in s.procs && (s.procs[p].pc.Quiet? || s.procs[p].pc.Retrying?)
      modifies this
      ensures r.Created? ==> old(file).Absent? && file == Present(old(next), p, Some(p))
      ensures r.Exists? ==> old(file).Present? && file == old(file)
      ensures r.CreateThrew? ==>
        faulty && (file == old(file) || (old(file).Absent? && file.Present? && file.gen == old(next) && file.maker == p))
      ensures next == if file == old(file) then old(next) else old(next) + 1
      ensures var t, me := Run(s, run), s.procs[p];
        && Shows(t, file, next)
        && Moved(s, t, p, if r.Exists? && me.pc.Quiet? then Contended else Quiet,
                 Given(me.handles, r.Created?, false))
    {
      hide Run, Step;
      ghost var again := s.procs[p].pc.Retrying?;
      ghost var create := if again then Recreate(p) else Create(p);
      var threw := Fails(faulty);
      if threw {
        run := if again then [RecreateFails(p)] else [];
        RunOne(s, RecreateFails(p));
        NothingRun(s);
        if again { RecreateThrows(s, p); }
        StaysPut(s, p);
        return CreateThrew, run;
      }
      RunOne(s, create);
      Creates(s, p);
      if file.Present? { return Exists, [create]; }
      file, next := Present(next, p, None), next + 1;
      ghost var t := Run(s, [create]);
      threw := Fails(faulty);
      if threw {
        RunTwo(s, create, WriteFails(p));
        WriteThrows(t, p);
        return CreateThrew, [create, WriteFails(p)];
      }
      file := file.(text := Some(p));
      threw := Fails(faulty);
      if threw {
        RunTwo(s, create, CloseFails(p));
        CloseThrows(t, p);
        return CreateThrew, [create, CloseFails(p)];
      }
      RunTwo(s, create, Write(p));
      WriteOpened(t, p);
      return Created, [create, Write(p)];
    }

    /**
     * `live` answers the liveness probe, `aborted` is the state of the caller's signal; when `faulty`, any
     * call may fail. A failed read or unlink is swallowed, a failed creation is thrown. `run` is what the
     * machine does meanwhile, from any state `s` that shows this lock path and in which `p` is not in a call.
     */
    method AcquireDrainLock(p: Pid, live: set<Pid>, aborted: bool, faulty: bool, ghost s: State)
      returns (r: Acquisition, ghost run: seq<Action>)
      requires Shows(s, file, next) && s.procs.Keys == live && p in live && s.procs[p].pc.Quiet?
      modifies this
      ensures r.Acquired? ==>
        && Obtainable(old(file), live, p)
        && fresh(r.handle) && r.handle.lock == this && r.handle.released == aborted
        && (file == Present(old(next), p, Some(p)) || (aborted && file == Absent))
        && (aborted && !faulty ==> file == Absent)
        && (!aborted ==> file == Present(old(next), p, Some(p)))
      ensures r.Contention? ==> old(file).Present? && file == old(file)
      ensures r.AcquireThrew? ==>
        && faulty
        && (|| file == old(file)
            || (Obtainable(old(file), live, p) && (file.Absent? || (file.gen == old(next) && file.maker == p))))
      ensures !faulty ==> (r.Acquired? <==> Obtainable(old(file), live, p))
      ensures var t := Run(s, run);
        && Shows(t, file, next)
        && Moved(s, t, p, Quiet, Given(s.procs[p].handles, r.Acquired?, aborted))
    {
      hide Run, Step;
      var creation;
      creation, run := TryCreate(p, faulty, s);
      ghost var t := Run(s, run);
      if creation.Exists? {
        ghost var more;
        creation, more := Contend(p, live, faulty, t);
        RunAppend(s, run, more);
        run := run + more;
        t := Run(s, run);
      }
      match creation
      case CreateThrew => return AcquireThrew, run;
      case Exists => return Contention, run;
      case Created =>
        var h := new Handle(this);
        if aborted {
          ghost var n := |s.procs[p].handles|;
          h.Release(faulty);
          ghost var more := [Release(p, n), if file.Absent? then UnlinkOwn(p) else UnlinkOwnFails(p)];
          RunTwo(t, Release(p, n), more[1]);
          Releases(t, p, n);
          assert (s.procs[p].handles + [false])[n := true] == s.procs[p].handles + [true];
          RunAppend(s, run, more);
          run := run + more;
        }
        return Acquired(h), run;
    }

    /** What follows when the file exists: read, probe, steal, and one more attempt. */
    method Contend(p: Pid, live: set<Pid>, faulty: bool, ghost s: State) returns (r: Creation, ghost run: seq<Action>)
      requires Shows(s, file, next) && s.procs.Keys == live && p in live && s.procs[p].pc.Contended? && file.Present?
      modifies this
      ensures r.Created? ==> Obtainable(old(file), live, p) && file == Present(old(next), p, Some(p))
      ensures r.Exists? ==> file == old(file)
      ensures r.CreateThrew? ==>
        && faulty
        && (|| file == old(file)
            || (Obtainable(old(file), live, p) && (file.Absent? || (file.gen == old(next) && file.maker == p))))
      ensures !faulty ==> (r.Created? <==> Obtainable(old(file), live, p))
      ensures var t := Run(s, run);
        Shows(t, file, next) && Moved(s, t, p, Quiet, Given(s.procs[p].handles, r.Created?, false))
    {
      hide Run, Step;
      var unreadable := Fails(faulty);
      if unreadable {
        RunOne(s, ReadFails(p));
        ReadThrows(s, p);
        return Exists, [ReadFails(p)];
      }
      var holder := file.text;
      ghost var steps := [Read(p), Probe(p)];
      RunTwo(s, Read(p), Probe(p));
      Probes(s, p);
      if !(holder.Some? && holder.value != p && holder.value !in live) {
        return Exists, steps;
      }
      var stuck := Fails(faulty);
      ghost var unlink := if stuck then UnlinkFails(p) else Unlink(p);
      if !stuck { file := Absent; }
      ghost var t := Run(s, steps);
      Unlinks(t, p);
      RunOne(t, unlink);
      RunAppend(s, steps, [unlink]);
      t := Run(s, steps + [unlink]);
      ghost var more;
      r, more := TryCreate(p, faulty, t);
      RunAppend(s, steps + [unlink], more);
      run := steps + [unlink] + more;
    }
  }

  lemma NothingRun(s: State)
    ensures Run(s, []) == s
  {
  }

  lemma StaysPut(s: State, p: Pid)
    requires p in s.procs
    ensures Moved(s, s, p, s.procs[p].pc, s.procs[p].handles)
  {
  }

  lemma MovedTwice(s: State, t: State, u: State, p: Pid, pc: Pc, handles: seq<bool>, pc': Pc, handles': seq<bool>)
    requires p in s.procs && Moved(s, t, p, pc, handles) && Moved(t, u, p, pc', handles')
    ensures Moved(s, u, p, pc', handles')
  {
  }

  lemma RunOne(s: State, a: Action)
    ensures Run(s, [a]) == Step(s, a)
  {
    RunSnoc(s, [], a);
    assert [] + [a] == [a];
  }

  lemma Creates(s: State, p: Pid)
    requires p in s.procs && (s.procs[p].pc.Quiet? || s.procs[p].pc.Retrying?)
    ensures var me := s.procs[p]; var t := Step(s, if me.pc.Retrying? then Recreate(p) else Create(p));
      if s.file.Absent? then
        Shows(t, Present(s.next, p, None), s.next + 1) && Moved(s, t, p, Opened(s.next), me.handles)
      else Shows(t, s.file, s.next) && Moved(s, t, p, if me.pc.Retrying? then Quiet else Contended, me.handles)
  {
  }

  lemma RecreateThrows(s: State, p: Pid)
    requires p in s.procs && s.procs[p].pc.Retrying?
    ensures var t := Step(s, RecreateFails(p)); Shows(t, s.file, s.next) && Moved(s, t, p, Quiet, s.procs[p].handles)
  {
  }

  lemma WriteThrows(s: State, p: Pid)
    requires p in s.procs && s.procs[p].pc.Opened?
    ensures var t := Step(s, WriteFails(p)); Shows(t, s.file, s.next) && Moved(s, t, p, Quiet, s.procs[p].handles)
  {
  }

  lemma CloseThrows(s: State, p: Pid)
    requires p in s.procs && s.procs[p].pc.Opened? && s.file == Present(s.procs[p].pc.gen, p, None)
    ensures var t := Step(s, CloseFails(p));
      Shows(t, s.file.(text := Some(p)), s.next) && Moved(s, t, p, Quiet, s.procs[p].handles)
  {
  }

  lemma ReadThrows(s: State, p: Pid)
    requires p in s.procs && s.procs[p].pc.Contended?
    ensures var t := Step(s, ReadFails(p)); Shows(t, s.file, s.next) && Moved(s, t, p, Quiet, s.procs[p].handles)
  {
  }

  lemma Probes(s: State, p: Pid)
    requires p in s.procs && s.procs[p].pc.Contended? && s.file.Present?
    ensures var t := Step(Step(s, Read(p)), Probe(p));
      && Shows(t, s.file, s.next)
      && Moved(s, t, p, if Obtainable(s.file, s.procs.Keys, p) then Stealing(s.file.text.value, s.file.gen) else Quiet,
               s.procs[p].handles)
  {
  }

  lemma Unlinks(s: State, p: Pid)
    requires p in s.procs && s.procs[p].pc.Stealing?
    ensures var t := Step(s, Unlink(p)); Shows(t, Absent, s.next) && Moved(s, t, p, Retrying, s.procs[p].handles)
    ensures var t := Step(s, UnlinkFails(p)); Shows(t, s.file, s.next) && Moved(s, t, p, Retrying, s.procs[p].handles)
  {
  }

  lemma Releases(s: State, p: Pid, n: nat)
    requires p in s.procs && s.procs[p].pc.Quiet? && n < |s.procs[p].handles| && !s.procs[p].handles[n]
    ensures var u := Step(s, Release(p, n)); var handles := s.procs[p].handles[n := true];
      && Shows(Step(u, UnlinkOwn(p)), Absent, s.next) && Moved(s, Step(u, UnlinkOwn(p)), p, Quiet, handles)
      && Shows(Step(u, UnlinkOwnFails(p)), s.file, s.next) && Moved(s, Step(u, UnlinkOwnFails(p)), p, Quiet, handles)
  {
  }
}
