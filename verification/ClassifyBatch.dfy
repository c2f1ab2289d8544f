/**
 * Batch classification: the attempt loop for one document, the circuit breaker, and the two batch loops
 * (the re-enrichment command and the daemon's pass). What the model answers is arbitrary.
 */
module ClassifyBatch {
  import opened Wrappers

  /** One model call, after validation of its answer. */
  datatype Reply = Valid | SchemaInvalid | VocabularyViolation | Unavailable | AbortError | UnknownError

  /** What the persister does; it throws when the batch's signal is aborted as it is called. */
  datatype PersistReply = Stored | PersistError | AbortThrown

  /** One unclassified row: can its context be read, what each call answers, what the persister does. */
  datatype Doc = Doc(id: string, loads: bool, reply: nat -> Reply, persist: PersistReply)

  datatype Outcome =
    | Classified
    | LoadFailed
    | SchemaFailed
    | VocabularyFailed
    | ClassifyAborted
    | PersistFailed
    | OllamaFailed
    | Threw

  /** The breaker threshold both batch loops use. */
  const THRESHOLD: nat := 3

  datatype Policy = Policy(classifyRetryMaxAttempts: nat, consecutiveOllamaFailureBatchHaltThreshold: nat)

  /***** One document *****/

  function OutcomeOf(reply: Reply, persist: PersistReply): Outcome {
    match reply
    case Valid => (match persist case Stored => Classified case PersistError => PersistFailed case AbortThrown => Threw)
    case SchemaInvalid => SchemaFailed
    case VocabularyViolation => VocabularyFailed
    case Unavailable => OllamaFailed
    case UnknownError => OllamaFailed
    case AbortError => ClassifyAborted
  }

  /** What one document comes to, and with how many model calls, when `max` attempts are allowed. */
  ghost predicate Comes(doc: Doc, max: nat, outcome: Outcome, calls: nat) {
    if !doc.loads then outcome == LoadFailed && calls == 0
    else
      && 1 <= calls <= max
      && (forall i: nat :: i < calls - 1 ==> doc.reply(i) == SchemaInvalid)
      && (doc.reply(calls - 1) == SchemaInvalid ==> calls == max)
      && outcome == OutcomeOf(doc.reply(calls - 1), doc.persist)
  }

  /** The calls made, from attempt `i` on, until an answer settles the document or attempts run out. */
  function CallsFrom(doc: Doc, i: nat, max: nat): (n: nat)
    requires i < max
    decreases max - i
  {
    if doc.reply(i) == SchemaInvalid && i + 1 < max then 1 + CallsFrom(doc, i + 1, max) else 1
  }

  function Calls(doc: Doc, max: nat): nat
    requires max > 0
  {
    if doc.loads then CallsFrom(doc, 0, max) else 0
  }

  function OutcomeIn(doc: Doc, max: nat): Outcome
    requires max > 0
  {
    if !doc.loads then LoadFailed
    else if Calls(doc, max) == 0 then SchemaFailed
    else OutcomeOf(doc.reply(Calls(doc, max) - 1), doc.persist)
  }

  lemma {:induction false} CallsFromIs(doc: Doc, i: nat, max: nat)
    requires i < max
    ensures var n := CallsFrom(doc, i, max);
      && 1 <= n <= max - i
      && (forall j: nat :: i <= j < i + n - 1 ==> doc.reply(j) == SchemaInvalid)
      && (doc.reply(i + n - 1) == SchemaInvalid ==> i + n == max)
    decreases max - i
  {
    if doc.reply(i) == SchemaInvalid && i + 1 < max { CallsFromIs(doc, i + 1, max); }
  }

  /** Every document comes to exactly one outcome, with one number of calls, at most the attempts allowed. */
  lemma ComesToOne(doc: Doc, max: nat, outcome: Outcome, calls: nat)
    requires max > 0
    ensures Comes(doc, max, outcome, calls) <==> outcome == OutcomeIn(doc, max) && calls == Calls(doc, max)
    ensures Calls(doc, max) <= max
  {
    if doc.loads {
      CallsFromIs(doc, 0, max);
    }
  }

  /***** The breaker *****/

  /** Outcomes that count against the model. */
  predicate Charged(o: Outcome) {
    o.OllamaFailed? || o.PersistFailed?
  }

  function Next(failures: nat, o: Outcome): nat {
    if o.Classified? then 0 else if Charged(o) then failures + 1 else failures
  }

  /** The counter after a batch. */
  function Failures(os: seq<Outcome>): nat {
    if os == [] then 0 else Next(Failures(os[..|os| - 1]), os[|os| - 1])
  }

  function ChargedIn(os: seq<Outcome>): nat {
    if os == [] then 0 else ChargedIn(os[..|os| - 1]) + if Charged(os[|os| - 1]) then 1 else 0
  }

  /** The counter is the number of charged outcomes since the last success. */
  lemma {:induction false} FailuresSinceSuccess(os: seq<Outcome>, k: nat)
    requires k <= |os| && (k == 0 || os[k - 1].Classified?)
    requires forall i :: k <= i < |os| ==> !os[i].Classified?
    ensures Failures(os) == ChargedIn(os[k..])
    ensures Failures(os) == multiset(os[k..])[OllamaFailed] + multiset(os[k..])[PersistFailed]
  {
    if |os| == k {
      assert os[k..] == [];
    } else {
      var n := |os| - 1;
      FailuresSinceSuccess(os[..n], k);
      assert os[k..][..n - k] == os[..n][k..];
      assert os[k..] == os[..n][k..] + [os[n]];
    }
  }

  /** The outcomes the breaker is told about. */
  function Told(os: seq<Outcome>): seq<Outcome> {
    if os == [] then []
    else
      var o := os[|os| - 1];
      Told(os[..|os| - 1]) + if Charged(o) || o.Classified? then [o] else []
  }

  /** Schema, vocabulary, abort and load failures leave the counter alone. */
  lemma {:induction false} OthersLeaveTheCounter(os: seq<Outcome>)
    ensures Failures(Told(os)) == Failures(os)
  {
    if os != [] {
      var n := |os| - 1;
      OthersLeaveTheCounter(os[..n]);
      var told := Told(os[..n]);
      assert (told + [os[n]])[..|told|] == told && told + [] == told;
    }
  }

  class CircuitBreaker {
    const threshold: nat
    var failures: nat
    var last: Option<Outcome>

    constructor (threshold: nat := THRESHOLD)
      ensures this.threshold == threshold && failures == 0 && last == None
    {
      this.threshold := threshold;
      failures, last := 0, None;
    }

    predicate ShouldHalt()
      reads this
    {
      failures >= threshold
    }

    method RecordFailure(o: Outcome)
      modifies this
      ensures failures == old(failures) + 1 && last == Some(o)
    {
      failures, last := failures + 1, Some(o);
    }

    method RecordSuccess()
      modifies this
      ensures failures == 0 && last == old(last)
    {
      failures := 0;
    }
  }

  /** Classifies one document: the attempt loop, the persister, and the breaker. */
  method ClassifyStage(doc: Doc, policy: Policy, breaker: CircuitBreaker)
      returns (outcome: Outcome, halt: bool, calls: nat)
    modifies breaker
    ensures Comes(doc, 1 + policy.classifyRetryMaxAttempts, outcome, calls)
    ensures breaker.failures == Next(old(breaker.failures), outcome)
    ensures breaker.last == if Charged(outcome) then Some(outcome) else old(breaker.last)
    ensures halt <==> outcome.OllamaFailed? && breaker.failures >= breaker.threshold
  {
    calls := 0;
    if !doc.loads { return LoadFailed, false, calls; }
    var validated := false;
    var maxAttempts := 1 + policy.classifyRetryMaxAttempts;
    for attempt := 0 to maxAttempts
      invariant calls == attempt && !validated
      invariant forall i: nat :: i < attempt ==> doc.reply(i) == SchemaInvalid
      invariant breaker.failures == old(breaker.failures) && breaker.last == old(breaker.last)
    {
      calls := calls + 1;
      match doc.reply(attempt) {
        case Unavailable =>
          breaker.RecordFailure(OllamaFailed);
          halt := breaker.ShouldHalt();
          return OllamaFailed, halt, calls;
        case AbortError =>
          return ClassifyAborted, false, calls;
        case UnknownError =>
          breaker.RecordFailure(OllamaFailed);
          halt := breaker.ShouldHalt();
          return OllamaFailed, halt, calls;
        case VocabularyViolation =>
          return VocabularyFailed, false, calls;
        case SchemaInvalid =>
        case Valid =>
          validated := true;
          break;
      }
    }
    if !validated { return SchemaFailed, false, calls; }
    if doc.persist.AbortThrown? { return Threw, false, calls; }
    if doc.persist.PersistError? {
      breaker.RecordFailure(PersistFailed);
      return PersistFailed, false, calls;
    }
    breaker.RecordSuccess();
    return Classified, false, calls;
  }

  /***** A batch *****/

  /** What the documents of a batch come to, were all of them reached. */
  function Outcomes(rows: seq<Doc>, max: nat): seq<Outcome>
    requires max > 0
  {
    seq(|rows|, i requires 0 <= i < |rows| => OutcomeIn(rows[i], max))
  }

  /** The last outcome is an unreachable model and brings the counter to the threshold. */
  predicate Trips(os: seq<Outcome>) {
    os != [] && os[|os| - 1].OllamaFailed? && Failures(os) >= THRESHOLD
  }

  /** The batch does not go on: the breaker tripped, or the last document threw. */
  predicate Ends(os: seq<Outcome>) {
    Trips(os) || (os != [] && os[|os| - 1].Threw?)
  }

  /**
   * The batch reaches exactly its first `n` documents: it goes on past every prefix that does not end it,
   * and stops at the first that does, at an abort seen before document `abortAt`, or at the end.
   */
  ghost predicate StopsAt(os: seq<Outcome>, abortAt: nat, n: nat) {
    && n <= |os| && n <= abortAt
    && (forall q :: 0 <= q < n ==> !Ends(os[..q]))
    && (n == |os| || n == abortAt || Ends(os[..n]))
  }

  /**
   * A batch ends after an unreachable model if, since the last success, the model was unreachable or the
   * persister failed at least three times; and after a document that threw.
   */
  lemma EndsIff(os: seq<Outcome>, k: nat)
    requires k <= |os| && (k == 0 || os[k - 1] == Classified)
    requires forall i :: k <= i < |os| ==> os[i] != Classified
    ensures Ends(os) <==> (os != [] && (os[|os| - 1] == Threw || (os[|os| - 1] == OllamaFailed
                            && multiset(os[k..])[OllamaFailed] + multiset(os[k..])[PersistFailed] >= 3)))
  {
    hide Failures;
    FailuresSinceSuccess(os, k);
  }

  lemma StopsAtOne(os: seq<Outcome>, abortAt: nat, m: nat, n: nat)
    requires StopsAt(os, abortAt, m) && StopsAt(os, abortAt, n)
    ensures m == n
  {
  }

  /** A batch without an unreachable model and without an abort is never cut short, however often the persister fails. */
  lemma PersistFailuresDoNotHalt(os: seq<Outcome>, abortAt: nat, n: nat)
    requires StopsAt(os, abortAt, n) && OllamaFailed !in os && Threw !in os
    ensures n == if |os| <= abortAt then |os| else abortAt
  {
    if n > 0 {
      assert os[..n][n - 1] == os[n - 1] && os[n - 1] in os;
    }
  }

  lemma {:induction false} CountersOrdered(os: seq<Outcome>)
    ensures multiset(os)[OllamaFailed] <= ChargedIn(os) == multiset(os)[OllamaFailed] + multiset(os)[PersistFailed]
    ensures Failures(os) <= ChargedIn(os) <= |os|
    ensures Classified !in os ==> Failures(os) == ChargedIn(os)
  {
    if os != [] {
      CountersOrdered(os[..|os| - 1]);
      assert os == os[..|os| - 1] + [os[|os| - 1]];
      assert os[|os| - 1] in os;
      assert Classified in os[..|os| - 1] ==> Classified in os;
    }
  }

  /**
   * A halted batch has charged at least as many documents as the threshold; and without a success in between
   * no batch goes past its third unreachable-model outcome.
   */
  lemma {:induction false} HaltBounds(os: seq<Outcome>)
    ensures Trips(os) ==> multiset(os)[OllamaFailed] + multiset(os)[PersistFailed] >= 3
    ensures Classified !in os && multiset(os)[OllamaFailed] >= 3 ==> exists q :: 0 < q <= |os| && Trips(os[..q])
    decreases |os|
  {
    CountersOrdered(os);
    if Classified !in os && multiset(os)[OllamaFailed] >= 3 {
      var n := |os| - 1;
      if os[n].OllamaFailed? {
        assert os[..|os|] == os;
        assert Trips(os[..|os|]);
      } else {
        HaltBounds(os[..n]);
        assert os == os[..n] + [os[n]];
        assert Classified !in os[..n];
        var q :| 0 < q <= n && Trips(os[..n][..q]);
        assert os[..n][..q] == os[..q];
      }
    }
  }

  /** Three unreachable-model outcomes trip the breaker although other failures lie between them. */
  lemma NeedNotBeAdjacent()
    ensures Trips([OllamaFailed, SchemaFailed, OllamaFailed, VocabularyFailed, OllamaFailed])
  {
    var os := [OllamaFailed, SchemaFailed, OllamaFailed, VocabularyFailed, OllamaFailed];
    assert os[..4] == [OllamaFailed, SchemaFailed, OllamaFailed, VocabularyFailed];
    assert os[..4][..3] == [OllamaFailed, SchemaFailed, OllamaFailed];
    assert os[..4][..3][..2] == [OllamaFailed, SchemaFailed];
    assert os[..4][..3][..2][..1] == [OllamaFailed] && [OllamaFailed][..0] == [];
    assert Failures([OllamaFailed]) == 1 && Failures([OllamaFailed, SchemaFailed]) == 1;
    assert Failures([OllamaFailed, SchemaFailed, OllamaFailed]) == 2;
  }

  function Classifieds(os: seq<Outcome>): (n: nat)
    ensures n <= |os|
  {
    if os == [] then 0 else Classifieds(os[..|os| - 1]) + if os[|os| - 1].Classified? then 1 else 0
  }

  lemma {:induction false} ClassifiedsCount(os: seq<Outcome>)
    ensures Classifieds(os) == multiset(os)[Classified]
  {
    if os != [] {
      ClassifiedsCount(os[..|os| - 1]);
      assert os == os[..|os| - 1] + [os[|os| - 1]];
    }
  }

  datatype Summary = Summary(classified: nat, failed: nat, skipped: nat, dryRun: bool, lockContended: bool)

  datatype CommandError = DatabaseError | VocabularyLoadFailed | BadClassifierConfig | Aborted

  /** What the command finds around it; `aborted` is the state of its signal when it is called. */
  datatype Setting = Setting(aborted: bool, lockFree: bool, opens: bool, vocabularyLoads: bool, configOk: bool)

  /** The rows are looked at, and the model can be asked. */
  predicate Starts(setting: Setting) {
    !setting.aborted && setting.lockFree && setting.opens && setting.vocabularyLoads
  }

  function TotalCalls(rows: seq<Doc>, max: nat): nat
    requires max > 0
  {
    if rows == [] then 0 else TotalCalls(rows[..|rows| - 1], max) + Calls(rows[|rows| - 1], max)
  }

  /** A batch makes at most one call and the allowed retries for each document it reaches. */
  lemma {:induction false} TotalCallsBounded(rows: seq<Doc>, max: nat)
    requires max > 0
    ensures TotalCalls(rows, max) <= |rows| * max
  {
    if rows != [] {
      var n := |rows| - 1;
      TotalCallsBounded(rows[..n], max);
      ComesToOne(rows[n], max, Classified, 0);
      assert |rows| * max == n * max + max;
    }
  }

  lemma OutcomesStart(rows: seq<Doc>, max: nat)
    requires max > 0
    ensures var os := Outcomes(rows, max);
      |os| == |rows| && TotalCalls(rows[..0], max) == 0 && Failures(os[..0]) == 0 && Classifieds(os[..0]) == 0 && !Ends(os[..0])
  {
  }

  lemma OutcomesSnoc(rows: seq<Doc>, max: nat, n: nat)
    requires max > 0 && n < |rows|
    ensures Outcomes(rows, max)[..n + 1] == Outcomes(rows, max)[..n] + [OutcomeIn(rows[n], max)]
    ensures var os := Outcomes(rows, max)[..n + 1];
      && Failures(os) == Next(Failures(Outcomes(rows, max)[..n]), OutcomeIn(rows[n], max))
      && Classifieds(os) == Classifieds(Outcomes(rows, max)[..n]) + (if OutcomeIn(rows[n], max).Classified? then 1 else 0)
      && os[n] == OutcomeIn(rows[n], max)
      && TotalCalls(rows[..n + 1], max) == TotalCalls(rows[..n], max) + Calls(rows[n], max)
      && (Ends(os) <==> os[n].Threw? || (os[n].OllamaFailed? && Failures(os) >= THRESHOLD))
  {
    var os := Outcomes(rows, max)[..n + 1];
    assert os[..n] == Outcomes(rows, max)[..n];
    assert rows[..n + 1][..n] == rows[..n];
  }

  /** The re-enrichment command over the unclassified rows, oldest first. */
  method RunReenrichCommand(rows: seq<Doc>, policy: Policy, dryRun: bool, setting: Setting, abortAt: nat)
      returns (r: Result<Summary, CommandError>, reached: nat, calls: nat)
    ensures setting.aborted ==> r == Err(Aborted)
    ensures !setting.aborted && !setting.lockFree ==> r == Ok(Summary(0, 0, 0, dryRun, true))
    ensures !setting.aborted && setting.lockFree && !setting.opens ==> r == Err(DatabaseError)
    ensures !setting.aborted && setting.lockFree && setting.opens && !setting.vocabularyLoads ==>
      r == Err(VocabularyLoadFailed)
    ensures Starts(setting) && !dryRun && !setting.configOk ==>
      r == if rows == [] || abortAt == 0 then Ok(Summary(0, 0, 0, false, false)) else Err(BadClassifierConfig)
    // a dry run, and every early return, asks the model nothing
    ensures dryRun || !Starts(setting) || !setting.configOk ==> calls == 0
    ensures dryRun && Starts(setting) ==>
      r == Ok(Summary(0, 0, 0, true, false))
    ensures !dryRun && Starts(setting) && setting.configOk ==>
      var os := Outcomes(rows, 1 + policy.classifyRetryMaxAttempts);
      && StopsAt(os, abortAt, reached)
      && r == (if reached > 0 && os[reached - 1].Threw? then Err(Aborted)
               else Ok(Summary(Classifieds(os[..reached]), reached - Classifieds(os[..reached]), 0, false, false)))
      && calls == TotalCalls(rows[..reached], 1 + policy.classifyRetryMaxAttempts)
  {
    hide Failures, TotalCalls, Classifieds, Calls, OutcomeIn, Outcomes, Ends;
    reached, calls := 0, 0;
    var classified, failed: nat := 0, 0;
    if setting.aborted { return Err(Aborted), reached, calls; }
    if !setting.lockFree { return Ok(Summary(0, 0, 0, dryRun, true)), reached, calls; }
    if !setting.opens { return Err(DatabaseError), reached, calls; }
    if !setting.vocabularyLoads { return Err(VocabularyLoadFailed), reached, calls; }
    var breaker := new CircuitBreaker();
    ghost var max := 1 + policy.classifyRetryMaxAttempts;
    ghost var os := Outcomes(rows, max);
    OutcomesStart(rows, max);
    for i := 0 to |rows|
      invariant i <= abortAt && reached == (if dryRun then 0 else i)
      invariant !dryRun && i > 0 ==> setting.configOk
      invariant reached > 0 ==> !os[reached - 1].Threw?
      invariant fresh(breaker) && breaker.threshold == THRESHOLD && breaker.failures == Failures(os[..reached])
      invariant classified == Classifieds(os[..reached]) && classified + failed == reached
      invariant calls == TotalCalls(rows[..reached], max)
      invariant forall q :: 0 <= q <= reached ==> !Ends(os[..q])
    {
      if i == abortAt { break; }
      if dryRun { continue; }
      if !setting.configOk { return Err(BadClassifierConfig), reached, calls; }
      var outcome, halt, n := ClassifyStage(rows[i], policy, breaker);
      ComesToOne(rows[i], max, outcome, n);
      OutcomesSnoc(rows, max, i);
      reached, calls := reached + 1, calls + n;
      if outcome.Threw? { return Err(Aborted), reached, calls; }   // nothing catches it
      if outcome.Classified? { classified := classified + 1; } else { failed := failed + 1; }
      if halt { break; }
    }
    return Ok(Summary(classified, failed, 0, dryRun, false)), reached, calls;
  }

  /** The ids of the documents that were classified, in order. */
  function ClassifiedIds(rows: seq<Doc>, os: seq<Outcome>): seq<string>
    requires |rows| == |os|
  {
    if rows == [] then []
    else
      var n := |rows| - 1;
      ClassifiedIds(rows[..n], os[..n]) + if os[n].Classified? then [rows[n].id] else []
  }

  /**
   * The daemon's pass after a drain. It hands the retrieval stage exactly the documents it classified; what
   * that stage does cannot end the pass.
   */
  method RunClassifyPass(rows: seq<Doc>, policy: Policy, retrieval: bool, setting: Setting, abortAt: nat)
      returns (indexed: seq<string>, reached: nat)
    ensures !Starts(setting) || !setting.configOk ==> indexed == [] && reached == 0
    ensures Starts(setting) && setting.configOk ==>
      var os := Outcomes(rows, 1 + policy.classifyRetryMaxAttempts);
      && StopsAt(os, abortAt, reached)
      && indexed == if retrieval then ClassifiedIds(rows[..reached], os[..reached]) else []
  {
    hide Failures, TotalCalls, Calls, OutcomeIn, Outcomes, Ends;
    indexed, reached := [], 0;
    if !setting.lockFree || !setting.opens { return; }
    if setting.aborted || !setting.vocabularyLoads { return; }
    var breaker := new CircuitBreaker();
    ghost var max := 1 + policy.classifyRetryMaxAttempts;
    ghost var os := Outcomes(rows, max);
    OutcomesStart(rows, max);
    for i := 0 to |rows|
      invariant i <= abortAt && reached == i && (i > 0 ==> setting.configOk)
      invariant fresh(breaker) && breaker.threshold == THRESHOLD && breaker.failures == Failures(os[..reached])
      invariant indexed == if retrieval then ClassifiedIds(rows[..reached], os[..reached]) else []
      invariant forall q :: 0 <= q <= reached ==> !Ends(os[..q])
    {
      if i == abortAt { break; }
      if !setting.configOk { return; }
      var outcome, halt, n := ClassifyStage(rows[i], policy, breaker);
      ComesToOne(rows[i], max, outcome, n);
      OutcomesSnoc(rows, max, i);
      assert rows[..i + 1][..i] == rows[..i] && os[..i + 1][..i] == os[..i];
      reached := reached + 1;
      if outcome.Threw? || halt { break; }
      if retrieval && outcome.Classified? { indexed := indexed + [rows[i].id]; }
    }
  }
}
