/** The accounting of an evaluation (adapter/evaluate.go, adapter/retry.go). */
module Evaluate {
  import opened Basics

  // The corrective loop around the transient-retry loop. What the provider, the
  // clock and the context do is a plan, one step for every provider request.

  /** A provider's answer: its token counts, None when not reported, and what validation says of its text. */
  datatype Answer = Answer(input: Option<nat>, output: Option<nat>, verdict: Verdict)

  datatype Verdict = Valid | Malformed | Broken

  datatype Outcome = Answered(answer: Answer) | Failed(retryable: bool)

  /**
    One provider request: whether the context is done when the loop first
    checks it, the outcome, whether the context is done after it, the time
    spent since the loop started, the wait before a retry, and whether the
    wait ends with the context alive.
  */
  datatype Step = Step(doneBefore: bool, outcome: Outcome, doneAfter: bool, elapsed: nat, delay: nat, waits: bool)

  datatype Policy = Policy(valid: bool, maxRetries: nat, budget: Option<nat>)

  datatype Reason = ProviderError | MalformedStructure

  datatype RunError = BadPolicy | ContextDone | NotRetryable | RetriesSpent | BudgetSpent | InvalidOutput | MalformedOutput

  function CountOf(reasons: seq<Reason>, r: Reason): nat {
    if reasons == [] then 0
    else CountOf(reasons[..|reasons| - 1], r) + if reasons[|reasons| - 1] == r then 1 else 0
  }

  lemma CountAppend(reasons: seq<Reason>, x: Reason, r: Reason)
    ensures CountOf(reasons + [x], r) == CountOf(reasons, r) + if x == r then 1 else 0
  {
    assert (reasons + [x])[..|reasons|] == reasons;
  }

  /** addCount */
  function AddCount(total: Option<nat>, c: Option<nat>): Option<nat> {
    if total.None? || c.None? then None else Some(total.value + c.value)
  }

  /** The sum of the counts, None when one is not known. */
  function Total(counts: seq<Option<nat>>): Option<nat> {
    if counts == [] then Some(0) else AddCount(Total(counts[..|counts| - 1]), counts[|counts| - 1])
  }

  function Sum(counts: seq<Option<nat>>): nat {
    if counts == [] then 0
    else Sum(counts[..|counts| - 1]) + match counts[|counts| - 1] case None => 0 case Some(n) => n
  }

  /** A total is known exactly when every result reported its count, and is then their sum. */
  lemma {:induction false} TotalIs(counts: seq<Option<nat>>)
    ensures Total(counts).Some? <==> forall i :: 0 <= i < |counts| ==> counts[i].Some?
    ensures Total(counts).Some? ==> Total(counts).value == Sum(counts)
  {
    if counts != [] {
      TotalIs(counts[..|counts| - 1]);
    }
  }

  function Inputs(answers: seq<Answer>): seq<Option<nat>> {
    seq(|answers|, i requires 0 <= i < |answers| => answers[i].input)
  }

  function Outputs(answers: seq<Answer>): seq<Option<nat>> {
    seq(|answers|, i requires 0 <= i < |answers| => answers[i].output)
  }

  lemma TotalAppend(counts: seq<Option<nat>>, c: Option<nat>)
    ensures Total(counts + [c]) == AddCount(Total(counts), c)
  {
    assert (counts + [c])[..|counts|] == counts;
  }

  /** The wait was granted: the time spent and the wait stay under the budget. */
  predicate Granted(p: Policy, wait: (nat, nat)) {
    p.budget.Some? ==> wait.0 + wait.1 < p.budget.value
  }

  /** Attempt s is followed by another one while retries are left: it failed in a way the policy retries, the context lives, and the wait is granted and survived. */
  predicate Retryable(p: Policy, s: Step) {
    s.outcome == Failed(true) && !s.doneAfter && Granted(p, (s.elapsed, s.delay)) && s.waits
  }

  /** Why attempt s, with n retries before it, is the last one. */
  predicate EndsWith(p: Policy, s: Step, n: nat, err: RunError) {
    match err
    case NotRetryable => s.outcome == Failed(false) && !s.doneAfter
    case RetriesSpent => s.outcome == Failed(true) && !s.doneAfter && n == p.maxRetries
    case BudgetSpent => s.outcome == Failed(true) && !s.doneAfter && n < p.maxRetries && !Granted(p, (s.elapsed, s.delay))
    case ContextDone => s.outcome.Failed? && (s.doneAfter || (s.outcome.retryable && n < p.maxRetries && Granted(p, (s.elapsed, s.delay)) && !s.waits))
    case _ => false
  }

  // ----- what a plan's first n attempts amount to -----

  predicate IsMalformed(s: Step) {
    s.outcome.Answered? && s.outcome.answer.verdict.Malformed?
  }

  /** How many of the first n attempts were answered with a malformed output. */
  function MalformedIn(plan: nat -> Step, n: nat): nat {
    if n == 0 then 0 else MalformedIn(plan, n - 1) + if IsMalformed(plan(n - 1)) then 1 else 0
  }

  function AnswersIn(plan: nat -> Step, n: nat): seq<Answer> {
    if n == 0 then []
    else AnswersIn(plan, n - 1) + match plan(n - 1).outcome case Answered(a) => [a] case Failed(_) => []
  }

  /** Attempts that failed add no answer. */
  lemma {:induction false} FailuresAnswerNothing(plan: nat -> Step, at: nat, n: nat)
    requires forall i :: at <= i < at + n ==> plan(i).outcome.Failed?
    ensures AnswersIn(plan, at + n) == AnswersIn(plan, at) && MalformedIn(plan, at + n) == MalformedIn(plan, at)
  {
    if n > 0 {
      FailuresAnswerNothing(plan, at, n - 1);
    }
  }

  lemma {:induction false} MalformedGrows(plan: nat -> Step, i: nat, j: nat)
    requires i <= j
    ensures MalformedIn(plan, i) <= MalformedIn(plan, j)
  {
    if i < j {
      MalformedGrows(plan, i, j - 1);
    }
  }

  /** The conversation of each attempt: two messages, and two more for every malformed output before it. */
  predicate Conversations(plan: nat -> Step, attempts: seq<nat>) {
    forall i :: 0 <= i < |attempts| ==> attempts[i] == 2 + 2 * MalformedIn(plan, i)
  }

  /** The reason of each attempt that was followed by a retry. */
  predicate Reasons(plan: nat -> Step, reasons: seq<Reason>) {
    forall i :: 0 <= i < |reasons| ==> reasons[i] == if plan(i).outcome.Failed? then ProviderError else MalformedStructure
  }

  /** Attempts that another follows: a malformed output, or a failure that was retried. */
  predicate Continued(p: Policy, plan: nat -> Step, n: int) {
    forall i :: 0 <= i < n ==> IsMalformed(plan(i)) || Retryable(p, plan(i))
  }

  /** All the attempts of a round follow the same outputs. */
  lemma SameConversation(plan: nat -> Step, at: nat, n: nat, i: nat)
    requires at <= i <= at + n && forall j :: at <= j < at + n ==> plan(j).outcome.Failed?
    ensures MalformedIn(plan, i) == MalformedIn(plan, at)
  {
    FailuresAnswerNothing(plan, at, i - at);
  }

  lemma {:induction false} RoundConversations(plan: nat -> Step, attempts: seq<nat>, messages: nat, n: nat, started: nat)
    requires Conversations(plan, attempts) && messages == 2 + 2 * MalformedIn(plan, |attempts|) && started <= n + 1
    requires forall i :: |attempts| <= i < |attempts| + n ==> plan(i).outcome.Failed?
    ensures Conversations(plan, attempts + seq(started, _ => messages))
  {
    var after := attempts + seq(started, _ => messages);
    forall i | 0 <= i < |after| ensures after[i] == 2 + 2 * MalformedIn(plan, i) {
      if i >= |attempts| {
        SameConversation(plan, |attempts|, n, i);
      }
    }
  }

  lemma RoundReasons(plan: nat -> Step, reasons: seq<Reason>, n: nat, retried: nat)
    requires Reasons(plan, reasons) && retried <= n + 1 && (retried > n ==> plan(|reasons| + n).outcome.Failed?)
    requires forall i :: |reasons| <= i < |reasons| + n ==> plan(i).outcome.Failed?
    ensures Reasons(plan, reasons + seq(retried, _ => ProviderError))
  {
  }

  /** No attempt carries fewer messages than one before it. */
  predicate Growing(attempts: seq<nat>) {
    forall i, j :: 0 <= i < j < |attempts| ==> attempts[i] <= attempts[j]
  }

  lemma ConversationsNeverShrink(plan: nat -> Step, attempts: seq<nat>)
    requires Conversations(plan, attempts)
    ensures Growing(attempts)
  {
    forall i, j | 0 <= i < j < |attempts| ensures attempts[i] <= attempts[j] {
      MalformedGrows(plan, i, j);
    }
  }

  // ----- what an evaluation has recorded -----

  datatype Ledger = Ledger(attempts: seq<nat>, reasons: seq<Reason>, retries: nat, malformed: nat, answers: seq<Answer>, waits: seq<(nat, nat)>)

  /** What is settled when the evaluation begins: its policy, its corrective retries and its plan. */
  datatype Setup = Setup(policy: Policy, malformedRetries: nat, plan: nat -> Step)

  /** The attempts, the reasons and the answers are those of the plan's first attempts. */
  predicate Traced(u: Setup, l: Ledger) {
    && |l.reasons| <= |l.attempts|
    && Conversations(u.plan, l.attempts) && Reasons(u.plan, l.reasons)
    && l.answers == AnswersIn(u.plan, |l.attempts|)
    && forall i :: 0 <= i < |l.waits| ==> Granted(u.policy, l.waits[i])
  }

  /** Between two corrective attempts: one attempt and one reason for every retry of either kind. */
  predicate Accounted(u: Setup, l: Ledger, messages: nat) {
    && Traced(u, l) && Continued(u.policy, u.plan, |l.attempts|)
    && l.malformed == MalformedIn(u.plan, |l.attempts|) && (u.policy.valid || l.attempts == [])
    && |l.attempts| == |l.reasons| == l.retries + l.malformed
    && CountOf(l.reasons, MalformedStructure) == l.malformed <= u.malformedRetries
    && |l.attempts| <= l.malformed * (u.policy.maxRetries + 1) && messages == 2 + 2 * l.malformed
  }

  /** The run ended before its next attempt. */
  predicate NoneStarted(u: Setup, l: Ledger, err: Option<RunError>) {
    if u.policy.valid then err == Some(ContextDone) && u.plan(|l.attempts|).doneBefore && Continued(u.policy, u.plan, |l.attempts|)
    else err == Some(BadPolicy) && l.attempts == []
  }

  /** The run ended while it waited for its next attempt. */
  predicate LostInWait(u: Setup, l: Ledger, err: Option<RunError>) {
    err == Some(ContextDone) && l.attempts != [] && u.plan(|l.attempts| - 1).outcome == Failed(true) && !u.plan(|l.attempts| - 1).waits
  }

  /**
    At the end. An evaluation makes at most
    (malformedRetries + 1) * (maxRetries + 1) attempts, each but the last
    followed for its reason. It makes an attempt for every retry of either
    kind and one more, unless the context was done before that one or the
    policy is no policy; and it records a reason for every retry, and one more
    when the context ended in a wait.
  */
  predicate Settled(u: Setup, l: Ledger, err: Option<RunError>, messages: nat) {
    && Traced(u, l) && Continued(u.policy, u.plan, |l.attempts| - 1)
    && (|l.attempts| == l.retries + l.malformed + 1 || (|l.attempts| == l.retries + l.malformed && NoneStarted(u, l, err)))
    && (|l.reasons| == l.retries + l.malformed || (|l.reasons| == l.retries + l.malformed + 1 == |l.attempts| && LostInWait(u, l, err)))
    && CountOf(l.reasons, MalformedStructure) == l.malformed <= u.malformedRetries
    && |l.attempts| <= (l.malformed + 1) * (u.policy.maxRetries + 1) <= (u.malformedRetries + 1) * (u.policy.maxRetries + 1)
    && messages == 2 + 2 * l.malformed
  }

  /** The last attempt was answered. */
  predicate AnsweredLast(u: Setup, l: Ledger, answer: Answer) {
    && u.policy.valid && l.attempts != [] && u.plan(|l.attempts| - 1).outcome == Answered(answer)
    && MalformedIn(u.plan, |l.attempts| - 1) == l.malformed
  }

  /** Every result so far was malformed. */
  predicate AllMalformed(l: Ledger) {
    |l.answers| == l.malformed && forall i :: 0 <= i < l.malformed ==> l.answers[i].verdict.Malformed?
  }

  /** Every result before the last was malformed; the last one, if the evaluation got that far, says how it ended. */
  predicate Decided(u: Setup, l: Ledger, err: Option<RunError>) {
    && l.malformed <= |l.answers| <= l.malformed + 1
    && (forall i :: 0 <= i < l.malformed ==> l.answers[i].verdict.Malformed?)
    && match err
       case None => |l.answers| == l.malformed + 1 && l.answers[l.malformed].verdict.Valid?
       case Some(InvalidOutput) => |l.answers| == l.malformed + 1 && l.answers[l.malformed].verdict.Broken?
       case Some(MalformedOutput) =>
         |l.answers| == l.malformed + 1 && l.answers[l.malformed].verdict.Malformed? && l.malformed == u.malformedRetries
       case Some(_) => |l.answers| == l.malformed
  }

  /** What the whole evaluation keeps: its record is settled and decided, and its conversations only grow. */
  predicate Evaluated(u: Setup, l: Ledger, err: Option<RunError>, messages: nat) {
    Settled(u, l, if err == Some(InvalidOutput) || err == Some(MalformedOutput) then None else err, messages) && Decided(u, l, err) && Growing(l.attempts)
  }

  lemma Ends(u: Setup, before: Ledger, l: Ledger, answer: Option<Answer>, err: Option<RunError>, messages: nat)
    requires AllMalformed(before) && Settled(u, l, err, messages) && l.malformed == before.malformed && (answer.Some? <==> err.None?)
    requires l.answers == before.answers + if answer.Some? then [answer.value] else []
    requires err != Some(InvalidOutput) && err != Some(MalformedOutput)
    ensures err.Some? ==> Evaluated(u, l, err, messages)
    ensures err.None? && answer.value.verdict.Valid? ==> Evaluated(u, l, None, messages)
    ensures err.None? && answer.value.verdict.Broken? ==> Evaluated(u, l, Some(InvalidOutput), messages)
    ensures err.None? && answer.value.verdict.Malformed? && l.malformed >= u.malformedRetries ==> Evaluated(u, l, Some(MalformedOutput), messages)
    ensures err.None? && answer.value.verdict.Malformed? ==> AllMalformed(l.(malformed := l.malformed + 1))
  {
    ConversationsNeverShrink(u.plan, l.attempts);
  }

  /** How a round of attempts ends: after n retries, with an answer or an error. */
  predicate RoundEnds(u: Setup, at: nat, answer: Option<Answer>, n: nat, err: Option<RunError>, started: nat, retried: nat) {
    && (answer.Some? <==> err.None?)
    && n <= u.policy.maxRetries
    && (answer.Some? ==> started == n + 1 && retried == n && u.plan(at + n).outcome == Answered(answer.value))
    && (err.Some? ==> (started == n + 1 || started == n == 0) && (retried == n || retried == n + 1 == started))
    && (err == Some(BadPolicy) <==> !u.policy.valid)
    && (started == 0 <==> !u.policy.valid || u.plan(at).doneBefore)
    && (started == 0 && u.policy.valid ==> err == Some(ContextDone))
    && (started > 0 && err.Some? ==> EndsWith(u.policy, u.plan(at + n), n, err.value))
    && (retried > n ==> err == Some(ContextDone) && u.plan(at + n).outcome == Failed(true) && !u.plan(at + n).waits)
    && forall i :: at <= i < at + n ==> Retryable(u.policy, u.plan(i))
  }

  /** A round leaves the record of its attempts. */
  function AfterRound(l: Ledger, messages: nat, answer: Option<Answer>, n: nat, started: nat, retried: nat, waits: seq<(nat, nat)>): Ledger {
    Ledger(l.attempts + seq(started, _ => messages), l.reasons + seq(retried, _ => ProviderError), l.retries + n, l.malformed,
           l.answers + (if answer.Some? then [answer.value] else []), waits)
  }

  lemma RoundTraced(u: Setup, l: Ledger, messages: nat, answer: Option<Answer>, n: nat, err: Option<RunError>, started: nat, retried: nat,
                    waits: seq<(nat, nat)>)
    requires Accounted(u, l, messages) && RoundEnds(u, |l.attempts|, answer, n, err, started, retried)
    requires forall i :: 0 <= i < |waits| ==> Granted(u.policy, waits[i])
    ensures Traced(u, AfterRound(l, messages, answer, n, started, retried, waits))
    ensures MalformedIn(u.plan, |l.attempts| + n) == l.malformed
  {
    FailuresAnswerNothing(u.plan, |l.attempts|, n);
    RoundConversations(u.plan, l.attempts, messages, n, started);
    RoundReasons(u.plan, l.reasons, n, retried);
    RoundAnswers(u, l, answer, n, err, started, retried);
  }

  lemma RoundAnswers(u: Setup, l: Ledger, answer: Option<Answer>, n: nat, err: Option<RunError>, started: nat, retried: nat)
    requires l.answers == AnswersIn(u.plan, |l.attempts|) && RoundEnds(u, |l.attempts|, answer, n, err, started, retried)
    ensures l.answers + (if answer.Some? then [answer.value] else []) == AnswersIn(u.plan, |l.attempts| + started)
  {
    FailuresAnswerNothing(u.plan, |l.attempts|, n);
    if started == n + 1 {
      OneAnswer(u.plan, |l.attempts| + n);
    }
  }

  lemma OneAnswer(plan: nat -> Step, n: nat)
    ensures AnswersIn(plan, n + 1) == AnswersIn(plan, n) + match plan(n).outcome case Answered(a) => [a] case Failed(_) => []
  {
  }

  /** How many attempts and reasons a round adds. */
  lemma RoundCounts(u: Setup, l: Ledger, messages: nat, answer: Option<Answer>, n: nat, err: Option<RunError>, started: nat, retried: nat,
                    r: Ledger)
    requires Accounted(u, l, messages) && RoundEnds(u, |l.attempts|, answer, n, err, started, retried)
    requires r == AfterRound(l, messages, answer, n, started, retried, r.waits)
    ensures |r.attempts| == r.retries + r.malformed + 1 || (|r.attempts| == r.retries + r.malformed && NoneStarted(u, r, err))
    ensures |r.reasons| == r.retries + r.malformed || (|r.reasons| == r.retries + r.malformed + 1 == |r.attempts| && LostInWait(u, r, err))
  {
  }

  lemma RoundContinued(u: Setup, l: Ledger, messages: nat, answer: Option<Answer>, n: nat, err: Option<RunError>, started: nat, retried: nat)
    requires Accounted(u, l, messages) && RoundEnds(u, |l.attempts|, answer, n, err, started, retried)
    ensures Continued(u.policy, u.plan, |l.attempts| + n)
  {
  }

  /** A round has its share of the attempts an evaluation may make. */
  lemma RoundBound(before: nat, started: nat, k: nat, n: nat, most: nat)
    requires before <= k * most && started <= most && k <= n
    ensures before + started <= (k + 1) * most <= (n + 1) * most
  {
    Product(k, n, most);
  }

  lemma RoundSettles(u: Setup, l: Ledger, messages: nat, answer: Option<Answer>, n: nat, err: Option<RunError>, started: nat, retried: nat,
                     r: Ledger)
    requires Accounted(u, l, messages) && RoundEnds(u, |l.attempts|, answer, n, err, started, retried)
    requires r == AfterRound(l, messages, answer, n, started, retried, r.waits)
    requires forall i :: 0 <= i < |r.waits| ==> Granted(u.policy, r.waits[i])
    ensures Settled(u, r, err, messages)
    ensures answer.Some? ==> AnsweredLast(u, r, answer.value)
  {
    RoundTraced(u, l, messages, answer, n, err, started, retried, r.waits);
    RoundCounts(u, l, messages, answer, n, err, started, retried, r);
    RoundContinued(u, l, messages, answer, n, err, started, retried);
    RoundBound(|l.attempts|, started, l.malformed, u.malformedRetries, u.policy.maxRetries + 1);
    OnlyProvider(l.reasons, retried);
  }

  lemma MalformedAccounts(u: Setup, l: Ledger, messages: nat, answer: Answer)
    requires Settled(u, l, None, messages) && AnsweredLast(u, l, answer) && answer.verdict.Malformed? && l.malformed < u.malformedRetries
    ensures Accounted(u, l.(reasons := l.reasons + [MalformedStructure], malformed := l.malformed + 1), messages + 2)
  {
    CountAppend(l.reasons, MalformedStructure, MalformedStructure);
  }

  /** run: attempts holds the number of messages each provider request carried. */
  class Evaluation {
    const policy: Policy
    const malformedRetries: nat
    const plan: nat -> Step
    var attempts: seq<nat>
    var reasons: seq<Reason>
    var retries: nat
    var malformed: nat
    var inTotal: Option<nat>
    var outTotal: Option<nat>
    ghost var answers: seq<Answer>
    ghost var waits: seq<(nat, nat)>

    constructor (policy: Policy, malformedRetries: nat, plan: nat -> Step)
      ensures this.policy == policy && this.malformedRetries == malformedRetries && this.plan == plan
      ensures attempts == [] && reasons == [] && retries == 0 && malformed == 0 && answers == [] && waits == [] && Totals()
    {
      this.policy, this.malformedRetries, this.plan := policy, malformedRetries, plan;
      attempts, reasons, retries, malformed, inTotal, outTotal := [], [], 0, 0, Some(0), Some(0);
      answers, waits := [], [];
    }

    /** What is settled when the evaluation begins. */
    function Begun(): Setup {
      Setup(policy, malformedRetries, plan)
    }

    /** What is recorded now. */
    ghost function Recorded(): Ledger
      reads this
    {
      Ledger(attempts, reasons, retries, malformed, answers, waits)
    }

    /** The totals count every result so far. */
    ghost predicate Totals()
      reads this
    {
      inTotal == Total(Inputs(answers)) && outTotal == Total(Outputs(answers))
    }

    /** record: a result's counts join the totals. */
    method Record(a: Answer)
      requires Totals()
      modifies this`inTotal, this`outTotal, this`answers
      ensures Totals() && answers == old(answers) + [a]
    {
      inTotal := AddCount(inTotal, a.input);
      outTotal := AddCount(outTotal, a.output);
      TotalAppend(Inputs(answers), a.input);
      TotalAppend(Outputs(answers), a.output);
      answers := answers + [a];
      assert Inputs(answers) == Inputs(old(answers)) + [a.input];
      assert Outputs(answers) == Outputs(old(answers)) + [a.output];
    }

    /** What runWithRetries has added: started attempts, and a reason for each of retried granted waits. */
    ghost predicate Retried(attempts0: seq<nat>, reasons0: seq<Reason>, waits0: seq<(nat, nat)>, messages: nat, started: nat, retried: nat)
      reads this
    {
      && attempts == attempts0 + seq(started, _ => messages)
      && reasons == reasons0 + seq(retried, _ => ProviderError)
      && |waits| == |waits0| + retried && waits0 <= waits
      && forall i :: |waits0| <= i < |waits| ==> Granted(policy, waits[i])
    }

    /**
      runWithRetries: one attempt, and another after each failure that the
      policy retries, while retries are left, the budget grants the wait and
      the context lives. n retries make n + 1 attempts and n reasons; a wait
      the context did not survive leaves one reason more.
    */
    method RunWithRetries(messages: nat) returns (answer: Option<Answer>, n: nat, err: Option<RunError>, ghost started: nat, ghost retried: nat)
      modifies this`attempts, this`reasons, this`waits
      ensures Recorded() == AfterRound(old(Recorded()), messages, None, 0, started, retried, waits)
      ensures |waits| == |old(waits)| + retried && old(waits) <= waits
      ensures forall i :: |old(waits)| <= i < |waits| ==> Granted(policy, waits[i])
      ensures RoundEnds(Begun(), |old(attempts)|, answer, n, err, started, retried)
    {
      answer, n := None, 0;
      started, retried := 0, 0;
      if !policy.valid {
        return None, 0, Some(BadPolicy), 0, 0;
      }
      if plan(|attempts|).doneBefore {
        return None, 0, Some(ContextDone), 0, 0;
      }
      while true
        invariant n <= policy.maxRetries
        invariant Retried(old(attempts), old(reasons), old(waits), messages, n, n)
        invariant forall i :: |old(attempts)| <= i < |old(attempts)| + n ==> Retryable(policy, plan(i))
        invariant |attempts| == |old(attempts)| + n
        decreases policy.maxRetries - n
      {
        var step := plan(|attempts|);
        attempts := attempts + [messages];
        started, retried := n + 1, n;
        match step.outcome {
          case Answered(a) => return Some(a), n, None, started, retried;
          case Failed(retryable) =>
            if step.doneAfter {
              return None, n, Some(ContextDone), started, retried;
            }
            if !retryable {
              return None, n, Some(NotRetryable), started, retried;
            }
            if n >= policy.maxRetries {
              return None, n, Some(RetriesSpent), started, retried;
            }
            if policy.budget.Some? && step.delay >= policy.budget.value - step.elapsed {
              return None, n, Some(BudgetSpent), started, retried;
            }
            reasons := reasons + [ProviderError];
            waits := waits + [(step.elapsed, step.delay)];
            retried := n + 1;
            if !step.waits {
              return None, n, Some(ContextDone), started, retried;
            }
            n := n + 1;
        }
      }
    }

    /** One corrective attempt's request, under the retry policy: every attempt of it carries the same messages. */
    method Request(messages: nat) returns (answer: Option<Answer>, err: Option<RunError>)
      requires Totals() && Accounted(Begun(), Recorded(), messages)
      modifies this
      ensures answer.Some? <==> err.None?
      ensures Totals() && Settled(Begun(), Recorded(), err, messages) && malformed == old(malformed)
      ensures answer.Some? ==> AnsweredLast(Begun(), Recorded(), answer.value)
      ensures answers == old(answers) + if answer.Some? then [answer.value] else []
      ensures err != Some(InvalidOutput) && err != Some(MalformedOutput)
      ensures old(attempts) <= attempts && forall i :: |old(attempts)| <= i < |attempts| ==> attempts[i] == messages
    {
      ghost var before := Recorded();
      var n;
      ghost var started, retried;
      answer, n, err, started, retried := RunWithRetries(messages);
      retries := retries + n;
      if answer.Some? {
        Record(answer.value);
      }
      RoundSettles(Begun(), before, messages, answer, n, err, started, retried, Recorded());
    }

    /** A corrective retry is recorded. */
    method CountMalformed(messages: nat, ghost answer: Answer)
      requires Totals() && Settled(Begun(), Recorded(), None, messages) && malformed < malformedRetries
      requires AnsweredLast(Begun(), Recorded(), answer) && answer.verdict.Malformed?
      modifies this`reasons, this`malformed
      ensures Totals() && Accounted(Begun(), Recorded(), messages + 2) && malformed == old(malformed) + 1
      ensures Recorded() == old(Recorded()).(reasons := reasons, malformed := malformed)
    {
      MalformedAccounts(Begun(), Recorded(), messages, answer);
      reasons := reasons + [MalformedStructure];
      malformed := malformed + 1;
    }

    /** decode: one request after another, until an output is valid or the corrective retries are spent. */
    method Decode() returns (valid: bool, err: Option<RunError>, messages: nat)
      requires attempts == [] && reasons == [] && retries == 0 && malformed == 0 && answers == [] && waits == [] && Totals()
      modifies this
      ensures valid <==> err.None?
      ensures Totals() && Evaluated(Begun(), Recorded(), err, messages)
    {
      messages := 2;
      while true
        invariant Totals() && Accounted(Begun(), Recorded(), messages) && AllMalformed(Recorded())
        decreases malformedRetries - malformed
      {
        ghost var before := Recorded();
        var answer;
        answer, err := Request(messages);
        Ends(Begun(), before, Recorded(), answer, err, messages);
        if err.Some? {
          return false, err, messages;
        }
        match answer.value.verdict {
          case Valid => return true, None, messages;
          case Broken => return false, Some(InvalidOutput), messages;
          case Malformed =>
        }
        if malformed >= malformedRetries {
          return false, Some(MalformedOutput), messages;
        }
        CountMalformed(messages, answer.value);
        messages := messages + 2;
      }
    }
  }

  /** One corrective attempt more has room for its retries. */
  lemma Product(k: nat, n: nat, most: nat)
    requires k <= n
    ensures k * most + most == (k + 1) * most <= (n + 1) * most
  {
  }

  lemma {:induction false} OnlyProvider(reasons: seq<Reason>, n: nat)
    ensures CountOf(reasons + seq(n, _ => ProviderError), MalformedStructure) == CountOf(reasons, MalformedStructure)
  {
    var all := reasons + seq(n, _ => ProviderError);
    if n == 0 {
      assert all == reasons;
    } else {
      OnlyProvider(reasons, n - 1);
      assert all[..|all| - 1] == reasons + seq(n - 1, _ => ProviderError);
    }
  }
}
