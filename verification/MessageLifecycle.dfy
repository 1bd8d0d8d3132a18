/**
 The life of one WhatsApp message log, driven by send, poll, webhook and manual-retry steps.
 Times are seconds.
 */
module MessageLifecycle {
  import opened Options

  datatype Status = Queued | Submitted | Sent | Delivered | Read | Failed | Skipped

  datatype LogState = LogState(
    status: Status, attempts: nat, nextAttemptAt: Option<int>, providerRef: Option<string>,
    submittedAt: Option<int>, sentAt: Option<int>, deliveredAt: Option<int>, readAt: Option<int>, failedAt: Option<int>)

  const RETRY_BACKOFF_MINUTES := [1, 5, 15]

  /** What the provider adapter answers to one send. */
  datatype SendResult =
    SendResult(accepted: bool, duplicate: bool, authError: bool, retryable: bool, ref: Option<string>)

  /** How a send of a queued log goes: stopped by a check before the call, stopped by an
      unreadable token, or answered by the provider. */
  datatype Attempt = Blocked | BadCredentials | Answered(result: SendResult)

  datatype PollAnswer = PollSent | PollFailed | PollOther

  /** A status named by a webhook; `None` is a name the service does not know. */
  type Reported = Option<Status>

  datatype Event =
    | Send(now: int, attempt: Attempt)
    | Poll(now: int, answer: PollAnswer)
    | Webhook(at: int, reported: Reported)
    | Retry

  /** Position in the delivery order; failed and skipped are not in it. */
  predicate Ordered(s: Status) { s != Failed && s != Skipped }

  function Order(s: Status): nat
    requires Ordered(s)
  {
    match s case Queued => 0 case Submitted => 1 case Sent => 2 case Delivered => 3 case Read => 4
  }

  // ----- the steps, as functions of the log -----

  function Failing(s: LogState, now: int): LogState {
    s.(status := Failed, failedAt := Some(now), nextAttemptAt := None)
  }

  function AfterAnswer(s: LogState, r: SendResult, now: int): LogState {
    var t := s.(attempts := s.attempts + 1);
    if r.accepted then t.(status := Submitted, providerRef := r.ref, submittedAt := Some(now), nextAttemptAt := None)
    else if r.duplicate then t.(status := Skipped, providerRef := r.ref)
    else if r.authError then Failing(t, now)
    else if r.retryable && t.attempts <= |RETRY_BACKOFF_MINUTES| then
      t.(status := Queued, nextAttemptAt := Some(now + 60 * RETRY_BACKOFF_MINUTES[t.attempts - 1]))
    else Failing(t, now)
  }

  function AfterSend(s: LogState, attempt: Attempt, now: int): LogState {
    if s.status != Queued then s
    else match attempt
      case Blocked => s.(status := Skipped)
      case BadCredentials => Failing(s.(attempts := s.attempts + 1), now)
      case Answered(r) => AfterAnswer(s, r, now)
  }

  /** The poll only asks about submitted logs with a provider reference, between two minutes
      and three days old. */
  predicate Pollable(s: LogState, now: int) {
    s.status == Submitted && s.providerRef.Some? && s.submittedAt.Some? &&
    now - 259200 <= s.submittedAt.value <= now - 120
  }

  function AfterPoll(s: LogState, answer: PollAnswer, now: int): LogState {
    if !Pollable(s, now) then s
    else match answer
      case PollSent => s.(status := Sent, sentAt := Some(s.sentAt.GetOr(now)))
      case PollFailed => Failing(s, now)
      case PollOther => s
  }

  function AfterReport(s: LogState, reported: Reported, at: int): LogState {
    if reported == Some(Failed) then
      if s.status in {Delivered, Read, Failed, Skipped} then s else Failing(s, at)
    else if reported.None? || !Ordered(reported.value) || !Ordered(s.status) then s
    else if Order(reported.value) <= Order(s.status) then s
    else
      var n := reported.value;
      s.(status := n,
         sentAt := if n in {Sent, Delivered, Read} then Some(s.sentAt.GetOr(at)) else s.sentAt,
         deliveredAt := if n in {Delivered, Read} then Some(s.deliveredAt.GetOr(at)) else s.deliveredAt,
         readAt := if n == Read then Some(at) else s.readAt)
  }

  /** An admin's retry of a failed log. */
  function AfterRetry(s: LogState): LogState {
    if s.status != Failed then s else s.(status := Queued, failedAt := None, nextAttemptAt := None)
  }

  function After(s: LogState, e: Event): LogState {
    match e
    case Send(now, attempt) => AfterSend(s, attempt, now)
    case Poll(now, answer) => AfterPoll(s, answer, now)
    case Webhook(at, reported) => AfterReport(s, reported, at)
    case Retry => AfterRetry(s)
  }

  // ----- the log row the service updates in place -----

  class MessageLog {
    var status: Status
    var attempts: nat
    var nextAttemptAt: Option<int>
    var providerRef: Option<string>
    var submittedAt: Option<int>
    var sentAt: Option<int>
    var deliveredAt: Option<int>
    var readAt: Option<int>
    var failedAt: Option<int>

    function State(): LogState
      reads this
    {
      LogState(status, attempts, nextAttemptAt, providerRef, submittedAt, sentAt, deliveredAt, readAt, failedAt)
    }

    constructor ()
      ensures State() == Fresh
    {
      status, attempts, nextAttemptAt, providerRef := Queued, 0, None, None;
      submittedAt, sentAt, deliveredAt, readAt, failedAt := None, None, None, None, None;
    }

    method Fail(now: int)
      modifies this
      ensures State() == Failing(old(State()), now)
    {
      status := Failed;
      failedAt := Some(now);
      nextAttemptAt := None;
    }

    method SendLog(attempt: Attempt, now: int)
      modifies this
      ensures State() == AfterSend(old(State()), attempt, now)
    {
      if status != Queued {
        return;
      }
      match attempt
      case Blocked =>
        status := Skipped;
      case BadCredentials =>
        attempts := attempts + 1;
        Fail(now);
      case Answered(result) =>
        attempts := attempts + 1;
        if result.accepted {
          status := Submitted;
          providerRef := result.ref;
          submittedAt := Some(now);
          nextAttemptAt := None;
        } else if result.duplicate {
          status := Skipped;
          providerRef := result.ref;
        } else if result.authError {
          Fail(now);
        } else if result.retryable && attempts <= |RETRY_BACKOFF_MINUTES| {
          status := Queued;
          nextAttemptAt := Some(now + 60 * RETRY_BACKOFF_MINUTES[attempts - 1]);
        } else {
          Fail(now);
        }
    }

    method PollBatch(answer: PollAnswer, now: int)
      modifies this
      ensures State() == AfterPoll(old(State()), answer, now)
    {
      if Pollable(State(), now) {
        match answer
        case PollSent =>
          status := Sent;
          sentAt := Some(sentAt.GetOr(now));
        case PollFailed =>
          Fail(now);
        case PollOther =>
      }
    }

    method AdvanceStatus(reported: Reported, at: int) returns (changed: bool)
      modifies this
      ensures State() == AfterReport(old(State()), reported, at)
      ensures changed <==> State().status != old(State()).status
    {
      if reported == Some(Failed) {
        if status in {Delivered, Read, Failed, Skipped} {
          return false;
        }
        Fail(at);
        return true;
      }
      if reported.None? || !Ordered(reported.value) || !Ordered(status) {
        return false;
      }
      var n := reported.value;
      if Order(n) <= Order(status) {
        return false;
      }
      status := n;
      if n in {Sent, Delivered, Read} && sentAt.None? {
        sentAt := Some(at);
      }
      if n in {Delivered, Read} && deliveredAt.None? {
        deliveredAt := Some(at);
      }
      if n == Read {
        readAt := Some(at);
      }
      return true;
    }

    /** Applies a batch of webhook reports for this log; counts the ones that changed it. */
    method ApplyEvents(reports: seq<(int, Reported)>) returns (changed: nat)
      modifies this
      ensures State() == Run(old(State()), AsWebhooks(reports))
      ensures changed == 0 ==> State().status == old(State()).status
    {
      changed := 0;
      assert reports[..0] == [];
      for i := 0 to |reports|
        invariant State() == Run(old(State()), AsWebhooks(reports[..i]))
        invariant changed == 0 ==> State().status == old(State()).status
      {
        var ok := AdvanceStatus(reports[i].1, reports[i].0);
        assert AsWebhooks(reports[..i + 1]) == AsWebhooks(reports[..i]) + [Webhook(reports[i].0, reports[i].1)];
        RunAppend(old(State()), AsWebhooks(reports[..i]), Webhook(reports[i].0, reports[i].1));
        if ok {
          changed := changed + 1;
        }
      }
      assert reports[..|reports|] == reports;
    }

    method RetryFailed() returns (ok: bool)
      modifies this
      ensures ok <==> old(status) == Failed
      ensures State() == AfterRetry(old(State()))
    {
      if status != Failed {
        return false;
      }
      status, failedAt, nextAttemptAt := Queued, None, None;
      return true;
    }
  }

  function AsWebhooks(reports: seq<(int, Reported)>): seq<Event> {
    seq(|reports|, i requires 0 <= i < |reports| => Webhook(reports[i].0, reports[i].1))
  }

  // ----- whole runs -----

  const Fresh := LogState(Queued, 0, None, None, None, None, None, None, None)

  function Run(s: LogState, events: seq<Event>): LogState
    decreases |events|
  {
    if events == [] then s else Run(After(s, events[0]), events[1..])
  }

  lemma {:induction false} RunAppend(s: LogState, events: seq<Event>, e: Event)
    ensures Run(s, events + [e]) == After(Run(s, events), e)
    decreases |events|
  {
    if events != [] {
      assert (events + [e])[1..] == events[1..] + [e];
      RunAppend(After(s, events[0]), events[1..], e);
    } else {
      assert (events + [e])[1..] == [];
    }
  }

  lemma {:induction false} RunConcat(s: LogState, a: seq<Event>, b: seq<Event>)
    ensures Run(s, a + b) == Run(Run(s, a), b)
    decreases |a|
  {
    if a == [] {
      assert a + b == b;
    } else {
      assert (a + b)[1..] == a[1..] + b;
      RunConcat(After(s, a[0]), a[1..], b);
    }
  }

  function Retries(events: seq<Event>): nat {
    if events == [] then 0 else (if events[0].Retry? then 1 else 0) + Retries(events[1..])
  }

  /** How often a run really calls the provider. */
  function ProviderCalls(s: LogState, events: seq<Event>): nat
    decreases |events|
  {
    if events == [] then 0
    else (if events[0].Send? && events[0].attempt.Answered? && s.status == Queued then 1 else 0)
         + ProviderCalls(After(s, events[0]), events[1..])
  }

  /** Four attempts at most, three while still queued, and one more of each for every manual retry. */
  ghost predicate AttemptsBounded(s: LogState, retries: nat) {
    s.attempts <= 4 + retries && (s.status == Queued ==> s.attempts <= 3 + retries)
  }

  /** In every run of a fresh log the automatic retries stop: at most four provider calls,
      plus one for each time an admin retries the message. */
  lemma ProviderCallsBounded(events: seq<Event>)
    ensures AttemptsBounded(Run(Fresh, events), Retries(events))
    ensures ProviderCalls(Fresh, events) <= Run(Fresh, events).attempts <= 4 + Retries(events)
  {
    CallsWithinAttempts(Fresh, events, 0);
  }

  lemma {:induction false} CallsWithinAttempts(s: LogState, events: seq<Event>, retries: nat)
    requires AttemptsBounded(s, retries)
    ensures AttemptsBounded(Run(s, events), retries + Retries(events))
    ensures s.attempts + ProviderCalls(s, events) <= Run(s, events).attempts
    decreases |events|
  {
    if events != [] {
      CallsWithinAttempts(After(s, events[0]), events[1..], retries + if events[0].Retry? then 1 else 0);
    }
  }

  /** Which timestamps a log of each status carries, and which it cannot carry yet. The time of
      submission is treated apart below. */
  ghost predicate Stamped(s: LogState) {
    && (s.status == Queued ==> s.submittedAt.None? && s.sentAt.None? && s.deliveredAt.None?)
    && (s.status in {Submitted, Queued} ==> s.sentAt.None? && s.deliveredAt.None?)
    && (s.status in {Sent, Delivered, Read} ==> s.sentAt.Some?)
    && (s.status in {Delivered, Read} ==> s.deliveredAt.Some?)
    && (s.status == Sent ==> s.deliveredAt.None?)
    && (s.readAt.Some? <==> s.status == Read)
    && (s.failedAt.Some? <==> s.status == Failed)
    && (s.status == Failed ==> s.nextAttemptAt.None?)
  }

  /** Progress of a log: the delivery order, with the two dead ends last. */
  function Progress(s: LogState): nat {
    if Ordered(s.status) then Order(s.status) else 5
  }

  ghost predicate Keeps<T>(before: Option<T>, after: Option<T>) {
    before.Some? ==> after == before
  }

  /** One step of an unretried log: it never moves back, final states do not change at all,
      and a timestamp once set keeps its value. */
  ghost predicate MovesForward(s: LogState, t: LogState) {
    && Progress(s) <= Progress(t)
    && (s.status in {Read, Failed, Skipped} ==> t == s)
    && Keeps(s.submittedAt, t.submittedAt) && Keeps(s.sentAt, t.sentAt) && Keeps(s.deliveredAt, t.deliveredAt)
    && Keeps(s.readAt, t.readAt) && Keeps(s.failedAt, t.failedAt)
    && (s.status != Queued ==> t.status != Queued && t.attempts == s.attempts)
  }

  lemma StepMovesForward(s: LogState, e: Event)
    requires Stamped(s) && !e.Retry?
    ensures Stamped(After(s, e)) && MovesForward(s, After(s, e))
  {
  }

  /** Between any two moments of a run without manual retries the log only moves forward. */
  lemma {:induction false} RunMovesForward(s: LogState, events: seq<Event>)
    requires Stamped(s) && Retries(events) == 0
    ensures Stamped(Run(s, events)) && MovesForward(s, Run(s, events))
    decreases |events|
  {
    if events != [] {
      StepMovesForward(s, events[0]);
      RunMovesForward(After(s, events[0]), events[1..]);
    }
  }

  lemma {:induction false} RetriesConcat(a: seq<Event>, b: seq<Event>)
    ensures Retries(a + b) == Retries(a) + Retries(b)
  {
    if a == [] {
      assert a + b == b;
    } else {
      assert (a + b)[1..] == a[1..] + b;
      RetriesConcat(a[1..], b);
    }
  }

  /** Every prefix of a fresh log's run is stamped as its status says, and everything later
      moves forward from it. */
  lemma LifecycleTheorem(events: seq<Event>, n: nat)
    requires n <= |events| && Retries(events) == 0
    ensures Stamped(Run(Fresh, events[..n]))
    ensures MovesForward(Run(Fresh, events[..n]), Run(Fresh, events))
  {
    assert events[..n] + events[n..] == events;
    RetriesConcat(events[..n], events[n..]);
    RunMovesForward(Fresh, events[..n]);
    RunConcat(Fresh, events[..n], events[n..]);
    RunMovesForward(Run(Fresh, events[..n]), events[n..]);
  }

  // ----- the submitted time -----

  /** The one status whose timestamp its code need not have set. */
  ghost predicate SubmissionStamped(s: LogState) {
    s.status == Submitted ==> s.submittedAt.Some?
  }

  /** A report naming `submitted` that reaches a queued log no provider has accepted. */
  predicate NamesSubmittedEarly(s: LogState, e: Event) {
    e.Webhook? && e.reported == Some(Submitted) && s.status == Queued && s.submittedAt.None?
  }

  /** Such a report, and nothing else, makes a log submitted without a submitted time. */
  lemma StepStampsSubmissionExactly(s: LogState, e: Event)
    requires SubmissionStamped(s)
    ensures SubmissionStamped(After(s, e)) <==> !NamesSubmittedEarly(s, e)
  {
  }

  ghost predicate AlwaysSubmissionStamped(s: LogState, events: seq<Event>)
    decreases |events|
  {
    SubmissionStamped(s) && (events != [] ==> AlwaysSubmissionStamped(After(s, events[0]), events[1..]))
  }

  predicate EverNamedEarly(s: LogState, events: seq<Event>)
    decreases |events|
  {
    events != [] && (NamesSubmittedEarly(s, events[0]) || EverNamedEarly(After(s, events[0]), events[1..]))
  }

  /** Every submitted log of a run carries its time if and only if no report ever named
      `submitted` for a queued log that no provider had accepted. */
  lemma {:induction false} SubmissionsStampedExactly(s: LogState, events: seq<Event>)
    requires SubmissionStamped(s)
    ensures AlwaysSubmissionStamped(s, events) <==> !EverNamedEarly(s, events)
    decreases |events|
  {
    if events != [] {
      StepStampsSubmissionExactly(s, events[0]);
      if SubmissionStamped(After(s, events[0])) {
        SubmissionsStampedExactly(After(s, events[0]), events[1..]);
      }
    }
  }

  /** A provider's answer accepted the log at some point of the run. */
  predicate EverAccepted(s: LogState, events: seq<Event>)
    decreases |events|
  {
    events != [] &&
    ((events[0].Send? && s.status == Queued && events[0].attempt.Answered? && events[0].attempt.result.accepted)
     || EverAccepted(After(s, events[0]), events[1..]))
  }

  /** In every run, manual retries included, the log carries a submitted time if and only if a
      provider accepted it. */
  lemma {:induction false} SubmittedAtExactly(s: LogState, events: seq<Event>)
    ensures Run(s, events).submittedAt.Some? <==> s.submittedAt.Some? || EverAccepted(s, events)
    decreases |events|
  {
    if events != [] {
      SubmittedAtExactly(After(s, events[0]), events[1..]);
    }
  }

  /** One report is enough: the log is then submitted without time or reference, and no poll
      ever asks about it. */
  lemma ReportSubmitsUnstamped()
    ensures var s := Run(Fresh, [Webhook(5, Some(Submitted))]);
            s.status == Submitted && s.submittedAt.None? && s.providerRef.None? && forall now :: !Pollable(s, now)
  {
    var e := Webhook(5, Some(Submitted));
    assert Run(Fresh, [e]) == Run(After(Fresh, e), [e][1..]);
  }

  /** A retryable refusal of a log sent `k` times before is retried after 1, 5, then 15
      minutes, and the fourth refusal is final. */
  lemma BackoffSchedule(s: LogState, r: SendResult, now: int)
    requires s.status == Queued && r.retryable && !r.accepted && !r.duplicate && !r.authError
    ensures s.attempts == 0 ==> AfterAnswer(s, r, now).nextAttemptAt == Some(now + 60)
    ensures s.attempts == 1 ==> AfterAnswer(s, r, now).nextAttemptAt == Some(now + 300)
    ensures s.attempts == 2 ==> AfterAnswer(s, r, now).nextAttemptAt == Some(now + 900)
    ensures AfterAnswer(s, r, now).status == Queued <==> s.attempts <= 2
    ensures s.attempts >= 3 ==> AfterAnswer(s, r, now).status == Failed && AfterAnswer(s, r, now).failedAt == Some(now)
  {
  }

  /** A log leaves `queued` with its retry time still set exactly when a check, a duplicate
      answer or a webhook moved it on; acceptance and failure clear it. */
  lemma RetryTimeLeftBehind(s: LogState, e: Event)
    requires Stamped(s) && s.status == Queued && s.nextAttemptAt.Some? && After(s, e).status != Queued
    ensures After(s, e).nextAttemptAt.Some? <==>
            (e.Send? && e.attempt.Blocked?)
            || (e.Send? && e.attempt.Answered? && !e.attempt.result.accepted && e.attempt.result.duplicate)
            || (e.Webhook? && e.reported != Some(Failed))
  {
  }

  // ----- which event leads where -----

  /** The log waits for news of its batch: submitted with a reference between two minutes and
      three days ago. */
  predicate AwaitsNews(s: LogState, now: int) {
    && s.status == Submitted && s.providerRef.Some? && s.submittedAt.Some?
    && 120 <= now - s.submittedAt.value <= 259200
  }

  /** An event that fails a log in this state: a token that cannot be read; a refusal that is no
      duplicate and is an authorisation error, not retryable, or the fourth; a poll that answers
      "failed" while news is awaited; or a report of failure before delivery. */
  predicate FailsLog(s: LogState, e: Event) {
    match e
    case Send(_, attempt) =>
      && s.status == Queued
      && (attempt.BadCredentials?
          || (attempt.Answered? && !attempt.result.accepted && !attempt.result.duplicate
              && (attempt.result.authError || !attempt.result.retryable || s.attempts >= 3)))
    case Poll(now, answer) => AwaitsNews(s, now) && answer == PollFailed
    case Webhook(_, reported) => reported == Some(Failed) && s.status in {Queued, Submitted, Sent}
    case Retry => false
  }

  predicate EverFails(s: LogState, events: seq<Event>)
    decreases |events|
  {
    events != [] && (FailsLog(s, events[0]) || EverFails(After(s, events[0]), events[1..]))
  }

  /** A log that is never retried by hand ends failed if and only if such an event occurred. */
  lemma {:induction false} FailedExactly(s: LogState, events: seq<Event>)
    requires s.status != Failed && Retries(events) == 0
    ensures Run(s, events).status == Failed <==> EverFails(s, events)
    decreases |events|
  {
    if events != [] {
      var t := After(s, events[0]);
      assert t.status == Failed <==> FailsLog(s, events[0]);
      if t.status == Failed {
        FailedStays(t, events[1..]);
      } else {
        FailedExactly(t, events[1..]);
      }
    }
  }

  lemma {:induction false} FailedStays(s: LogState, events: seq<Event>)
    requires s.status == Failed && Retries(events) == 0
    ensures Run(s, events) == s
    decreases |events|
  {
    if events != [] {
      FailedStays(After(s, events[0]), events[1..]);
    }
  }

  /** A check that stops the send, or the provider's answer that it has the message already. */
  predicate SkipsLog(s: LogState, e: Event) {
    e.Send? && s.status == Queued
    && (e.attempt.Blocked?
        || (e.attempt.Answered? && !e.attempt.result.accepted && e.attempt.result.duplicate))
  }

  predicate EverSkips(s: LogState, events: seq<Event>)
    decreases |events|
  {
    events != [] && (SkipsLog(s, events[0]) || EverSkips(After(s, events[0]), events[1..]))
  }

  /** A log ends skipped if and only if such a send occurred, manual retries or not. */
  lemma {:induction false} SkippedExactly(s: LogState, events: seq<Event>)
    requires s.status != Skipped
    ensures Run(s, events).status == Skipped <==> EverSkips(s, events)
    decreases |events|
  {
    if events != [] {
      var t := After(s, events[0]);
      assert t.status == Skipped <==> SkipsLog(s, events[0]);
      if t.status == Skipped {
        SkippedStays(t, events[1..]);
      } else {
        SkippedExactly(t, events[1..]);
      }
    }
  }

  lemma {:induction false} SkippedStays(s: LogState, events: seq<Event>)
    requires s.status == Skipped
    ensures Run(s, events) == s
    decreases |events|
  {
    if events != [] {
      SkippedStays(After(s, events[0]), events[1..]);
    }
  }

  /** A poll answered "sent" while news is awaited makes the log sent, at the time a report gave
      before or else now; any other poll that does not fail it changes nothing. */
  lemma PollMeans(s: LogState, now: int, answer: PollAnswer)
    ensures AwaitsNews(s, now) && answer == PollSent ==>
              After(s, Poll(now, answer)) ==
              s.(status := Sent, sentAt := if s.sentAt.Some? then s.sentAt else Some(now))
    ensures AwaitsNews(s, now) && answer == PollFailed ==>
              After(s, Poll(now, answer)) == s.(status := Failed, failedAt := Some(now), nextAttemptAt := None)
    ensures !AwaitsNews(s, now) || answer == PollOther ==> After(s, Poll(now, answer)) == s
  {
  }

  /** A queued log whose send the provider accepts is submitted now under the provider's
      reference, one attempt further; one the provider has already keeps its reference. */
  lemma AcceptanceMeans(s: LogState, now: int, r: SendResult)
    requires s.status == Queued
    ensures r.accepted ==>
              After(s, Send(now, Answered(r))) ==
              s.(status := Submitted, attempts := s.attempts + 1, providerRef := r.ref, submittedAt := Some(now),
                 nextAttemptAt := None)
    ensures !r.accepted && r.duplicate ==>
              After(s, Send(now, Answered(r))) ==
              s.(status := Skipped, attempts := s.attempts + 1, providerRef := r.ref)
    ensures After(s, Send(now, Blocked)) == s.(status := Skipped)
  {
  }

  /** A retried log can be sent like a fresh one: its failure and retry times are gone, and what
      it was sent, and how often, is kept. */
  lemma RetryMeans(s: LogState)
    requires s.status == Failed
    ensures After(s, Retry) == s.(status := Queued, failedAt := None, nextAttemptAt := None)
    ensures forall t: LogState :: t.status != Failed ==> After(t, Retry) == t
  {
  }

  /** The sends that got as far as the provider's token: of a queued log, not stopped by a check. */
  function Tries(s: LogState, events: seq<Event>): nat
    decreases |events|
  {
    if events == [] then 0
    else (if events[0].Send? && s.status == Queued && !events[0].attempt.Blocked? then 1 else 0)
         + Tries(After(s, events[0]), events[1..])
  }

  /** Attempts count exactly those, over manual retries too. */
  lemma {:induction false} AttemptsExactly(s: LogState, events: seq<Event>)
    ensures Run(s, events).attempts == s.attempts + Tries(s, events)
    decreases |events|
  {
    if events != [] {
      AttemptsExactly(After(s, events[0]), events[1..]);
    }
  }

  function TimeOf(e: Event): Option<int> {
    match e
    case Send(now, _) => Some(now)
    case Poll(now, _) => Some(now)
    case Webhook(at, _) => Some(at)
    case Retry => None
  }

  /** The time is that of an event of the kind. */
  ghost predicate At(events: seq<Event>, kinds: Event -> bool, time: Option<int>) {
    time.Some? ==> exists e :: e in events && kinds(e) && TimeOf(e) == time
  }

  function BySend(): Event -> bool { (e: Event) => e.Send? }
  function ByNews(): Event -> bool { (e: Event) => e.Poll? || e.Webhook? }
  function ByReport(): Event -> bool { (e: Event) => e.Webhook? }
  function ByAny(): Event -> bool { (e: Event) => true }

  ghost predicate TimesFrom(s: LogState, events: seq<Event>) {
    && At(events, BySend(), s.submittedAt) && At(events, ByNews(), s.sentAt)
    && At(events, ByReport(), s.deliveredAt) && At(events, ByReport(), s.readAt) && At(events, ByAny(), s.failedAt)
  }

  /** The event leaves the time, clears it, or sets it to its own. */
  predicate Sets(e: Event, kinds: Event -> bool, before: Option<int>, after: Option<int>) {
    after == before || after.None? || (kinds(e) && TimeOf(e) == after)
  }

  lemma AtLater(events: seq<Event>, e: Event, kinds: Event -> bool, before: Option<int>, after: Option<int>)
    requires At(events, kinds, before) && Sets(e, kinds, before, after)
    ensures At(events + [e], kinds, after)
  {
    if after.Some? {
      if after == before {
        var x :| x in events && kinds(x) && TimeOf(x) == after;
        assert x in events + [e];
      } else {
        assert (events + [e])[|events|] == e;
        assert e in events + [e];
      }
    }
  }

  /** Every timestamp of a log is the time of an event of its run that can set it: submission by
      a send, sending by a poll or report, delivery and reading by reports. */
  lemma {:induction false} TimesAreEventTimes(events: seq<Event>)
    ensures TimesFrom(Run(Fresh, events), events)
  {
    if events != [] {
      var n := |events| - 1;
      var head, e := events[..n], events[n];
      assert head + [e] == events;
      TimesAreEventTimes(head);
      RunAppend(Fresh, head, e);
      TimesStep(Run(Fresh, head), head, e);
    }
  }

  lemma StepSets(s: LogState, e: Event)
    ensures var t := After(s, e);
            && Sets(e, BySend(), s.submittedAt, t.submittedAt) && Sets(e, ByNews(), s.sentAt, t.sentAt)
            && Sets(e, ByReport(), s.deliveredAt, t.deliveredAt) && Sets(e, ByReport(), s.readAt, t.readAt)
            && Sets(e, ByAny(), s.failedAt, t.failedAt)
  {
  }

  lemma TimesStep(s: LogState, events: seq<Event>, e: Event)
    requires TimesFrom(s, events)
    ensures TimesFrom(After(s, e), events + [e])
  {
    var t := After(s, e);
    StepSets(s, e);
    AtLater(events, e, BySend(), s.submittedAt, t.submittedAt);
    AtLater(events, e, ByNews(), s.sentAt, t.sentAt);
    AtLater(events, e, ByReport(), s.deliveredAt, t.deliveredAt);
    AtLater(events, e, ByReport(), s.readAt, t.readAt);
    AtLater(events, e, ByAny(), s.failedAt, t.failedAt);
  }

  // ----- webhook order does not matter -----

  function Max(a: nat, b: nat): nat { if a >= b then a else b }

  function MaxOrder(start: nat, reports: seq<(int, Status)>): nat
    requires forall r :: r in reports ==> Ordered(r.1)
    decreases |reports|
  {
    if reports == [] then start else MaxOrder(Max(start, Order(reports[0].1)), reports[1..])
  }

  function Reports(reports: seq<(int, Status)>): seq<(int, Reported)> {
    seq(|reports|, i requires 0 <= i < |reports| => (reports[i].0, Some(reports[i].1)))
  }

  /** Delivery reports leave the log at the highest status among its own and theirs. */
  lemma {:induction false} ReportsReachTheMaximum(s: LogState, reports: seq<(int, Status)>)
    requires Ordered(s.status) && forall r :: r in reports ==> Ordered(r.1)
    ensures Ordered(Run(s, AsWebhooks(Reports(reports))).status)
    ensures Order(Run(s, AsWebhooks(Reports(reports))).status) == MaxOrder(Order(s.status), reports)
    decreases |reports|
  {
    if reports != [] {
      var t := AfterReport(s, Some(reports[0].1), reports[0].0);
      assert Order(t.status) == Max(Order(s.status), Order(reports[0].1));
      assert AsWebhooks(Reports(reports))[1..] == AsWebhooks(Reports(reports[1..]));
      ReportsReachTheMaximum(t, reports[1..]);
    }
  }

  lemma {:induction false} MaxOrderIsLeast(start: nat, reports: seq<(int, Status)>)
    requires forall r :: r in reports ==> Ordered(r.1)
    ensures start <= MaxOrder(start, reports)
    ensures forall r :: r in reports ==> Order(r.1) <= MaxOrder(start, reports)
    ensures MaxOrder(start, reports) == start || exists r :: r in reports && Order(r.1) == MaxOrder(start, reports)
    decreases |reports|
  {
    if reports != [] {
      MaxOrderIsLeast(Max(start, Order(reports[0].1)), reports[1..]);
      forall r | r in reports ensures Order(r.1) <= MaxOrder(start, reports) {
        if r != reports[0] { assert r in reports[1..]; }
      }
    }
  }

  ghost predicate Names(reports: seq<(int, Status)>, st: Status) {
    exists r :: r in reports && r.1 == st
  }

  /** Two batches naming the same statuses, in any order and any number of times, leave the
      same status. */
  lemma WebhookOrderIrrelevant(s: LogState, a: seq<(int, Status)>, b: seq<(int, Status)>)
    requires Ordered(s.status)
    requires forall r :: r in a ==> Ordered(r.1)
    requires forall r :: r in b ==> Ordered(r.1)
    requires forall st :: Names(a, st) <==> Names(b, st)
    ensures Run(s, AsWebhooks(Reports(a))).status == Run(s, AsWebhooks(Reports(b))).status
  {
    ReportsReachTheMaximum(s, a);
    ReportsReachTheMaximum(s, b);
    MaxNotAbove(Order(s.status), a, b);
    MaxNotAbove(Order(s.status), b, a);
  }

  lemma MaxNotAbove(start: nat, a: seq<(int, Status)>, b: seq<(int, Status)>)
    requires forall r :: r in a ==> Ordered(r.1)
    requires forall r :: r in b ==> Ordered(r.1)
    requires forall st :: Names(a, st) ==> Names(b, st)
    ensures MaxOrder(start, a) <= MaxOrder(start, b)
  {
    MaxOrderIsLeast(start, a);
    MaxOrderIsLeast(start, b);
    if MaxOrder(start, a) != start {
      var r :| r in a && Order(r.1) == MaxOrder(start, a);
      assert Names(a, r.1);
      var q :| q in b && q.1 == r.1;
    }
  }
}
