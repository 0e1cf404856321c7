/** `log_and_call_openai`: one call to the completion service with bounded retry.
    The service is an oracle: the sequence of outcomes its successive requests get.
    Sleeping is recorded as the list of delays, in seconds. */
module Completion {
  import opened Wrappers
  import opened Strings

  /** What one request yields. `Fail` is any exception raised while calling the
      service or reading its answer (a timeout, an HTTP error, a missing content
      field); `Reply(text)` is the assistant's text. */
  datatype Outcome = Fail | Reply(text: string)

  /** What an enrichment call is for (the `context` label of the call) and the user
      text it sends. The prompt templates themselves are not modelled. */
  datatype Request =
    | GrammarFix(text: string)
    | TitleGeneration(poem: string)
    | TitleTranslation(language: string, title: string)
    | PoemTranslation(language: string, poem: string)
    | Tagging(poem: string, options: seq<string>)

  /** The largest retry counter that still allows one more attempt (`retry_count < 3`). */
  const MaxRetries: nat := 3

  /** The outcome of the `n`-th request; once the oracle is used up, every request fails. */
  function OutcomeAt(replies: seq<Outcome>, n: nat): Outcome {
    if n < |replies| then replies[n] else Fail
  }

  /** The oracle after `k` requests. */
  function Drop(replies: seq<Outcome>, k: nat): seq<Outcome> {
    if k <= |replies| then replies[k..] else []
  }

  /** The "unsatisfactory answer" trigger: `"i'm sorry" in result.lower()`. */
  predicate IsApology(text: string) {
    IsInfix("i'm sorry", Lower(text))
  }

  /** Another attempt follows attempt `n` (whose retry counter is `n`). Both triggers
      share the one counter. */
  predicate Retries(o: Outcome, n: nat) {
    n < MaxRetries && (o.Fail? || IsApology(o.text))
  }

  /** The sleep before the next attempt: `2 * (n + 1)` seconds after a failure, 2 after an apology. */
  function Backoff(o: Outcome, n: nat): nat {
    if o.Fail? then 2 * (n + 1) else 2
  }

  /** The text the last attempt returns (before stripping), or `None` after a failure. */
  function Final(o: Outcome): Option<string> {
    if o.Reply? then Some(o.text) else None
  }

  /** The unstripped text a call returns, the number of requests it made and the
      delays it slept. */
  datatype Trace = Trace(reply: Option<string>, attempts: nat, delays: seq<nat>)

  /** `result.strip()` on the returned text. */
  function Stripped(reply: Option<string>): Option<string> {
    if reply.Some? then Some(Strip(reply.value, Whitespace)) else None
  }

  /** The self-recursive retry of the source, starting from retry counter `n`;
      attempt `n` receives the `n`-th outcome of the oracle. */
  function RetryFrom(replies: seq<Outcome>, n: nat): Trace
    requires n <= MaxRetries
    decreases MaxRetries - n
  {
    var o := OutcomeAt(replies, n);
    if Retries(o, n) then
      var t := RetryFrom(replies, n + 1);
      Trace(t.reply, t.attempts, [Backoff(o, n)] + t.delays)
    else
      Trace(Final(o), n + 1, [])
  }

  /** The whole behaviour of a call from counter `n`: every attempt before the last
      one triggered a retry and slept its backoff; the last did not retry and decides
      the result. At most `MaxRetries + 1` requests are made. */
  lemma {:induction false} RetryShape(replies: seq<Outcome>, n: nat)
    requires n <= MaxRetries
    ensures var t := RetryFrom(replies, n);
      && n + 1 <= t.attempts <= MaxRetries + 1
      && |t.delays| == t.attempts - 1 - n
      && (forall i :: n <= i < t.attempts - 1 ==>
            Retries(OutcomeAt(replies, i), i) && t.delays[i - n] == Backoff(OutcomeAt(replies, i), i))
      && !Retries(OutcomeAt(replies, t.attempts - 1), t.attempts - 1)
      && t.reply == Final(OutcomeAt(replies, t.attempts - 1))
    decreases MaxRetries - n
  {
    var o := OutcomeAt(replies, n);
    if Retries(o, n) {
      RetryShape(replies, n + 1);
    }
  }

  /** A call makes between one and four requests and sleeps once between consecutive ones. */
  lemma AttemptsBounded(replies: seq<Outcome>)
    ensures 1 <= RetryFrom(replies, 0).attempts <= 4
    ensures |RetryFrom(replies, 0).delays| == RetryFrom(replies, 0).attempts - 1
  {
    RetryShape(replies, 0);
  }

  /** `None` comes back exactly when the fourth and last attempt failed. */
  lemma NoneIffLastFailed(replies: seq<Outcome>)
    ensures RetryFrom(replies, 0).reply.None? <==>
      (RetryFrom(replies, 0).attempts == 4 && OutcomeAt(replies, 3).Fail?)
  {
    RetryShape(replies, 0);
  }

  /** A returned text is the reply of the last attempt, which is either no
      apology or came on the fourth attempt. */
  lemma ReplyIsLastText(replies: seq<Outcome>)
    requires RetryFrom(replies, 0).reply.Some?
    ensures var t := RetryFrom(replies, 0);
      && OutcomeAt(replies, t.attempts - 1).Reply?
      && t.reply.value == OutcomeAt(replies, t.attempts - 1).text
      && (!IsApology(OutcomeAt(replies, t.attempts - 1).text) || t.attempts == 4)
  {
    RetryShape(replies, 0);
  }

  /** An apology on the fourth attempt is returned as text, not as a failure. */
  lemma LastApologyReturned(replies: seq<Outcome>, s: string)
    requires forall i :: 0 <= i < 3 ==> Retries(OutcomeAt(replies, i), i)
    requires OutcomeAt(replies, 3) == Reply(s)
    ensures RetryFrom(replies, 0) == Trace(Some(s), 4,
      [Backoff(OutcomeAt(replies, 0), 0), Backoff(OutcomeAt(replies, 1), 1), Backoff(OutcomeAt(replies, 2), 2)])
  {
    assert Retries(OutcomeAt(replies, 0), 0) && Retries(OutcomeAt(replies, 1), 1) && Retries(OutcomeAt(replies, 2), 2);
  }

  /** A service that never answers costs four requests and 2 + 4 + 6 seconds of sleep. */
  lemma AlwaysFailing(replies: seq<Outcome>)
    requires forall i :: 0 <= i < |replies| ==> replies[i] == Fail
    ensures RetryFrom(replies, 0) == Trace(None, 4, [2, 4, 6])
  {
    assert forall i: nat :: OutcomeAt(replies, i) == Fail;
  }

  // ---------------------------------------------------------------------------
  // The service as seen by a sequence of calls

  /** The oracle still to be consumed, the delays slept so far and the calls made so far. */
  datatype ServiceState = ServiceState(pending: seq<Outcome>, sleeps: seq<nat>, calls: seq<Request>)

  datatype Answer = Answer(reply: Option<string>, state: ServiceState)

  /** One call of `log_and_call_openai` on the service state. */
  function Ask(st: ServiceState, req: Request): Answer {
    var t := RetryFrom(st.pending, 0);
    Answer(Stripped(t.reply), ServiceState(Drop(st.pending, t.attempts), st.sleeps + t.delays, st.calls + [req]))
  }

  /** A call consumes between one and four outcomes of the oracle and records itself once. */
  lemma AskConsumes(st: ServiceState, req: Request)
    ensures var st' := Ask(st, req).state;
      && st'.calls == st.calls + [req]
      && |st.sleeps| <= |st'.sleeps| <= |st.sleeps| + 3
      && (|st.pending| >= 4 ==> |st.pending| - 4 <= |st'.pending| <= |st.pending| - 1)
      && (|st.pending| < 4 ==> |st'.pending| < |st.pending| || st'.pending == [])
  {
    RetryShape(st.pending, 0);
  }

  /** The oracle after `k + 1` requests, and the answer to request `k`. */
  lemma DropNext(replies: seq<Outcome>, k: nat)
    ensures OutcomeAt(Drop(replies, k), 0) == OutcomeAt(replies, k)
    ensures Drop(Drop(replies, k), 1) == Drop(replies, k + 1)
  {
  }

  /** An attempt that triggers a retry sleeps its backoff before the rest of the call. */
  lemma RetryContinues(replies: seq<Outcome>, n: nat)
    requires n < MaxRetries && Retries(OutcomeAt(replies, n), n)
    ensures var t := RetryFrom(replies, n + 1);
      RetryFrom(replies, n) == Trace(t.reply, t.attempts, [Backoff(OutcomeAt(replies, n), n)] + t.delays)
  {
  }

  /** An attempt that does not trigger a retry ends the call with its own outcome. */
  lemma RetryStops(replies: seq<Outcome>, n: nat)
    requires n <= MaxRetries && !Retries(OutcomeAt(replies, n), n)
    ensures RetryFrom(replies, n) == Trace(Final(OutcomeAt(replies, n)), n + 1, [])
  {
  }

  class Service {
    var pending: seq<Outcome>
    var sleeps: seq<nat>
    var calls: seq<Request>

    function State(): ServiceState
      reads this
    {
      ServiceState(pending, sleeps, calls)
    }

    constructor (replies: seq<Outcome>)
      ensures State() == ServiceState(replies, [], [])
    {
      pending, sleeps, calls := replies, [], [];
    }

    /** One request to the completion service. */
    method Send() returns (o: Outcome)
      modifies this`pending
      ensures o == OutcomeAt(old(pending), 0) && pending == Drop(old(pending), 1)
    {
      if pending == [] {
        o := Fail;
      } else {
        o := pending[0];
        pending := pending[1..];
      }
    }

    /** `time.sleep(seconds)`, recorded. */
    method Sleep(seconds: nat)
      modifies this`sleeps
      ensures sleeps == old(sleeps) + [seconds]
    {
      sleeps := sleeps + [seconds];
    }

    /** `log_and_call_openai` as a bounded loop over the retry counter. */
    method Call(req: Request) returns (reply: Option<string>)
      modifies this
      ensures Answer(reply, State()) == Ask(old(State()), req)
    {
      ghost var start := pending;
      ghost var waited: seq<nat> := [];
      ghost var whole := RetryFrom(start, 0);
      var retryCount: nat := 0;
      var text: Option<string>;
      while true
        invariant retryCount <= MaxRetries
        invariant pending == Drop(start, retryCount)
        invariant sleeps == old(sleeps) + waited && calls == old(calls)
        invariant var t := RetryFrom(start, retryCount);
          whole == Trace(t.reply, t.attempts, waited + t.delays)
        decreases MaxRetries - retryCount
      {
        var o := Send();
        DropNext(start, retryCount);
        if o.Reply? && IsApology(o.text) && retryCount < MaxRetries {
          Sleep(2);
        } else if o.Reply? {
          text := Some(o.text);
          RetryStops(start, retryCount);
          break;
        } else if retryCount < MaxRetries {
          Sleep(2 * (retryCount + 1));
        } else {
          text := None;
          RetryStops(start, retryCount);
          break;
        }
        ghost var b := Backoff(o, retryCount);
        RetryContinues(start, retryCount);
        assert (waited + [b]) + RetryFrom(start, retryCount + 1).delays == waited + ([b] + RetryFrom(start, retryCount + 1).delays);
        waited := waited + [b];
        retryCount := retryCount + 1;
      }
      assert whole == Trace(text, retryCount + 1, waited);
      reply := Stripped(text);
      calls := calls + [req];
    }
  }
}
