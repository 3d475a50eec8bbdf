/**
 * The web filter that brackets request handling: on arrival it extracts the
 * trace data and reads the clock; just before the response is committed it
 * stores the elapsed time and writes the trace headers.
 */
module TraceabilityWebFilter {
  import opened Text
  import opened Http
  import opened Datafill
  import Extractor = TraceabilityRequestHeaderExtractor
  import Compositor = TraceabilityResponseHeaderCompositor

  /** Whether the commit hook has run yet. */
  datatype Phase = AwaitingCommit | Committed

  /** The observable steps of one request, in the order the filter takes them. */
  datatype Step = ExtractTraceData | ReadStartTime | DelegateToChain | ReadCommitTime | StoreDuration | ComposeHeaders

  /**
   * Milliseconds between two clock readings, with Kotlin's `Long` subtraction:
   * the exact difference when it fits in a `Long`, and otherwise the value
   * congruent to it modulo 2^64.
   */
  function Elapsed(startTime: Long, now: Long): (r: Long)
    ensures (now - startTime - r) % 0x1_0000_0000_0000_0000 == 0
    ensures LongMin <= now - startTime <= LongMax ==> r == now - startTime
  {
    WrapLong(now - startTime)
  }

  /**
   * The text stored under the duration key: the decimal digits of the elapsed
   * time, after a minus sign exactly when it is negative.
   */
  function DurationText(startTime: Long, now: Long): (r: string)
    ensures |r| >= 1 && (r[0] == '-' <==> Elapsed(startTime, now) < 0)
    ensures Elapsed(startTime, now) >= 0 ==> IsDigits(r) && ParseDigits(r) == Elapsed(startTime, now)
    ensures Elapsed(startTime, now) < 0 ==> IsDigits(r[1..]) && ParseDigits(r[1..]) == -(Elapsed(startTime, now) as int)
  {
    LongToString(Elapsed(startTime, now))
  }

  /**
   * `traceData[duration] = text`: the duration entry is set, overwriting any
   * earlier value, and no other entry changes.
   */
  function WithDuration(traceData: map<string, string>, durationKey: string, text: string): (r: map<string, string>)
    ensures r.Keys == traceData.Keys + {durationKey}
    ensures r[durationKey] == text
    ensures forall k :: k in traceData && k != durationKey ==> r[k] == traceData[k]
  {
    traceData[durationKey := text]
  }

  /** The state the filter keeps for one request: its trace data and its start time. */
  class RequestTrace {
    const datafill: TraceabilityDatafill
    const response: HttpResponse
    var traceData: map<string, string>
    var startTime: Long
    var phase: Phase
    ghost var steps: seq<Step>

    /** The first part of `filter`: extract the trace data, then read the clock. */
    constructor (df: TraceabilityDatafill, requestHeaders: Headers, requestId: string, clock: Long, response: HttpResponse)
      ensures datafill == df && this.response == response
      ensures traceData == Extractor.TraceData(df, requestHeaders, requestId)
      ensures startTime == clock && phase == AwaitingCommit
      ensures steps == [ExtractTraceData, ReadStartTime]
    {
      datafill := df;
      this.response := response;
      steps := [];
      new;
      var extracted := Extractor.Invoke(df, requestHeaders, requestId);
      traceData := extracted;
      steps := steps + [ExtractTraceData];
      startTime := clock;
      steps := steps + [ReadStartTime];
      phase := AwaitingCommit;
    }

    /**
     * The `beforeCommit` hook: store the elapsed time under the duration key,
     * overwriting any earlier value, then let the compositor write the headers.
     */
    method BeforeCommit(clock: Long)
      requires phase == AwaitingCommit && |datafill.listSeparator| > 0
      modifies this, response
      ensures traceData == WithDuration(old(traceData), datafill.duration, DurationText(startTime, clock))
      ensures response.headers == Compositor.Composed(old(response.headers), datafill, traceData)
      ensures startTime == old(startTime) && phase == Committed
      ensures steps == old(steps) + [ReadCommitTime, StoreDuration, ComposeHeaders]
    {
      ghost var h0 := response.headers;
      steps := steps + [ReadCommitTime];
      var text := DurationText(startTime, clock);
      var updated := WithDuration(traceData, datafill.duration, text);
      traceData := updated;
      steps := steps + [StoreDuration];
      Compositor.Invoke(datafill, updated, response);
      assert response.headers == Compositor.Composed(h0, datafill, updated);
      steps := steps + [ComposeHeaders];
      phase := Committed;
    }
  }

  /**
   * `filter`: set up the request's trace state, leave the response untouched,
   * and hand back what the rest of the chain returns.
   */
  method Filter<R>(df: TraceabilityDatafill, requestHeaders: Headers, requestId: string, clock: Long,
                   response: HttpResponse, downstream: R)
    returns (trace: RequestTrace, result: R)
    ensures fresh(trace) && trace.datafill == df && trace.response == response
    ensures trace.traceData == Extractor.TraceData(df, requestHeaders, requestId)
    ensures trace.startTime == clock && trace.phase == AwaitingCommit
    ensures trace.steps == [ExtractTraceData, ReadStartTime, DelegateToChain]
    ensures response.headers == old(response.headers)
    ensures result == downstream
  {
    trace := new RequestTrace(df, requestHeaders, requestId, clock, response);
    trace.steps := trace.steps + [DelegateToChain];
    result := downstream;
  }

  /** When the commit reading is not before a non-negative start, the duration is the plain decimal elapsed time. */
  lemma DurationIsDecimal(startTime: Long, now: Long)
    requires 0 <= startTime <= now
    ensures Elapsed(startTime, now) == now - startTime
    ensures IsDigits(DurationText(startTime, now))
    ensures ParseDigits(DurationText(startTime, now)) == now - startTime
  {
    DigitsRoundTrip(now - startTime);
  }

  /** Because the duration is stored before composition, the response always gains a duration value. */
  lemma DurationHeaderWritten(h: Headers, df: TraceabilityDatafill, traceData: map<string, string>, startTime: Long, now: Long)
    requires |df.listSeparator| > 0
    ensures var composed := Compositor.Composed(h, df, WithDuration(traceData, df.duration, DurationText(startTime, now)));
            df.duration in composed && |Values(composed, df.duration)| > |Values(h, df.duration)|
  {
    var td := WithDuration(traceData, df.duration, DurationText(startTime, now));
    Compositor.ComposedEffect(h, df, td, df.duration);
    Compositor.ContributionOfWellKnownKeys(df, td, df.duration);
  }

  /**
   * With distinct keys, a separator holding some non-digit character and a
   * clock that did not go back, the duration header gains exactly one value:
   * the decimal elapsed time.
   */
  lemma DurationHeaderExact(h: Headers, df: TraceabilityDatafill, traceData: map<string, string>,
                            startTime: Long, now: Long, k: nat)
    requires DistinctKeys(df) && k < |df.listSeparator| && !('0' <= df.listSeparator[k] <= '9')
    requires 0 <= startTime <= now
    ensures var text := DurationText(startTime, now);
            Values(Compositor.Composed(h, df, WithDuration(traceData, df.duration, text)), df.duration) == Values(h, df.duration) + [text]
  {
    var text := DurationText(startTime, now);
    DurationIsDecimal(startTime, now);
    DigitsAvoidSeparator(text, df.listSeparator, k);
    SplitWithoutSeparator(text, df.listSeparator);
    Compositor.ComposeDistinctKeys(h, df, WithDuration(traceData, df.duration, text), df.duration);
  }

  /** The trace the commit hook composes: the extracted data plus the duration. */
  function CommittedTraceData(df: TraceabilityDatafill, requestHeaders: Headers, requestId: string,
                              startTime: Long, now: Long): map<string, string>
  {
    WithDuration(Extractor.TraceData(df, requestHeaders, requestId), df.duration, DurationText(startTime, now))
  }

  /**
   * A whole request seen from the response: each trace key gains the pieces
   * of its value; the transaction id is written only when the request carried it.
   */
  lemma FilterHeaders(h: Headers, df: TraceabilityDatafill, requestHeaders: Headers, requestId: string,
                      startTime: Long, now: Long)
    requires DistinctKeys(df) && |df.listSeparator| > 0
    ensures var final := Compositor.Composed(h, df, CommittedTraceData(df, requestHeaders, requestId, startTime, now));
            && Values(final, df.applicationId) == Values(h, df.applicationId) + Split(df.applicationName, df.listSeparator)
            && Values(final, df.requestId) == Values(h, df.requestId) + Split(requestId, df.listSeparator)
            && (df.transactionId in requestHeaders ==>
                  Values(final, df.transactionId)
                  == Values(h, df.transactionId) + Split(Join(requestHeaders[df.transactionId], df.listSeparator), df.listSeparator))
            && (df.transactionId !in requestHeaders ==>
                  Values(final, df.transactionId) == Values(h, df.transactionId)
                  && (df.transactionId in final <==> df.transactionId in h))
  {
    var td := CommittedTraceData(df, requestHeaders, requestId, startTime, now);
    Compositor.ComposeDistinctKeys(h, df, td, df.applicationId);
    Compositor.ComposeDistinctKeys(h, df, td, df.requestId);
    if df.transactionId in requestHeaders {
      Compositor.ComposeDistinctKeys(h, df, td, df.transactionId);
    } else {
      Compositor.ComposeLeavesOtherKeys(h, df, td, df.transactionId);
    }
  }

  /**
   * On a response without headers and with a one-character separator that the
   * values avoid: the application and request ids come out as single values,
   * and the inbound transaction-id values come out exactly as they came in.
   */
  lemma FilterRoundTrip(df: TraceabilityDatafill, requestHeaders: Headers, requestId: string,
                        startTime: Long, now: Long)
    requires DistinctKeys(df) && |df.listSeparator| == 1
    requires df.listSeparator[0] !in df.applicationName && df.listSeparator[0] !in requestId
    requires df.transactionId in requestHeaders ==>
               |requestHeaders[df.transactionId]| >= 1
               && forall k :: 0 <= k < |requestHeaders[df.transactionId]| ==> df.listSeparator[0] !in requestHeaders[df.transactionId][k]
    ensures var final := Compositor.Composed(map[], df, CommittedTraceData(df, requestHeaders, requestId, startTime, now));
            && Values(final, df.applicationId) == [df.applicationName]
            && Values(final, df.requestId) == [requestId]
            && (df.transactionId in final <==> df.transactionId in requestHeaders)
            && (df.transactionId in requestHeaders ==> Values(final, df.transactionId) == requestHeaders[df.transactionId])
  {
    var c := df.listSeparator[0];
    assert df.listSeparator == [c];
    var td := CommittedTraceData(df, requestHeaders, requestId, startTime, now);
    FilterHeaders(map[], df, requestHeaders, requestId, startTime, now);
    SingleCharSeparable(df.applicationName, c);
    SeparableIsSeparatorFree(df.applicationName, df.listSeparator);
    SplitWithoutSeparator(df.applicationName, df.listSeparator);
    SingleCharSeparable(requestId, c);
    SeparableIsSeparatorFree(requestId, df.listSeparator);
    SplitWithoutSeparator(requestId, df.listSeparator);
    Compositor.ComposedEffect(map[], df, td, df.transactionId);
    if df.transactionId in requestHeaders {
      var vs := requestHeaders[df.transactionId];
      forall k | 0 <= k < |vs| ensures Separable(vs[k], df.listSeparator) {
        SingleCharSeparable(vs[k], c);
      }
      SplitJoin(vs, df.listSeparator);
    }
  }

}
