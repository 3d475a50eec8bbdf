/** Builds the initial trace data of a request from its headers. */
module TraceabilityRequestHeaderExtractor {
  import opened Wrappers
  import opened Text
  import opened Http
  import opened Datafill

  /**
   * `extract`: the inbound values under `key` joined with the separator, or
   * nothing when the request does not carry that header at all.
   */
  function ExtractedValue(df: TraceabilityDatafill, headers: Headers, key: string): (r: Option<string>)
    ensures r.Some? <==> key in headers
  {
    if key in headers then Some(Join(headers[key], df.listSeparator)) else None
  }

  /**
   * The trace data `invoke` builds: the application id, the transaction id
   * when the request carries one, and the fresh `requestId` (put last, so it
   * wins when keys clash).
   */
  function TraceData(df: TraceabilityDatafill, headers: Headers, requestId: string): (r: map<string, string>)
    ensures r.Keys == {df.applicationId, df.requestId} + (if df.transactionId in headers then {df.transactionId} else {})
    ensures r[df.requestId] == requestId
    ensures df.applicationId != df.requestId && (df.applicationId == df.transactionId ==> df.transactionId !in headers)
            ==> r[df.applicationId] == df.applicationName
    ensures df.transactionId in headers && df.transactionId != df.requestId
            ==> r[df.transactionId] == Join(headers[df.transactionId], df.listSeparator)
  {
    var m := map[df.applicationId := df.applicationName];
    var m' := match ExtractedValue(df, headers, df.transactionId)
      case Some(v) => m[df.transactionId := v]
      case None => m;
    m'[df.requestId := requestId]
  }

  /** `invoke`: fill a map builder with three successive puts. */
  method Invoke(df: TraceabilityDatafill, headers: Headers, requestId: string) returns (traceData: map<string, string>)
    ensures traceData == TraceData(df, headers, requestId)
  {
    traceData := map[];
    traceData := traceData[df.applicationId := df.applicationName];
    var value := ExtractedValue(df, headers, df.transactionId);
    if value.Some? {
      traceData := traceData[df.transactionId := value.value];
    }
    traceData := traceData[df.requestId := requestId];
  }

  /** Inbound headers other than the transaction id have no influence on the trace data. */
  lemma OnlyTransactionHeaderMatters(df: TraceabilityDatafill, h1: Headers, h2: Headers, requestId: string)
    requires Values(h1, df.transactionId) == Values(h2, df.transactionId)
    requires (df.transactionId in h1) == (df.transactionId in h2)
    ensures TraceData(df, h1, requestId) == TraceData(df, h2, requestId)
  {
  }

  /**
   * With a key layout that keeps the entries apart, splitting the stored
   * transaction id gives back the inbound values when each can be separated.
   */
  lemma TransactionIdRecoverable(df: TraceabilityDatafill, headers: Headers, requestId: string)
    requires |df.listSeparator| > 0 && df.transactionId != df.requestId
    requires df.transactionId in headers && |headers[df.transactionId]| >= 1
    requires forall k :: 0 <= k < |headers[df.transactionId]| ==> Separable(headers[df.transactionId][k], df.listSeparator)
    ensures Split(TraceData(df, headers, requestId)[df.transactionId], df.listSeparator) == headers[df.transactionId]
  {
    SplitJoin(headers[df.transactionId], df.listSeparator);
  }

}
