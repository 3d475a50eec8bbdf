/** The traceability configuration shared by the extractor, the compositor and the filter. */
module Datafill {

  /**
   * Names of the trace header keys, the constant application name, and the
   * separator that joins several values of one header into a single string.
   */
  datatype TraceabilityDatafill = TraceabilityDatafill(
    applicationId: string,
    applicationName: string,
    transactionId: string,
    requestId: string,
    duration: string,
    listSeparator: string)

  /** The four trace header keys are pairwise different. */
  predicate DistinctKeys(df: TraceabilityDatafill)
  {
    && df.applicationId != df.transactionId
    && df.applicationId != df.requestId
    && df.applicationId != df.duration
    && df.transactionId != df.requestId
    && df.transactionId != df.duration
    && df.requestId != df.duration
  }

}
