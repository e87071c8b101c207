/** The two latencies of src/core/telemetry.hpp. */
module Metrics {
  datatype MetricKind = TTFT | InterToken
}
