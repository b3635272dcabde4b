/** Gateway restarts, seen as an uptime that went down. */
module GatewayUptime {
  import opened Common

  predicate RestartDetected(prev: Option<nat>, curr: Option<nat>) {
    prev.Some? && curr.Some? && curr.value < prev.value
  }
}
