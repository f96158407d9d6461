/** The counters all handlers share. */
module Metering {
  datatype Metrics = Metrics(total: nat, allowed: nat, blocked: nat, cached: nat, rateLimited: nat, errors: nat)
}
