/**
 * The base class every agent extends: a capability table built at construction and a
 * failure counter that `handle_failure` bumps before building the failure record that
 * every agent's `process` returns when it catches an exception.
 */
module BaseAgent {

  /** A named capability with its description (`AgentCapability`). */
  datatype Capability = Capability(name: string, description: string)

  /** The record `handle_failure` returns: `{"success": False, "error": ..., "retry_count": ...}`. */
  datatype FailureRecord = FailureRecord(error: string, retryCount: int)

  /**
   * The failure record an agent whose counter stands at `counter` returns for an
   * exception with text `error`: the counter after its increment is reported.
   */
  function FailureFor(error: string, counter: int): (r: FailureRecord)
    ensures r.error == error && r.retryCount > counter
    ensures r.retryCount - counter == 1
  {
    FailureRecord(error, counter + 1)
  }

  /** The capability table: each key of `caps` maps to a capability of that name. */
  function CapabilityTable(caps: map<string, string>): (table: map<string, Capability>)
    ensures table.Keys == caps.Keys
    ensures forall k | k in table :: table[k].name == k && table[k].description == caps[k]
  {
    map k | k in caps :: Capability(k, caps[k])
  }

  class SdlcAgent {
    const name: string
    const description: string
    const capabilities: map<string, Capability>
    var retryCount: int

    constructor (name: string, description: string, caps: map<string, string>, retryCount: int := 0)
      ensures this.name == name && this.description == description
      ensures capabilities.Keys == caps.Keys
      ensures forall k | k in capabilities :: capabilities[k] == Capability(k, caps[k])
      ensures this.retryCount == retryCount
    {
      this.name := name;
      this.description := description;
      this.capabilities := CapabilityTable(caps);
      this.retryCount := retryCount;
    }

    /** Counts one more failure and reports it; nothing else about the agent changes. */
    method HandleFailure(error: string) returns (r: FailureRecord)
      modifies this`retryCount
      ensures retryCount == old(retryCount) + 1
      ensures r == FailureFor(error, old(retryCount))
    {
      retryCount := retryCount + 1;
      r := FailureRecord(error, retryCount);
    }
  }
}
