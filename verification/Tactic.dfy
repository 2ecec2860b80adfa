/** Dialing tactics and the strings that identify them (pkg/enginenetx/httpsdialer.go). */
module Tactics {

  /** The fields of an httpsDialerTactic. */
  datatype Tactic = Tactic(
    address: string,
    initialDelay: int,
    port: string,
    sni: string,
    verifyHostname: string)
  {
    function SummaryKey(): string {
      JoinHostPort(address, port) + " sni=" + sni + " verify=" + verifyHostname
    }

    function DomainEndpointKey(): string {
      JoinHostPort(verifyHostname, port)
    }

    /** Equality up to the delay, which is not part of a tactic's identity. */
    predicate SameAs(other: Tactic) {
      this.(initialDelay := 0) == other.(initialDelay := 0)
    }
  }

  /** A tactic on the heap: goroutines pass pointers to tactics and rewrite their delay in place. */
  class HttpsDialerTactic {
    var fields: Tactic

    constructor (fields: Tactic)
      ensures this.fields == fields
    {
      this.fields := fields;
    }

    method Clone() returns (copy: HttpsDialerTactic)
      ensures fresh(copy) && copy.fields == fields
    {
      copy := new HttpsDialerTactic(fields);
    }
  }

  /** Go's net.JoinHostPort. */
  function JoinHostPort(host: string, port: string): string {
    if ':' in host then "[" + host + "]:" + port else host + ":" + port
  }
}
