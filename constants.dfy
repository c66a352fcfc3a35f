/** The fixed names and addresses the client uses. */
module Constants {
  /** Address used when no destination is configured. */
  const DefaultHost: string := "http://localhost:8500"
  const DefaultApiVersion: string := "v1"
  /** Value of the `host` header on every request. */
  const ConsulHostName: string := "consul"
  const ConsulIndexHeader: string := "X-Consul-Index"
  const ConsulTokenHeader: string := "X-Consul-Token"

  /** `process.env[CONSUL_ADDRESS] || DEFAULT_HOST`, with the environment read passed in. */
  function DefaultAddress(envAddress: string): (a: string)
    ensures envAddress == "" ==> a == DefaultHost
    ensures envAddress != "" ==> a == envAddress
  {
    if envAddress != "" then envAddress else DefaultHost
  }

  /** The three header names are pairwise different. */
  lemma HeaderNamesDiffer()
    ensures "host" != ConsulIndexHeader && "host" != ConsulTokenHeader
    ensures ConsulIndexHeader != ConsulTokenHeader
  {
    assert "host"[0] != ConsulIndexHeader[0];
    assert "host"[0] != ConsulTokenHeader[0];
    assert ConsulIndexHeader[9] != ConsulTokenHeader[9];
  }
}
