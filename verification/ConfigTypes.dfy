// The configuration as the relay package reads it (config.go).
module ConfigTypes {
  import opened Values
  import Text

  /** Either a sub reference (sub != "") or an inline proxy; subName is what sub resolved to. */
  datatype Upstream = Upstream(sub: string, interval: int, proxy: Config, subName: string)

  datatype Downstream = Downstream(typ: string, listen: string, port: int, username: string, password: string)

  datatype Relay = Relay(name: string, strategy: string, upstream: seq<Upstream>, downstream: seq<Downstream>)

  /** The two schemes that make a reference a URL; anything else names a sub. */
  predicate IsSubURL(s: string) {
    "http://" <= Text.ToLower(s) || "https://" <= Text.ToLower(s)
  }
}
