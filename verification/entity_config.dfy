/** The parts of the hardware interface configuration that node overrides and backend selection use (config.proto). */
module EntityConfig {
  import opened Options

  datatype BackendType =
    | Unknown | Gsys | MachineManager | BmcDiagnosticInterface | Redfish | Host | MimikRedfish | Fake

  datatype AuthMethod = Default | Basic | Tls

  /** RedfishCachePolicy: the oneof of its two kinds, or neither; a duration has seconds and nanoseconds. */
  datatype CachePolicy = NoKind | NoCache | TimeBased(seconds: int, nanos: int)

  /** EntityConfiguration, with the Redfish options inlined. Method and proxy numbers are BackendMethod and
      ProxyType values; no proxy is 0. */
  datatype EntityConfiguration = EntityConfiguration(
    hostAddress: string, proxy: int, defaultBackend: BackendType, methods: map<int, BackendType>,
    targetAddress: string, port: int, auth: AuthMethod, cache: CachePolicy, queries: Option<string>)

  const EMPTY := EntityConfiguration("", 0, Unknown, map[], "", 0, Default, NoKind, None)

  /** One --mhi_config override. */
  datatype NodeOverride = NodeOverride(
    backend: BackendType, targetAddress: string, port: int, auth: AuthMethod,
    cache: Option<CachePolicy>, queries: Option<string>)

  /** The command line: the configuration file, the multi-node overrides, and the flags for a single node. */
  datatype Flags = Flags(
    configFilePath: string, mhiConfig: seq<NodeOverride>, defaultBackend: BackendType, targetAddress: string,
    targetPort: int, proxy: int, auth: AuthMethod, cache: Option<CachePolicy>, queries: Option<string>)
}
