/** Loading the configuration from the file and the command line (node_client.cc). */
module ConfigLoading {
  import opened Options
  import opened EntityConfig
  import opened NodeOverrides

  /** The configurations that are loaded; `file` is what reading the configuration file gives. */
  function Loaded(flags: Flags, file: Option<seq<EntityConfiguration>>): Option<seq<EntityConfiguration>> {
    var read := if flags.configFilePath == "" then Some([]) else file;
    if read == None then None
    else if flags.mhiConfig != [] then Some(AppliedAll(read.value, flags.mhiConfig))
    else if |read.value| > 1 then read
    else Some([AppliedSingle(if read.value == [] then EMPTY else read.value[0], flags)])
  }

  /** The only configuration; none or several are an error. */
  function LoadedOne(flags: Flags, file: Option<seq<EntityConfiguration>>): Option<EntityConfiguration> {
    var configs := Loaded(flags, file);
    if configs.Some? && |configs.value| == 1 then Some(configs.value[0]) else None
  }

  /** What the file holds, or nothing when no file is named. */
  function Read(flags: Flags, file: Option<seq<EntityConfiguration>>): seq<EntityConfiguration> {
    if flags.configFilePath == "" || file == None then [] else file.value
  }

  /** The configuration that the single-node flags start from. */
  function OnlyRead(flags: Flags, file: Option<seq<EntityConfiguration>>): EntityConfiguration {
    if Read(flags, file) == [] then EMPTY else Read(flags, file)[0]
  }

  /** How the backend is decided: by its flag, without it by the configuration, and without both it is HOST. */
  ghost predicate BackendDecided(c: EntityConfiguration, flags: Flags, backend: BackendType) {
    && (flags.defaultBackend != Unknown ==> backend == flags.defaultBackend)
    && (flags.defaultBackend == Unknown && c.defaultBackend != Unknown ==> backend == c.defaultBackend)
    && (flags.defaultBackend == Unknown && c.defaultBackend == Unknown ==> backend == Host)
  }

  /** The Redfish options are the flags' where these are set, and otherwise as configured. */
  ghost predicate RedfishDecided(c: EntityConfiguration, flags: Flags, d: EntityConfiguration) {
    && d.hostAddress == c.hostAddress
    && (flags.targetAddress != "" ==> d.targetAddress == flags.targetAddress)
    && (flags.targetAddress == "" ==> d.targetAddress == c.targetAddress)
    && (flags.targetPort != 0 ==> d.port == flags.targetPort)
    && (flags.targetPort == 0 ==> d.port == c.port)
    && (flags.auth != Default ==> d.auth == flags.auth)
    && (flags.auth == Default ==> d.auth == c.auth)
    && (flags.queries.Some? ==> d.queries == flags.queries)
    && (flags.queries == None ==> d.queries == c.queries)
    && (flags.cache == None || flags.cache == Some(NoKind) ==> d.cache == c.cache)
    && (flags.cache == Some(NoCache) ==> d.cache == NoCache)
    && (forall s, n | flags.cache == Some(TimeBased(s, n)) ::
          d.cache.TimeBased? && d.cache.seconds == s &&
          (c.cache.TimeBased? ==> d.cache.nanos == c.cache.nanos) && (!c.cache.TimeBased? ==> d.cache.nanos == 0))
  }

  /** Any other backend takes the address as that of the host, and no Redfish option changes. */
  ghost predicate InBandDecided(c: EntityConfiguration, flags: Flags, d: EntityConfiguration) {
    && (flags.targetAddress != "" ==> d.hostAddress == flags.targetAddress)
    && (flags.targetAddress == "" ==> d.hostAddress == c.hostAddress)
    && d.targetAddress == c.targetAddress && d.port == c.port && d.auth == c.auth && d.cache == c.cache
    && d.queries == c.queries
  }

  /** Every field of the configuration d that is loaded for a single node, from what was read and the flags. */
  ghost predicate SingleNodeDecided(c: EntityConfiguration, flags: Flags, d: EntityConfiguration) {
    && BackendDecided(c, flags, d.defaultBackend) && d.methods == c.methods
    && (flags.proxy != 0 ==> d.proxy == flags.proxy) && (flags.proxy == 0 ==> d.proxy == c.proxy)
    && (d.defaultBackend == Redfish ==> RedfishDecided(c, flags, d))
    && (d.defaultBackend != Redfish ==> InBandDecided(c, flags, d))
  }

  /** Without multi-node overrides, several configurations are loaded as they are, and one or none becomes one with every
      field decided by the flags and what was read. */
  method LoadConfigs(flags: Flags, file: Option<seq<EntityConfiguration>>) returns (r: Option<seq<EntityConfiguration>>)
    ensures r == Loaded(flags, file)
    ensures r == None <==> flags.configFilePath != "" && file == None
    ensures r.Some? && flags.mhiConfig == [] && |Read(flags, file)| > 1 ==> r.value == Read(flags, file)
    ensures r.Some? && flags.mhiConfig == [] && |Read(flags, file)| <= 1 ==>
              |r.value| == 1 && SingleNodeDecided(OnlyRead(flags, file), flags, r.value[0])
  {
    var configs := new EntityConfigurations([]);
    if flags.configFilePath != "" {
      if file == None { return None; }
      configs.configs := file.value;
    }
    configs.ApplyMultiNodeOverrides(flags.mhiConfig);
    if flags.mhiConfig != [] { return Some(configs.configs); }
    if |configs.configs| != 0 && |configs.configs| != 1 { return Some(configs.configs); }
    configs.ApplySingleNodeOverride(flags);
    return Some(configs.configs);
  }

  method LoadConfig(flags: Flags, file: Option<seq<EntityConfiguration>>) returns (r: Option<EntityConfiguration>)
    ensures r == LoadedOne(flags, file)
    ensures r.Some? && flags.mhiConfig == [] ==> SingleNodeDecided(OnlyRead(flags, file), flags, r.value)
  {
    var configs := LoadConfigs(flags, file);
    if configs == None || |configs.value| != 1 { return None; }
    return Some(configs.value[0]);
  }

  /** One configuration is loaded exactly when the file can be read and, without multi-node overrides, holds at most
      one, and with them, its configurations and the ones that the overrides create are one together. */
  lemma OneIsLoaded(flags: Flags, file: Option<seq<EntityConfiguration>>)
    ensures var read := Read(flags, file);
            LoadedOne(flags, file).Some? <==>
              && (flags.configFilePath == "" || file.Some?)
              && (if flags.mhiConfig == [] then |read| <= 1
                  else |read| + |CreatorKeys(flags.mhiConfig, Creators(read, flags.mhiConfig))| == 1)
  {
    KeysUnchanged(Read(flags, file), flags.mhiConfig);
  }

  /** Applying the single-node flags again changes nothing. */
  lemma SingleNodeTwice(c: EntityConfiguration, flags: Flags)
    ensures AppliedSingle(AppliedSingle(c, flags), flags) == AppliedSingle(c, flags)
  {
  }
}
