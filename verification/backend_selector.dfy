/** Creating a node client and selecting the backend of a method (node_client.cc). */
module BackendSelector {
  import opened Options
  import opened FiniteSets
  import opened EntityConfig
  import opened ConfigLoading

  /** A created backend. */
  type Handle = int

  /** What the builder registered for a backend type makes of a configuration; None is an error status. */
  type Builder = EntityConfiguration -> Option<Handle>

  // ---- Selecting, on values ----

  /** What selection reads and writes. */
  datatype Client = Client(
    defaultBackend: BackendType, methods: map<int, BackendType>, backends: map<BackendType, Handle>)

  /** The backend type configured for a method, or the default when it is unset or unknown. */
  function Configured(defaultBackend: BackendType, methods: map<int, BackendType>, method_: int): BackendType {
    if method_ in methods && methods[method_] != Unknown then methods[method_] else defaultBackend
  }

  /** The pure lookup; None when no backend of the type was created. */
  function Lookup(c: Client, method_: int): Option<Handle> {
    var backend := Configured(c.defaultBackend, c.methods, method_);
    if backend in c.backends then Some(c.backends[backend]) else None
  }

  /** SelectBackend: operator[] inserts UNKNOWN for a new key, UNKNOWN is overwritten by the default, and the
      entry is looked up with at(), which fails on a missing type. */
  function Select(c: Client, method_: int): (Client, Option<Handle>) {
    var entry := if method_ in c.methods then c.methods[method_] else Unknown;
    var backend := if entry == Unknown then c.defaultBackend else entry;
    (c.(methods := c.methods[method_ := backend]),
     if backend in c.backends then Some(c.backends[backend]) else None)
  }

  /** The results of a sequence of calls. */
  function SelectAll(c: Client, calls: seq<int>): seq<Option<Handle>>
    decreases calls
  {
    if calls == [] then [] else [Select(c, calls[0]).1] + SelectAll(Select(c, calls[0]).0, calls[1..])
  }

  // ---- Creating ----

  /** The backend types for which Create calls a builder. */
  function NeededTypes(config: EntityConfiguration): set<BackendType> {
    {config.defaultBackend} + config.methods.Values
  }

  predicate Buildable(config: EntityConfiguration, resolver: map<BackendType, Builder>, backend: BackendType) {
    backend in resolver && resolver[backend](config).Some?
  }

  /** Every named backend type has a builder that succeeds, and the host adapter can be made, which only a remote
      host can refuse. */
  predicate Creatable(config: EntityConfiguration, resolver: map<BackendType, Builder>, remote: string -> bool) {
    && (forall b | b in NeededTypes(config) :: Buildable(config, resolver, b))
    && (config.hostAddress == "" || remote(config.hostAddress))
  }

  /** A client holds exactly the backends its configuration names, each made by its own builder. */
  ghost predicate CreatedFrom(c: Client, config: EntityConfiguration, resolver: map<BackendType, Builder>) {
    && c.defaultBackend == config.defaultBackend && c.methods == config.methods
    && c.backends.Keys == NeededTypes(config)
    && forall b | b in c.backends :: Buildable(config, resolver, b) && resolver[b](config) == Some(c.backends[b])
  }

  /** at() finds a backend for every method. */
  predicate Total(c: Client) {
    c.defaultBackend in c.backends && forall m | m in c.methods :: c.methods[m] == Unknown || c.methods[m] in c.backends
  }

  lemma CreatedIsTotal(c: Client, config: EntityConfiguration, resolver: map<BackendType, Builder>)
    requires CreatedFrom(c, config, resolver)
    ensures Total(c)
  {
    forall m | m in c.methods ensures c.methods[m] in c.backends { assert c.methods[m] in config.methods.Values; }
  }

  /** Memoising one method changes no method's lookup. */
  lemma SelectKeepsLookup(c: Client, method_: int)
    requires Total(c)
    ensures Select(c, method_).1 == Lookup(c, method_) && Lookup(c, method_).Some?
    ensures Total(Select(c, method_).0)
    ensures forall m :: Lookup(Select(c, method_).0, m) == Lookup(c, m)
  {
    var d := Select(c, method_).0;
    forall m ensures Lookup(d, m) == Lookup(c, m) {
      assert m != method_ ==> (m in d.methods <==> m in c.methods);
    }
  }

  /** Every call of every sequence succeeds and answers as the pure lookup on the untouched configuration. */
  lemma {:induction false} SelectionIsLookup(c: Client, calls: seq<int>)
    requires Total(c)
    ensures |SelectAll(c, calls)| == |calls|
    ensures forall k | 0 <= k < |calls| :: SelectAll(c, calls)[k] == Lookup(c, calls[k]) && SelectAll(c, calls)[k].Some?
    decreases calls
  {
    if calls != [] {
      SelectKeepsLookup(c, calls[0]);
      SelectionIsLookup(Select(c, calls[0]).0, calls[1..]);
    }
  }

  /** After a successful Create: any calls, in any order, give the backend that the builder registered for the
      configured type made, or the default backend's for a method that is unset or unknown. */
  lemma CreatedClientSelects(c: Client, config: EntityConfiguration, resolver: map<BackendType, Builder>,
                             calls: seq<int>, k: nat)
    requires CreatedFrom(c, config, resolver) && k < |calls|
    ensures |SelectAll(c, calls)| == |calls|
    ensures var backend := Configured(config.defaultBackend, config.methods, calls[k]);
            backend in resolver && SelectAll(c, calls)[k] == resolver[backend](config) &&
            SelectAll(c, calls)[k].Some?
  {
    CreatedIsTotal(c, config, resolver);
    SelectionIsLookup(c, calls);
  }

  /** Two calls for the same method, wherever they stand in whatever sequences, get the same backend. */
  lemma OrderDoesNotMatter(c: Client, a: seq<int>, i: nat, b: seq<int>, j: nat)
    requires Total(c) && i < |a| && j < |b| && a[i] == b[j]
    ensures |SelectAll(c, a)| == |a| && |SelectAll(c, b)| == |b| && SelectAll(c, a)[i] == SelectAll(c, b)[j]
  {
    SelectionIsLookup(c, a);
    SelectionIsLookup(c, b);
  }

  // ---- The class ----

  class NodeClient {
    var config: EntityConfiguration
    var backends: map<BackendType, Handle>

    constructor (config: EntityConfiguration)
      ensures this.config == config && backends == map[]
    {
      this.config := config;
      backends := map[];
    }

    function State(): Client
      reads this
    {
      Client(config.defaultBackend, config.methods, backends)
    }

    method AddBackend(backend: BackendType, builder: Builder) returns (ok: bool)
      modifies this`backends
      ensures ok <==> builder(config).Some?
      ensures backends == if ok then old(backends)[backend := builder(config).value] else old(backends)
    {
      var handle := builder(config);
      if handle == None { return false; }
      backends := backends[backend := handle.value];
      return true;
    }

    /** The backends of a new client: one for the default type and one for every method's. */
    method AddBackends(resolver: map<BackendType, Builder>) returns (ok: bool)
      requires backends == map[]
      modifies this`backends
      ensures ok <==> forall b | b in NeededTypes(config) :: Buildable(config, resolver, b)
      ensures ok ==> CreatedFrom(State(), config, resolver)
    {
      assert config.defaultBackend in NeededTypes(config);
      if config.defaultBackend !in resolver { return false; }
      ok := AddBackend(config.defaultBackend, resolver[config.defaultBackend]);
      if !ok { return; }
      var left := config.methods.Keys;
      while left != {}
        invariant left <= config.methods.Keys && config.defaultBackend in backends
        invariant backends.Keys <= NeededTypes(config)
        invariant forall m | m in config.methods && m !in left :: config.methods[m] in backends
        invariant forall b | b in backends :: Buildable(config, resolver, b) && resolver[b](config) == Some(backends[b])
        decreases left
      {
        var m := Pick(left);
        var backend := config.methods[m];
        assert backend in NeededTypes(config);
        if backend !in backends {
          if backend !in resolver { return false; }
          ok := AddBackend(backend, resolver[backend]);
          if !ok { return; }
        }
        left := left - {m};
      }
      forall b | b in NeededTypes(config) ensures b in backends {
        if b in config.methods.Values { var m := KeyOfValue(config.methods, b); }
      }
      return true;
    }

    /** Without a configuration, the one that the file and the flags give is used. */
    static method Create(config: Option<EntityConfiguration>, flags: Flags, file: Option<seq<EntityConfiguration>>,
                         resolver: map<BackendType, Builder>, remote: string -> bool)
      returns (client: NodeClient?)
      ensures var used := if config.Some? then config else LoadedOne(flags, file);
              && (client != null <==> used.Some? && Creatable(used.value, resolver, remote))
              && (client != null ==>
                    fresh(client) && client.config == used.value && CreatedFrom(client.State(), used.value, resolver))
    {
      var used := config;
      if used == None {
        used := LoadConfig(flags, file);
        if used == None { return null; }
      }
      var c := new NodeClient(used.value);
      var ok := c.AddBackends(resolver);
      if !ok { return null; }
      if c.config.hostAddress != "" && !remote(c.config.hostAddress) { return null; }
      return c;
    }

    /** One client for each loaded configuration, or none at all. */
    static method CreateClients(flags: Flags, file: Option<seq<EntityConfiguration>>,
                                resolver: map<BackendType, Builder>, remote: string -> bool)
      returns (clients: Option<seq<NodeClient>>)
      ensures var configs := Loaded(flags, file);
              && (clients.Some? <==>
                    configs.Some? && forall k | 0 <= k < |configs.value| :: Creatable(configs.value[k], resolver, remote))
              && (clients.Some? ==>
                    |clients.value| == |configs.value| && forall k | 0 <= k < |configs.value| ::
                      CreatedFrom(clients.value[k].State(), configs.value[k], resolver))
    {
      var configs := LoadConfigs(flags, file);
      if configs == None { return None; }
      var created: seq<NodeClient> := [];
      for k := 0 to |configs.value|
        invariant |created| == k
        invariant forall j | 0 <= j < k :: Creatable(configs.value[j], resolver, remote)
        invariant forall j | 0 <= j < k :: CreatedFrom(created[j].State(), configs.value[j], resolver)
      {
        var client := Create(Some(configs.value[k]), flags, file, resolver, remote);
        if client == null { return None; }
        created := created + [client];
      }
      return Some(created);
    }

    /** Memoises, and returns what the lookup gives. */
    method SelectBackend(method_: int) returns (backend: Handle)
      requires Total(State())
      modifies this`config
      ensures (State(), Some(backend)) == Select(old(State()), method_)
      ensures Some(backend) == Lookup(old(State()), method_) && Total(State())
      ensures config == old(config).(methods := config.methods)
      ensures forall m :: Lookup(State(), m) == Lookup(old(State()), m)
    {
      SelectKeepsLookup(State(), method_);
      var methods := config.methods;
      if method_ !in methods { methods := methods[method_ := Unknown]; }
      if methods[method_] == Unknown { methods := methods[method_ := config.defaultBackend]; }
      backend := backends[methods[method_]];
      assert methods == Select(State(), method_).0.methods;
      config := config.(methods := methods);
    }
  }
}
