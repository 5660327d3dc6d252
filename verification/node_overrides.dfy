/** Applying multi-node overrides to a list of configurations (node_client.cc). */
module NodeOverrides {
  import opened Options
  import opened EntityConfig

  // ---- One override ----

  predicate IsOobBackend(backend: BackendType) { backend == Redfish }

  function OverriddenCache(cache: CachePolicy, override: Option<CachePolicy>): CachePolicy {
    match override
    case None => cache
    case Some(NoKind) => cache
    case Some(NoCache) => NoCache
    case Some(TimeBased(seconds, _)) => TimeBased(seconds, if cache.TimeBased? then cache.nanos else 0)
  }

  function ApplyOobOverride(c: EntityConfiguration, o: NodeOverride): EntityConfiguration {
    var d := c.(defaultBackend := o.backend);
    if d.defaultBackend != Redfish then d else
    d.(
      port := if o.port != 0 then o.port else d.port,
      targetAddress := if o.targetAddress != "" then o.targetAddress else d.targetAddress,
      auth := if o.auth != Default then o.auth else d.auth,
      cache := OverriddenCache(d.cache, o.cache),
      queries := if o.queries.Some? then o.queries else d.queries)
  }

  function ApplyIbOverride(c: EntityConfiguration, o: NodeOverride): EntityConfiguration {
    c.(hostAddress := if o.targetAddress != "" then o.targetAddress else c.hostAddress, defaultBackend := o.backend)
  }

  /** The override is about this configuration. */
  predicate Matches(c: EntityConfiguration, o: NodeOverride) {
    if IsOobBackend(o.backend) then c.targetAddress == o.targetAddress else c.hostAddress == o.targetAddress
  }

  function ApplyTo(c: EntityConfiguration, o: NodeOverride): EntityConfiguration {
    if IsOobBackend(o.backend) then ApplyOobOverride(c, o) else ApplyIbOverride(c, o)
  }

  function ApplyIfMatching(c: EntityConfiguration, o: NodeOverride): EntityConfiguration {
    if Matches(c, o) then ApplyTo(c, o) else c
  }

  predicate MatchesAny(configs: seq<EntityConfiguration>, o: NodeOverride) {
    exists i :: 0 <= i < |configs| && Matches(configs[i], o)
  }

  function ApplyEach(configs: seq<EntityConfiguration>, o: NodeOverride): (r: seq<EntityConfiguration>)
    ensures |r| == |configs| && forall i | 0 <= i < |r| :: r[i] == ApplyIfMatching(configs[i], o)
  {
    seq(|configs|, i requires 0 <= i < |configs| => ApplyIfMatching(configs[i], o))
  }

  /** The effect of one override: on every match, or on a new configuration when there is none. */
  function Applied(configs: seq<EntityConfiguration>, o: NodeOverride): seq<EntityConfiguration> {
    ApplyEach(configs, o) + if MatchesAny(configs, o) then [] else [ApplyTo(EMPTY, o)]
  }

  function AppliedAll(configs: seq<EntityConfiguration>, list: seq<NodeOverride>): seq<EntityConfiguration> {
    if list == [] then configs else Applied(AppliedAll(configs, list[..|list| - 1]), list[|list| - 1])
  }

  // ---- The flags for a single node ----

  /** The flag decides, then the configuration, then HOST. */
  function SingleBackend(c: EntityConfiguration, flags: Flags): BackendType {
    if flags.defaultBackend != Unknown then flags.defaultBackend
    else if c.defaultBackend != Unknown then c.defaultBackend
    else Host
  }

  function AppliedSingle(c: EntityConfiguration, flags: Flags): EntityConfiguration {
    ApplyTo(if flags.proxy != 0 then c.(proxy := flags.proxy) else c,
            NodeOverride(SingleBackend(c, flags), flags.targetAddress, flags.targetPort, flags.auth, flags.cache,
                         flags.queries))
  }

  /** The override that the flags add up to. */
  method SingleNodeOverride(c: EntityConfiguration, flags: Flags) returns (o: NodeOverride)
    ensures o == NodeOverride(SingleBackend(c, flags), flags.targetAddress, flags.targetPort, flags.auth, flags.cache,
                              flags.queries)
  {
    o := NodeOverride(flags.defaultBackend, "", 0, Default, None, None);
    if o.backend == Unknown {
      o := o.(backend := Host);
      if c.defaultBackend != Unknown { o := o.(backend := c.defaultBackend); }
    }
    if flags.targetAddress != "" { o := o.(targetAddress := flags.targetAddress); }
    if flags.targetPort != 0 { o := o.(port := flags.targetPort); }
    if flags.auth != Default { o := o.(auth := flags.auth); }
    if flags.cache.Some? { o := o.(cache := flags.cache); }
    if flags.queries.Some? { o := o.(queries := flags.queries); }
  }

  class EntityConfigurations {
    var configs: seq<EntityConfiguration>

    constructor (configs: seq<EntityConfiguration>)
      ensures this.configs == configs
    {
      this.configs := configs;
    }

    method ApplyNodeOverride(o: NodeOverride)
      modifies this
      ensures configs == Applied(old(configs), o)
    {
      ghost var was := configs;
      var backendExist := false;
      if IsOobBackend(o.backend) {
        for i := 0 to |configs|
          invariant |configs| == |was|
          invariant forall j | 0 <= j < i :: configs[j] == ApplyIfMatching(was[j], o)
          invariant forall j | i <= j < |was| :: configs[j] == was[j]
          invariant backendExist <==> exists j :: 0 <= j < i && Matches(was[j], o)
        {
          if configs[i].targetAddress == o.targetAddress {
            configs := configs[i := ApplyOobOverride(configs[i], o)];
            backendExist := true;
          }
        }
        assert configs == ApplyEach(was, o);
        if !backendExist { configs := configs + [ApplyOobOverride(EMPTY, o)]; }
        return;
      }
      for i := 0 to |configs|
        invariant |configs| == |was|
        invariant forall j | 0 <= j < i :: configs[j] == ApplyIfMatching(was[j], o)
        invariant forall j | i <= j < |was| :: configs[j] == was[j]
        invariant backendExist <==> exists j :: 0 <= j < i && Matches(was[j], o)
      {
        if configs[i].hostAddress == o.targetAddress {
          configs := configs[i := ApplyIbOverride(configs[i], o)];
          backendExist := true;
        }
      }
      assert configs == ApplyEach(was, o);
      if !backendExist { configs := configs + [ApplyIbOverride(EMPTY, o)]; }
    }

    /** Applies to the first configuration, which is added when there is none. */
    method ApplySingleNodeOverride(flags: Flags)
      modifies this
      ensures |old(configs)| <= 1 ==>
                configs == [AppliedSingle(if old(configs) == [] then EMPTY else old(configs)[0], flags)]
      ensures |old(configs)| > 1 ==> configs == old(configs)[0 := AppliedSingle(old(configs)[0], flags)]
    {
      if configs == [] { configs := [EMPTY]; }
      var o := SingleNodeOverride(configs[0], flags);
      if flags.proxy != 0 { configs := configs[0 := configs[0].(proxy := flags.proxy)]; }
      configs := configs[0 := ApplyTo(configs[0], o)];
    }

    method ApplyMultiNodeOverrides(flag: seq<NodeOverride>)
      modifies this
      ensures configs == AppliedAll(old(configs), flag)
    {
      if flag == [] { return; }
      for n := 0 to |flag|
        invariant configs == AppliedAll(old(configs), flag[..n])
      {
        assert flag[..n + 1][..n] == flag[..n];
        ApplyNodeOverride(flag[n]);
      }
      assert flag[..|flag|] == flag;
    }
  }

  // ---- Reference: the last override that sets a field decides it ----

  /** What a configuration is matched by. */
  datatype Key = Oob(address: string) | Ib(address: string)

  function KeyOf(o: NodeOverride): Key {
    if IsOobBackend(o.backend) then Oob(o.targetAddress) else Ib(o.targetAddress)
  }

  predicate HasKey(c: EntityConfiguration, key: Key) {
    match key case Oob(a) => c.targetAddress == a case Ib(a) => c.hostAddress == a
  }

  predicate Addressed(list: seq<NodeOverride>) { forall j | 0 <= j < |list| :: list[j].targetAddress != "" }

  datatype Field = BackendField | PortField | AuthField | CacheField | NoCacheField | QueriesField

  /** The override assigns the field; all but the backend are Redfish options. */
  predicate Sets(o: NodeOverride, field: Field) {
    match field
    case BackendField => true
    case PortField => IsOobBackend(o.backend) && o.port != 0
    case AuthField => IsOobBackend(o.backend) && o.auth != Default
    case CacheField => IsOobBackend(o.backend) && o.cache.Some? && o.cache.value != NoKind
    case NoCacheField => IsOobBackend(o.backend) && o.cache == Some(NoCache)
    case QueriesField => IsOobBackend(o.backend) && o.queries.Some?
  }

  /** The last override in the list that is about c and sets the field. */
  function LastSetting(c: EntityConfiguration, list: seq<NodeOverride>, field: Field): Option<NodeOverride> {
    if list == [] then None else
    var last := list[|list| - 1];
    if Matches(c, last) && Sets(last, field) then Some(last) else LastSetting(c, list[..|list| - 1], field)
  }

  /** A configuration with every field taken from the last override that sets it. A time-based policy keeps
      the nanoseconds that were configured, unless some override has switched caching off. */
  function Resolved(c: EntityConfiguration, list: seq<NodeOverride>): EntityConfiguration {
    var backend, port := LastSetting(c, list, BackendField), LastSetting(c, list, PortField);
    var auth, queries := LastSetting(c, list, AuthField), LastSetting(c, list, QueriesField);
    c.(
      defaultBackend := if backend.Some? then backend.value.backend else c.defaultBackend,
      port := if port.Some? then port.value.port else c.port,
      auth := if auth.Some? then auth.value.auth else c.auth,
      cache := ResolvedCache(c, list),
      queries := if queries.Some? then queries.value.queries else c.queries)
  }

  function ResolvedCache(c: EntityConfiguration, list: seq<NodeOverride>): CachePolicy {
    var last := LastSetting(c, list, CacheField);
    if last == None then c.cache
    else if last.value.cache == Some(NoCache) then NoCache
    else if last.value.cache.Some? && last.value.cache.value.TimeBased? then
      TimeBased(last.value.cache.value.seconds,
                if c.cache.TimeBased? && LastSetting(c, list, NoCacheField) == None then c.cache.nanos else 0)
    else c.cache
  }

  /** The configuration that an override creates when it finds none, before its other fields are set. */
  function Blank(key: Key): EntityConfiguration {
    match key case Oob(a) => EMPTY.(targetAddress := a) case Ib(a) => EMPTY.(hostAddress := a)
  }

  predicate Known(configs: seq<EntityConfiguration>, key: Key) {
    exists i :: 0 <= i < |configs| && HasKey(configs[i], key)
  }

  function Blanks(list: seq<NodeOverride>, creators: seq<nat>): (r: seq<EntityConfiguration>)
    requires forall i | 0 <= i < |creators| :: creators[i] < |list|
    ensures |r| == |creators| && forall i | 0 <= i < |r| :: r[i] == Blank(KeyOf(list[creators[i]]))
  {
    seq(|creators|, i requires 0 <= i < |creators| => Blank(KeyOf(list[creators[i]])))
  }

  /** The positions of the overrides that find no configuration and so create one. Only keys matter for this:
      an override finds an original configuration, or one that an earlier override has created. */
  function Creators(configs: seq<EntityConfiguration>, list: seq<NodeOverride>): (r: seq<nat>)
    ensures forall i | 0 <= i < |r| :: r[i] < |list|
  {
    if list == [] then [] else
    var n := |list| - 1;
    var before := Creators(configs, list[..n]);
    if MatchesAny(configs + Blanks(list[..n], before), list[n]) then before else before + [n]
  }

  function ResolvedEach(configs: seq<EntityConfiguration>, list: seq<NodeOverride>): (r: seq<EntityConfiguration>)
    ensures |r| == |configs| && forall i | 0 <= i < |r| :: r[i] == Resolved(configs[i], list)
  {
    seq(|configs|, i requires 0 <= i < |configs| => Resolved(configs[i], list))
  }

  /** A created configuration, with what its creator and the overrides behind it set. */
  function Created(list: seq<NodeOverride>, j: nat): EntityConfiguration
    requires j < |list|
  {
    Resolved(Blank(KeyOf(list[j])), list[j..])
  }

  function CreatedEach(list: seq<NodeOverride>, creators: seq<nat>): (r: seq<EntityConfiguration>)
    requires forall i | 0 <= i < |creators| :: creators[i] < |list|
    ensures |r| == |creators| && forall i | 0 <= i < |r| :: r[i] == Created(list, creators[i])
  {
    seq(|creators|, i requires 0 <= i < |creators| => Created(list, creators[i]))
  }

  /** Every configuration resolved against the whole list, and behind them one for every creator, resolved
      against the list from there on. */
  function ClosedForm(configs: seq<EntityConfiguration>, list: seq<NodeOverride>): seq<EntityConfiguration> {
    ResolvedEach(configs, list) + CreatedEach(list, Creators(configs, list))
  }

  // ---- The two agree ----

  lemma LastSettingExtend(c: EntityConfiguration, list: seq<NodeOverride>, o: NodeOverride, field: Field)
    ensures LastSetting(c, list + [o], field) ==
            if Matches(c, o) && Sets(o, field) then Some(o) else LastSetting(c, list, field)
  {
    assert (list + [o])[..|list|] == list;
  }

  /** The last setting is about c, sets the field, and nothing behind it does. */
  lemma {:induction false} LastSettingIsLast(c: EntityConfiguration, list: seq<NodeOverride>, field: Field)
    ensures match LastSetting(c, list, field)
            case None => forall j | 0 <= j < |list| :: !(Matches(c, list[j]) && Sets(list[j], field))
            case Some(o) => exists j :: 0 <= j < |list| && list[j] == o && Matches(c, o) && Sets(o, field) &&
                              forall k | j < k < |list| :: !(Matches(c, list[k]) && Sets(list[k], field))
  {
    if list != [] {
      var n := |list| - 1;
      LastSettingIsLast(c, list[..n], field);
      if Matches(c, list[n]) && Sets(list[n], field) {
        assert list[n] == list[n];
      } else if LastSetting(c, list[..n], field).Some? {
        var o := LastSetting(c, list[..n], field).value;
        var j :| 0 <= j < n && list[..n][j] == o && Matches(c, o) && Sets(o, field) &&
                 forall k | j < k < n :: !(Matches(c, list[..n][k]) && Sets(list[..n][k], field));
        forall k | j < k < |list| ensures !(Matches(c, list[k]) && Sets(list[k], field)) {
          if k < n { assert list[..n][k] == list[k]; }
        }
        assert list[j] == o;
      }
    }
  }

  lemma ResolvedExtend(c: EntityConfiguration, list: seq<NodeOverride>, o: NodeOverride)
    ensures Resolved(c, list + [o]) == ApplyIfMatching(Resolved(c, list), o)
  {
    forall field: Field
      ensures LastSetting(c, list + [o], field) ==
              if Matches(c, o) && Sets(o, field) then Some(o) else LastSetting(c, list, field)
    {
      LastSettingExtend(c, list, o, field);
    }
    CacheExtend(c, list, o);
  }

  lemma CacheExtend(c: EntityConfiguration, list: seq<NodeOverride>, o: NodeOverride)
    ensures ResolvedCache(c, list + [o]) ==
            if Matches(c, o) && IsOobBackend(o.backend) then OverriddenCache(ResolvedCache(c, list), o.cache)
            else ResolvedCache(c, list)
  {
    LastSettingExtend(c, list, o, CacheField);
    LastSettingExtend(c, list, o, NoCacheField);
    CacheSettings(c, list);
  }

  lemma {:induction false} CacheSettings(c: EntityConfiguration, list: seq<NodeOverride>)
    ensures LastSetting(c, list, CacheField).Some? ==> Sets(LastSetting(c, list, CacheField).value, CacheField)
    ensures LastSetting(c, list, NoCacheField).Some? ==> LastSetting(c, list, CacheField).Some?
    ensures LastSetting(c, list, CacheField).Some? && LastSetting(c, list, CacheField).value.cache == Some(NoCache) ==>
              LastSetting(c, list, NoCacheField).Some?
  {
    if list != [] { CacheSettings(c, list[..|list| - 1]); }
  }

  /** Nothing is set where nothing matches. */
  lemma {:induction false} NothingSet(c: EntityConfiguration, list: seq<NodeOverride>)
    requires forall j | 0 <= j < |list| :: !Matches(c, list[j])
    ensures Resolved(c, list) == c
  {
    forall field: Field ensures LastSetting(c, list, field) == None { NoSetting(c, list, field); }
  }

  lemma {:induction false} NoSetting(c: EntityConfiguration, list: seq<NodeOverride>, field: Field)
    requires forall j | 0 <= j < |list| :: !Matches(c, list[j])
    ensures LastSetting(c, list, field) == None
  {
    if list != [] { NoSetting(c, list[..|list| - 1], field); }
  }

  /** A creator sets up what resolving a blank configuration gives. */
  lemma {:induction false} CreatorCreates(o: NodeOverride)
    ensures Resolved(Blank(KeyOf(o)), [o]) == ApplyTo(EMPTY, o)
  {
    var blank := Blank(KeyOf(o));
    assert Resolved(blank, []) == blank by { NothingSet(blank, []); }
    assert Resolved(blank, [o]) == ApplyIfMatching(blank, o) by {
      ResolvedExtend(blank, [], o);
      assert [] + [o] == [o];
    }
  }

  lemma CreatorsExtend(configs: seq<EntityConfiguration>, list: seq<NodeOverride>, o: NodeOverride)
    ensures Creators(configs, list + [o]) ==
            if MatchesAny(configs + Blanks(list, Creators(configs, list)), o) then Creators(configs, list)
            else Creators(configs, list) + [|list|]
  {
    assert (list + [o])[..|list|] == list;
  }

  lemma CreatedExtend(list: seq<NodeOverride>, o: NodeOverride, j: nat)
    requires j < |list|
    ensures Created(list + [o], j) == ApplyIfMatching(Created(list, j), o)
  {
    assert (list + [o])[j..] == list[j..] + [o];
    ResolvedExtend(Blank(KeyOf(list[j])), list[j..], o);
  }

  /** Resolving changes no addresses, so an override finds something in the closed form exactly when it finds an
      original or a blank configuration. */
  lemma MatchesClosedForm(configs: seq<EntityConfiguration>, list: seq<NodeOverride>, o: NodeOverride)
    ensures MatchesAny(ClosedForm(configs, list), o) <==>
            MatchesAny(configs + Blanks(list, Creators(configs, list)), o)
  {
    SameMatches(configs + Blanks(list, Creators(configs, list)), ClosedForm(configs, list), o);
  }

  lemma SameMatches(a: seq<EntityConfiguration>, b: seq<EntityConfiguration>, o: NodeOverride)
    requires |a| == |b|
    requires forall i | 0 <= i < |a| :: a[i].hostAddress == b[i].hostAddress && a[i].targetAddress == b[i].targetAddress
    ensures MatchesAny(a, o) <==> MatchesAny(b, o)
  {
    if MatchesAny(a, o) {
      var i :| 0 <= i < |a| && Matches(a[i], o);
      assert Matches(b[i], o);
    }
    if MatchesAny(b, o) {
      var i :| 0 <= i < |b| && Matches(b[i], o);
      assert Matches(a[i], o);
    }
  }

  lemma CreatedEachExtend(list: seq<NodeOverride>, o: NodeOverride, creators: seq<nat>)
    requires forall i | 0 <= i < |creators| :: creators[i] < |list|
    ensures CreatedEach(list + [o], creators) == ApplyEach(CreatedEach(list, creators), o)
  {
    forall i | 0 <= i < |creators|
      ensures CreatedEach(list + [o], creators)[i] == ApplyIfMatching(CreatedEach(list, creators)[i], o)
    {
      CreatedExtend(list, o, creators[i]);
    }
  }

  lemma ResolvedEachExtend(configs: seq<EntityConfiguration>, list: seq<NodeOverride>, o: NodeOverride)
    ensures ResolvedEach(configs, list + [o]) == ApplyEach(ResolvedEach(configs, list), o)
  {
    forall i | 0 <= i < |configs|
      ensures ResolvedEach(configs, list + [o])[i] == ApplyIfMatching(ResolvedEach(configs, list)[i], o)
    {
      ResolvedExtend(configs[i], list, o);
    }
  }

  lemma ApplyEachConcat(a: seq<EntityConfiguration>, b: seq<EntityConfiguration>, o: NodeOverride)
    ensures ApplyEach(a + b, o) == ApplyEach(a, o) + ApplyEach(b, o)
  {
  }

  lemma CreatesOne(list: seq<NodeOverride>, o: NodeOverride, creators: seq<nat>)
    requires forall i | 0 <= i < |creators| :: creators[i] < |list|
    ensures CreatedEach(list + [o], creators + [|list|]) ==
            ApplyEach(CreatedEach(list, creators), o) + [ApplyTo(EMPTY, o)]
  {
    CreatedEachExtend(list, o, creators);
    CreatorCreates(o);
    assert (list + [o])[|list|..] == [o];
  }

  lemma ClosedFormStep(configs: seq<EntityConfiguration>, list: seq<NodeOverride>, o: NodeOverride)
    ensures Applied(ClosedForm(configs, list), o) == ClosedForm(configs, list + [o])
  {
    var creators := Creators(configs, list);
    var r, c := ResolvedEach(configs, list), CreatedEach(list, creators);
    ApplyEachConcat(r, c, o);
    assert ClosedForm(configs, list + [o]) == ApplyEach(r, o) + CreatedEach(list + [o], Creators(configs, list + [o])) by {
      ResolvedEachExtend(configs, list, o);
    }
    assert Creators(configs, list + [o]) == if MatchesAny(r + c, o) then creators else creators + [|list|] by {
      MatchesClosedForm(configs, list, o);
      CreatorsExtend(configs, list, o);
    }
    CreatedEachExtend(list, o, creators);
    CreatesOne(list, o, creators);
  }

  /** For any list of overrides: every configuration keeps its place and, field by field, takes the value of the
      last matching override that sets it; every override that finds nothing adds one configuration, which the
      list from there on decides. */
  lemma {:induction false} LastWriteWins(configs: seq<EntityConfiguration>, list: seq<NodeOverride>)
    ensures AppliedAll(configs, list) == ClosedForm(configs, list)
  {
    if list == [] {
      forall i | 0 <= i < |configs| ensures Resolved(configs[i], []) == configs[i] { NothingSet(configs[i], []); }
    } else {
      var n := |list| - 1;
      LastWriteWins(configs, list[..n]);
      assert list == list[..n] + [list[n]];
      ClosedFormStep(configs, list[..n], list[n]);
    }
  }

  // ---- Consequences ----

  /** The different keys of the list that no configuration has. */
  function UnseenKeys(configs: seq<EntityConfiguration>, list: seq<NodeOverride>): set<Key> {
    set j | 0 <= j < |list| && !Known(configs, KeyOf(list[j])) :: KeyOf(list[j])
  }

  /** After the first n overrides, the n-th finds what it is about. */
  ghost predicate Found(configs: seq<EntityConfiguration>, list: seq<NodeOverride>, creators: seq<nat>, o: NodeOverride)
    requires forall i | 0 <= i < |creators| :: creators[i] < |list|
  {
    MatchesAny(configs, o) || exists i :: 0 <= i < |creators| && Matches(Blank(KeyOf(list[creators[i]])), o)
  }

  lemma FoundIsMatched(configs: seq<EntityConfiguration>, list: seq<NodeOverride>, creators: seq<nat>, o: NodeOverride)
    requires forall i | 0 <= i < |creators| :: creators[i] < |list|
    ensures MatchesAny(configs + Blanks(list, creators), o) <==> Found(configs, list, creators, o)
  {
    var all := configs + Blanks(list, creators);
    if MatchesAny(all, o) {
      var i :| 0 <= i < |all| && Matches(all[i], o);
      if i >= |configs| { assert Matches(Blank(KeyOf(list[creators[i - |configs|]])), o); }
    }
    if MatchesAny(configs, o) {
      var i :| 0 <= i < |configs| && Matches(configs[i], o);
      assert all[i] == configs[i];
    } else if Found(configs, list, creators, o) {
      var i :| 0 <= i < |creators| && Matches(Blank(KeyOf(list[creators[i]])), o);
      assert all[|configs| + i] == Blank(KeyOf(list[creators[i]]));
    }
  }

  lemma CreatorsStep(configs: seq<EntityConfiguration>, list: seq<NodeOverride>)
    requires list != []
    ensures var n := |list| - 1; var before := Creators(configs, list[..n]);
            && Creators(configs, list) == (if Found(configs, list, before, list[n]) then before else before + [n])
            && forall i | 0 <= i < |before| :: before[i] < n
  {
    var n := |list| - 1;
    var before := Creators(configs, list[..n]);
    FoundIsMatched(configs, list[..n], before, list[n]);
    assert forall i | 0 <= i < |before| :: list[..n][before[i]] == list[before[i]];
  }

  lemma KnownMatches(configs: seq<EntityConfiguration>, o: NodeOverride)
    ensures Known(configs, KeyOf(o)) <==> MatchesAny(configs, o)
  {
    forall i | 0 <= i < |configs| ensures HasKey(configs[i], KeyOf(o)) <==> Matches(configs[i], o) {}
  }

  /** A creator finds neither an original configuration nor one with the key of an earlier override. */
  lemma {:induction false} CreatorsFindNothing(configs: seq<EntityConfiguration>, list: seq<NodeOverride>, i: nat)
    requires i < |Creators(configs, list)|
    ensures var j := Creators(configs, list)[i];
            && !Known(configs, KeyOf(list[j]))
            && (forall p | 0 <= p < j :: KeyOf(list[p]) != KeyOf(list[j]))
            && (forall h | 0 <= h < i :: Creators(configs, list)[h] < j)
  {
    var n := |list| - 1;
    var before := Creators(configs, list[..n]);
    CreatorsStep(configs, list);
    if i < |before| {
      CreatorsFindNothing(configs, list[..n], i);
    } else {
      assert !Found(configs, list[..n], before, list[n]) by { FoundIsMatched(configs, list[..n], before, list[n]); }
      forall p | 0 <= p < n ensures KeyOf(list[p]) != KeyOf(list[n]) {
        EveryOverrideFinds(configs, list[..n], p);
        SameKeyFound(configs, list[..n], before, list[p], list[n]);
      }
      KnownMatches(configs, list[n]);
    }
  }

  /** In the end every override finds an original configuration or one that was created. */
  lemma {:induction false} EveryOverrideFinds(configs: seq<EntityConfiguration>, list: seq<NodeOverride>, p: nat)
    requires p < |list|
    ensures Found(configs, list, Creators(configs, list), list[p])
  {
    var n := |list| - 1;
    var before, all := Creators(configs, list[..n]), Creators(configs, list);
    CreatorsStep(configs, list);
    if p < n {
      EveryOverrideFinds(configs, list[..n], p);
      FoundLater(configs, list, before, all, list[p]);
    } else if Found(configs, list, before, list[n]) {
      FoundLater(configs, list, before, all, list[n]);
    } else {
      assert all[|before|] == n && Matches(Blank(KeyOf(list[n])), list[n]);
    }
  }

  lemma FoundLater(configs: seq<EntityConfiguration>, list: seq<NodeOverride>, before: seq<nat>, all: seq<nat>, o: NodeOverride)
    requires list != [] && before <= all && (forall i | 0 <= i < |before| :: before[i] < |list| - 1)
    requires forall i | 0 <= i < |all| :: all[i] < |list|
    requires Found(configs, list[..|list| - 1], before, o) || Found(configs, list, before, o)
    ensures Found(configs, list, all, o)
  {
    if !MatchesAny(configs, o) {
      var i :| 0 <= i < |before| && Matches(Blank(KeyOf(list[before[i]])), o);
      assert all[i] == before[i];
    }
  }

  lemma SameKeyFound(configs: seq<EntityConfiguration>, list: seq<NodeOverride>, creators: seq<nat>, o: NodeOverride,
                     q: NodeOverride)
    requires forall i | 0 <= i < |creators| :: creators[i] < |list|
    requires Found(configs, list, creators, o)
    ensures KeyOf(q) == KeyOf(o) ==> Found(configs, list, creators, q)
  {
    if KeyOf(q) == KeyOf(o) {
      assert forall c :: Matches(c, q) <==> Matches(c, o);
      if MatchesAny(configs, o) {
        var i :| 0 <= i < |configs| && Matches(configs[i], o);
        assert Matches(configs[i], q);
      } else {
        var i :| 0 <= i < |creators| && Matches(Blank(KeyOf(list[creators[i]])), o);
        assert Matches(Blank(KeyOf(list[creators[i]])), q);
      }
    }
  }

  // ---- Applying a list twice ----

  lemma {:induction false} SameSettings(c: EntityConfiguration, d: EntityConfiguration, list: seq<NodeOverride>,
                                        field: Field)
    requires c.hostAddress == d.hostAddress && c.targetAddress == d.targetAddress
    ensures LastSetting(c, list, field) == LastSetting(d, list, field)
  {
    if list != [] { SameSettings(c, d, list[..|list| - 1], field); }
  }

  lemma {:induction false} SettingsConcat(c: EntityConfiguration, a: seq<NodeOverride>, b: seq<NodeOverride>, field: Field)
    ensures LastSetting(c, a + b, field) ==
            if LastSetting(c, b, field).Some? then LastSetting(c, b, field) else LastSetting(c, a, field)
  {
    if b == [] {
      assert a + b == a;
    } else {
      var n := |b| - 1;
      SettingsConcat(c, a, b[..n], field);
      assert (a + b)[..|a| + n] == a + b[..n];
    }
  }

  lemma ResolvedTwice(c: EntityConfiguration, list: seq<NodeOverride>)
    ensures Resolved(Resolved(c, list), list) == Resolved(c, list)
  {
    forall field: Field
      ensures LastSetting(Resolved(c, list), list, field) == LastSetting(c, list, field)
    {
      SameSettings(Resolved(c, list), c, list, field);
    }
    CacheSettings(c, list);
  }

  /** The fields that only Redfish overrides set. */
  predicate IsOption(field: Field) {
    field == PortField || field == AuthField || field == CacheField || field == QueriesField
  }

  /** A Redfish override with no address, which every configuration without a Redfish address matches. */
  predicate SetsUnaddressed(o: NodeOverride, field: Field) {
    IsOobBackend(o.backend) && o.targetAddress == "" && Sets(o, field)
  }

  /** The configuration that the in-band override at j creates has missed an option that an earlier override
      without an address sets, and no later one resets. */
  ghost predicate Leak(list: seq<NodeOverride>, j: nat, field: Field) {
    && j < |list| && !IsOobBackend(list[j].backend) && IsOption(field)
    && (exists p :: 0 <= p < j && SetsUnaddressed(list[p], field))
    && forall q | j < q < |list| :: !SetsUnaddressed(list[q], field)
  }

  ghost predicate LeaksAt(list: seq<NodeOverride>, j: nat) { exists field :: Leak(list, j, field) }

  ghost predicate Leaks(configs: seq<EntityConfiguration>, list: seq<NodeOverride>) {
    exists i :: 0 <= i < |Creators(configs, list)| && LeaksAt(list, Creators(configs, list)[i])
  }

  /** What the overrides before the creator would set, and those behind it do not. */
  predicate Missed(list: seq<NodeOverride>, j: nat, field: Field)
    requires j < |list|
  {
    && LastSetting(Blank(KeyOf(list[j])), list[j..], field) == None
    && LastSetting(Blank(KeyOf(list[j])), list[..j], field).Some?
  }

  lemma MissedIsLeak(list: seq<NodeOverride>, j: nat, field: Field)
    requires j < |list| && IsOption(field)
    requires forall p | 0 <= p < j :: KeyOf(list[p]) != KeyOf(list[j])
    ensures Missed(list, j, field) <==> Leak(list, j, field)
  {
    var blank := Blank(KeyOf(list[j]));
    LastSettingIsLast(blank, list[j..], field);
    LastSettingIsLast(blank, list[..j], field);
    forall p | 0 <= p < j
      ensures list[..j][p] == list[p]
      ensures Matches(blank, list[p]) && Sets(list[p], field) <==>
              !IsOobBackend(list[j].backend) && SetsUnaddressed(list[p], field)
    {
    }
    forall q | j <= q < |list|
      ensures list[j..][q - j] == list[q]
      ensures !IsOobBackend(list[j].backend) ==>
                (Matches(blank, list[q]) && Sets(list[q], field) <==> SetsUnaddressed(list[q], field))
    {
    }
  }

  lemma {:induction false} SettingSets(c: EntityConfiguration, list: seq<NodeOverride>, field: Field)
    ensures LastSetting(c, list, field).Some? ==>
              Matches(c, LastSetting(c, list, field).value) && Sets(LastSetting(c, list, field).value, field)
  {
    if list != [] { SettingSets(c, list[..|list| - 1], field); }
  }

  /** What decides a field of a created configuration in a second pass. */
  lemma {:induction false} SecondPass(list: seq<NodeOverride>, j: nat, field: Field)
    requires j < |list|
    ensures var blank := Blank(KeyOf(list[j]));
            LastSetting(Created(list, j), list, field) ==
            if LastSetting(blank, list[j..], field).Some? then LastSetting(blank, list[j..], field)
            else LastSetting(blank, list[..j], field)
  {
    var blank := Blank(KeyOf(list[j]));
    SameSettings(Created(list, j), blank, list, field);
    SettingsConcat(blank, list[..j], list[j..], field);
    assert list[..j] + list[j..] == list;
    SettingSets(blank, list[..j], field);
  }

  lemma CacheTwice(list: seq<NodeOverride>, j: nat)
    requires j < |list|
    ensures ResolvedCache(Created(list, j), list) == Created(list, j).cache <==> !Missed(list, j, CacheField)
  {
    var blank := Blank(KeyOf(list[j]));
    SecondPass(list, j, CacheField);
    SettingSets(blank, list[..j], CacheField);
    SettingSets(blank, list[j..], CacheField);
  }

  lemma BackendTwice(list: seq<NodeOverride>, j: nat)
    requires j < |list|
    ensures LastSetting(Created(list, j), list, BackendField).Some?
    ensures Created(list, j).defaultBackend == LastSetting(Created(list, j), list, BackendField).value.backend
  {
    var blank := Blank(KeyOf(list[j]));
    LastSettingIsLast(blank, list[j..], BackendField);
    assert list[j..][0] == list[j] && Matches(blank, list[j]);
    SecondPass(list, j, BackendField);
  }

  /** A created configuration stays as it is in a second pass exactly when it has missed nothing. */
  lemma CreatedTwice(list: seq<NodeOverride>, j: nat)
    requires j < |list|
    ensures Resolved(Created(list, j), list) == Created(list, j) <==>
            forall field | IsOption(field) :: !Missed(list, j, field)
  {
    forall field: Field | IsOption(field)
      ensures Missed(list, j, field) ==> Sets(LastSetting(Blank(KeyOf(list[j])), list[..j], field).value, field)
    {
      SettingSets(Blank(KeyOf(list[j])), list[..j], field);
    }
    SecondPass(list, j, PortField);
    SecondPass(list, j, AuthField);
    SecondPass(list, j, QueriesField);
    CacheTwice(list, j);
    BackendTwice(list, j);
    assert (forall field | IsOption(field) :: !Missed(list, j, field)) <==>
           !Missed(list, j, PortField) && !Missed(list, j, AuthField) && !Missed(list, j, CacheField) &&
           !Missed(list, j, QueriesField);
  }

  lemma {:induction false} NothingCreatedAgain(configs: seq<EntityConfiguration>, list: seq<NodeOverride>, n: nat)
    requires n <= |list|
    ensures Creators(ClosedForm(configs, list), list[..n]) == []
  {
    var once := ClosedForm(configs, list);
    if n > 0 {
      NothingCreatedAgain(configs, list, n - 1);
      assert list[..n][..n - 1] == list[..n - 1];
      assert once + Blanks(list[..n - 1], []) == once;
      EveryOverrideFinds(configs, list, n - 1);
      FoundIsMatched(configs, list, Creators(configs, list), list[n - 1]);
      MatchesClosedForm(configs, list, list[n - 1]);
    }
  }

  lemma SecondIsResolved(configs: seq<EntityConfiguration>, list: seq<NodeOverride>)
    ensures AppliedAll(AppliedAll(configs, list), list) == ResolvedEach(AppliedAll(configs, list), list)
  {
    LastWriteWins(configs, list);
    LastWriteWins(ClosedForm(configs, list), list);
    NothingCreatedAgain(configs, list, |list|);
    assert list[..|list|] == list;
  }

  lemma CreatedLeaks(list: seq<NodeOverride>, j: nat)
    requires j < |list|
    requires forall p | 0 <= p < j :: KeyOf(list[p]) != KeyOf(list[j])
    ensures Resolved(Created(list, j), list) == Created(list, j) <==> !LeaksAt(list, j)
  {
    CreatedTwice(list, j);
    forall field | IsOption(field) ensures Missed(list, j, field) <==> Leak(list, j, field) {
      MissedIsLeak(list, j, field);
    }
  }

  lemma {:induction false} CreatorLeaks(configs: seq<EntityConfiguration>, list: seq<NodeOverride>, i: nat)
    requires i < |Creators(configs, list)|
    ensures var j := Creators(configs, list)[i];
            Resolved(Created(list, j), list) == Created(list, j) <==> !LeaksAt(list, j)
  {
    CreatorsFindNothing(configs, list, i);
    CreatedLeaks(list, Creators(configs, list)[i]);
  }

  predicate Settled(configs: seq<EntityConfiguration>, list: seq<NodeOverride>) {
    forall k | 0 <= k < |configs| :: Resolved(configs[k], list) == configs[k]
  }

  lemma {:induction false} SettledConcat(a: seq<EntityConfiguration>, b: seq<EntityConfiguration>,
                                         list: seq<NodeOverride>)
    ensures Settled(a + b, list) <==> Settled(a, list) && Settled(b, list)
  {
    var all := a + b;
    assert forall k | 0 <= k < |a| :: all[k] == a[k];
    assert forall k | 0 <= k < |b| :: all[|a| + k] == b[k];
  }

  /** A second pass leaves the original configurations alone. */
  lemma {:induction false} OriginalsSettled(configs: seq<EntityConfiguration>, list: seq<NodeOverride>)
    ensures Settled(ResolvedEach(configs, list), list)
  {
    var once := ResolvedEach(configs, list);
    forall k | 0 <= k < |once| ensures Resolved(once[k], list) == once[k] { ResolvedTwice(configs[k], list); }
  }

  /** It leaves the created ones alone exactly when nothing leaks. */
  lemma {:induction false} CreatedSettled(configs: seq<EntityConfiguration>, list: seq<NodeOverride>)
    ensures Settled(CreatedEach(list, Creators(configs, list)), list) <==> !Leaks(configs, list)
  {
    var creators := Creators(configs, list);
    var created := CreatedEach(list, creators);
    forall i | 0 <= i < |creators|
      ensures Resolved(created[i], list) == created[i] <==> !LeaksAt(list, creators[i])
    {
      CreatorLeaks(configs, list, i);
    }
  }

  lemma {:induction false} ClosedFormSettles(configs: seq<EntityConfiguration>, list: seq<NodeOverride>)
    ensures Settled(ClosedForm(configs, list), list) <==> !Leaks(configs, list)
  {
    OriginalsSettled(configs, list);
    CreatedSettled(configs, list);
    SettledConcat(ResolvedEach(configs, list), CreatedEach(list, Creators(configs, list)), list);
  }

  lemma SettledIsUnchanged(configs: seq<EntityConfiguration>, list: seq<NodeOverride>)
    ensures ResolvedEach(configs, list) == configs <==> Settled(configs, list)
  {
    if ResolvedEach(configs, list) == configs {
      forall k | 0 <= k < |configs| ensures Resolved(configs[k], list) == configs[k] {
        assert ResolvedEach(configs, list)[k] == configs[k];
      }
    }
  }

  /** Applying a list twice is applying it once, exactly when no configuration that the list creates has missed
      an option of an earlier override without an address. */
  lemma ApplyingTwice(configs: seq<EntityConfiguration>, list: seq<NodeOverride>)
    ensures AppliedAll(AppliedAll(configs, list), list) == AppliedAll(configs, list) <==> !Leaks(configs, list)
  {
    LastWriteWins(configs, list);
    SecondIsResolved(configs, list);
    SettledIsUnchanged(AppliedAll(configs, list), list);
    ClosedFormSettles(configs, list);
  }

  /** Nothing is missed when every override has an address. */
  lemma AddressedNeverLeaks(configs: seq<EntityConfiguration>, list: seq<NodeOverride>)
    requires Addressed(list)
    ensures AppliedAll(AppliedAll(configs, list), list) == AppliedAll(configs, list)
  {
    ApplyingTwice(configs, list);
  }

  /** An override that finds nothing creates. */
  lemma FindsNothing(configs: seq<EntityConfiguration>, list: seq<NodeOverride>, o: NodeOverride)
    requires forall i | 0 <= i < |configs| :: !Matches(configs[i], o)
    requires forall i | 0 <= i < |Creators(configs, list)| :: !Matches(Blank(KeyOf(list[Creators(configs, list)[i]])), o)
    ensures Creators(configs, list + [o]) == Creators(configs, list) + [|list|]
  {
    CreatorsExtend(configs, list, o);
    FoundIsMatched(configs, list, Creators(configs, list), o);
  }

  const UNADDRESSED := NodeOverride(Redfish, "", 443, Default, None, None)
  const IN_BAND := NodeOverride(Host, "a", 0, Default, None, None)

  lemma {:induction false} FirstCreates()
    ensures Creators([], [UNADDRESSED]) == [0]
  {
    FindsNothing([], [], UNADDRESSED);
    assert [] + [UNADDRESSED] == [UNADDRESSED];
  }

  lemma {:induction false} BothCreate()
    ensures Creators([], [UNADDRESSED, IN_BAND]) == [0, 1]
  {
    FirstCreates();
    FindsNothing([], [UNADDRESSED], IN_BAND);
    assert [UNADDRESSED] + [IN_BAND] == [UNADDRESSED, IN_BAND];
  }

  lemma {:induction false} SecondMissesPort()
    ensures LeaksAt([UNADDRESSED, IN_BAND], 1)
  {
    assert SetsUnaddressed([UNADDRESSED, IN_BAND][0], PortField);
    assert Leak([UNADDRESSED, IN_BAND], 1, PortField);
  }

  /** A list that leaks: the in-band configuration it adds has no Redfish address, so a second pass sets its port. */
  lemma {:induction false} EmptyAddressLeaks()
    ensures var list := [UNADDRESSED, IN_BAND];
            Leaks([], list) && AppliedAll(AppliedAll([], list), list) != AppliedAll([], list)
  {
    BothCreate();
    SecondMissesPort();
    assert Creators([], [UNADDRESSED, IN_BAND])[1] == 1;
    ApplyingTwice([], [UNADDRESSED, IN_BAND]);
  }

  // ---- How many configurations a list adds ----

  function CreatorKeys(list: seq<NodeOverride>, creators: seq<nat>): set<Key>
    requires forall i | 0 <= i < |creators| :: creators[i] < |list|
  {
    set i | 0 <= i < |creators| :: KeyOf(list[creators[i]])
  }

  lemma {:induction false} DistinctKeys(list: seq<NodeOverride>, creators: seq<nat>)
    requires forall i | 0 <= i < |creators| :: creators[i] < |list|
    requires forall h, i | 0 <= h < i < |creators| :: KeyOf(list[creators[h]]) != KeyOf(list[creators[i]])
    ensures |CreatorKeys(list, creators)| == |creators|
  {
    if creators == [] {
      assert CreatorKeys(list, creators) == {};
    } else {
      var n := |creators| - 1;
      DistinctKeys(list, creators[..n]);
      assert CreatorKeys(list, creators) == CreatorKeys(list, creators[..n]) + {KeyOf(list[creators[n]])};
    }
  }

  /** Every creator has a key of its own. */
  lemma CreatorsDistinct(configs: seq<EntityConfiguration>, list: seq<NodeOverride>)
    ensures |CreatorKeys(list, Creators(configs, list))| == |Creators(configs, list)|
  {
    var creators := Creators(configs, list);
    forall h, i | 0 <= h < i < |creators| ensures KeyOf(list[creators[h]]) != KeyOf(list[creators[i]]) {
      CreatorsFindNothing(configs, list, i);
    }
    DistinctKeys(list, creators);
  }

  /** Creators have unseen keys. An unseen key with an address has a creator; one without may find a configuration
      that an override of the other kind has created. */
  lemma UnseenKeysCreate(configs: seq<EntityConfiguration>, list: seq<NodeOverride>)
    ensures CreatorKeys(list, Creators(configs, list)) <= UnseenKeys(configs, list)
    ensures UnseenKeys(configs, list) <= CreatorKeys(list, Creators(configs, list)) + {Oob(""), Ib("")}
  {
    var creators := Creators(configs, list);
    forall i: nat | i < |creators| ensures KeyOf(list[creators[i]]) in UnseenKeys(configs, list) {
      CreatorsFindNothing(configs, list, i);
    }
    forall p | 0 <= p < |list| && !Known(configs, KeyOf(list[p]))
      ensures KeyOf(list[p]) in CreatorKeys(list, creators) + {Oob(""), Ib("")}
    {
      EveryOverrideFinds(configs, list, p);
      KnownMatches(configs, list[p]);
      var i :| 0 <= i < |creators| && Matches(Blank(KeyOf(list[creators[i]])), list[p]);
      assert KeyOf(list[creators[i]]) in CreatorKeys(list, creators);
    }
  }

  /** Addresses never change, a configuration that no override is about does not change at all, and one
      configuration is added for every unseen key with an address. */
  lemma KeysUnchanged(configs: seq<EntityConfiguration>, list: seq<NodeOverride>)
    ensures var all := AppliedAll(configs, list);
            && |all| == |configs| + |CreatorKeys(list, Creators(configs, list))|
            && (Addressed(list) ==> |all| == |configs| + |UnseenKeys(configs, list)|)
            && forall i | 0 <= i < |configs| ::
                 && all[i].hostAddress == configs[i].hostAddress && all[i].targetAddress == configs[i].targetAddress
                 && ((forall j | 0 <= j < |list| :: !Matches(configs[i], list[j])) ==> all[i] == configs[i])
  {
    LastWriteWins(configs, list);
    CreatorsDistinct(configs, list);
    UnseenKeysCreate(configs, list);
    forall i | 0 <= i < |configs| && forall j | 0 <= j < |list| :: !Matches(configs[i], list[j])
      ensures Resolved(configs[i], list) == configs[i]
    {
      NothingSet(configs[i], list);
    }
    if Addressed(list) { AddressedKeys(configs, list); }
  }

  lemma AddressedKeys(configs: seq<EntityConfiguration>, list: seq<NodeOverride>)
    requires Addressed(list)
    ensures UnseenKeys(configs, list) == CreatorKeys(list, Creators(configs, list))
  {
    UnseenKeysCreate(configs, list);
    assert Oob("") !in UnseenKeys(configs, list) && Ib("") !in UnseenKeys(configs, list);
  }
}
