/** Input settings layered under a request (internal/state/input_config.go, local_input_config.go). */
module InputLayers {
  import opened Wrappers
  import opened Text
  import opened Sorting

  // The raw JSON text of one top-level value.
  type Value = string

  datatype Document = Object(fields: map<string, Value>) | Other(text: string)

  datatype InputConfig = InputConfig(app: string, action: string, client: string, config: map<string, Value>, lockedKeys: seq<string>)

  datatype ResolveError = NotAnObject | Locked(keys: set<string>) | UnknownClient

  datatype SettingError = InvalidConfig | ClientNotFound

  function Rank(c: InputConfig): nat {
    (if c.action != "" then 1 else 0) + (if c.client != "" then 2 else 0)
  }

  predicate LowerRank(a: InputConfig, b: InputConfig) {
    Rank(a) < Rank(b)
  }

  // The configs ResolveInput selects: at most one for each of app, action, client app and client action.
  ghost predicate DistinctRanks(configs: seq<InputConfig>) {
    forall i, k :: 0 <= i < k < |configs| ==>
      (configs[i].action == "") != (configs[k].action == "") || (configs[i].client == "") != (configs[k].client == "")
  }

  /** What the layers set, later ones over earlier ones. */
  function Overlaid(layers: seq<InputConfig>): map<string, Value> {
    if layers == [] then map[] else Overlaid(layers[..|layers| - 1]) + layers[|layers| - 1].config
  }

  function LockedIn(layers: seq<InputConfig>): set<string> {
    set l, k | l in layers && k in l.lockedKeys :: k
  }

  /** ApplyInputOverlay. */
  method ApplyInputOverlay(request: map<string, Value>, layers: seq<InputConfig>) returns (effective: map<string, Value>, rejected: seq<string>)
    ensures effective == Overlaid(layers) + (request - LockedIn(layers))
    ensures Enumerates(rejected, request.Keys * LockedIn(layers)) && SortedBy(rejected, Less)
  {
    effective := map[];
    var locked: set<string> := {};
    for i := 0 to |layers|
      invariant effective == Overlaid(layers[..i])
      invariant locked == LockedIn(layers[..i])
    {
      assert layers[..i + 1] == layers[..i] + [layers[i]];
      assert layers[..i + 1][..i] == layers[..i];
      effective := PutAll(effective, layers[i].config);
      locked := AddAll(locked, layers[i].lockedKeys);
      LockedOneMore(layers[..i], layers[i]);
    }
    assert layers[..|layers|] == layers;
    ghost var settings := effective;
    rejected := [];
    var todo := request.Keys;
    while todo != {}
      invariant todo <= request.Keys && Distinct(rejected)
      invariant forall k :: k in rejected <==> k in request && k in locked && k !in todo
      invariant effective == settings + (request - locked - todo)
      decreases todo
    {
      var k :| k in todo;
      todo := todo - {k};
      if k in locked {
        rejected := rejected + [k];
      } else {
        effective := effective[k := request[k]];
      }
    }
    assert request - locked - {} == request - locked;
    KeyOrderIsWeak();
    SortEnumeration(rejected, request.Keys * locked, Less);
    rejected := Sort(rejected, Less);
  }

  lemma LockedOneMore(layers: seq<InputConfig>, l: InputConfig)
    ensures LockedIn(layers + [l]) == LockedIn(layers) + set k | k in l.lockedKeys
  {}

  method PutAll(target: map<string, Value>, values: map<string, Value>) returns (merged: map<string, Value>)
    ensures merged == target + values
  {
    merged := target;
    var todo := values.Keys;
    while todo != {}
      invariant todo <= values.Keys
      invariant merged == target + (values - todo)
      decreases todo
    {
      var k :| k in todo;
      todo := todo - {k};
      merged := merged[k := values[k]];
    }
    assert values - {} == values;
  }

  method AddAll(target: set<string>, keys: seq<string>) returns (all: set<string>)
    ensures all == target + set k | k in keys
  {
    all := target;
    for i := 0 to |keys|
      invariant all == target + set k | k in keys[..i]
    {
      assert keys[..i + 1] == keys[..i] + [keys[i]];
      all := all + {keys[i]};
    }
    assert keys[..|keys|] == keys;
  }

  lemma KeyOrderIsWeak()
    ensures StrictWeak(Less)
  {
    forall a: string, b: string ensures Less(a, b) ==> !Less(b, a) { LessIsTotal(a, b); }
    forall a: string, b: string, c: string | !Less(b, a) && !Less(c, b) ensures !Less(c, a) {
      LessIsTotal(a, b);
      LessIsTotal(b, c);
      LessIsTotal(a, c);
      if Less(a, b) && Less(b, c) { LessIsTransitive(a, b, c); }
    }
  }

  /** resolveInputConfigs. */
  function Resolve(request: Document, configs: seq<InputConfig>): Result<Document, ResolveError> {
    if configs == [] then Success(request)
    else if request.Other? then Failure(NotAnObject)
    else
      var layers := Sort(configs, LowerRank);
      var rejected := request.fields.Keys * LockedIn(layers);
      if rejected != {} then Failure(Locked(rejected)) else Success(Object(Overlaid(layers) + request.fields))
  }

  method ResolveInputConfigs(request: Document, configs: seq<InputConfig>) returns (r: Result<Document, ResolveError>, rejected: seq<string>)
    ensures r == Resolve(request, configs)
    ensures r.Failure? && r.error.Locked? ==> Enumerates(rejected, r.error.keys) && SortedBy(rejected, Less)
  {
    rejected := [];
    if configs == [] {
      return Success(request), rejected;
    }
    if request.Other? {
      return Failure(NotAnObject), rejected;
    }
    var layers := Sort(configs, LowerRank);
    var effective, refused := ApplyInputOverlay(request.fields, layers);
    rejected := refused;
    if |rejected| > 0 {
      assert rejected[0] in request.fields.Keys * LockedIn(layers);
      assert (set k | k in rejected) == request.fields.Keys * LockedIn(layers);
      return Failure(Locked(set k | k in rejected)), rejected;
    }
    assert request.fields.Keys * LockedIn(layers) == (set k | k in rejected) == {};
    NothingLocked(request.fields, LockedIn(layers));
    r := Success(Object(effective));
  }

  lemma NothingLocked(fields: map<string, Value>, locked: set<string>)
    requires fields.Keys * locked == {}
    ensures fields - locked == fields
  {
    forall k | k in fields ensures k !in locked { assert k in fields.Keys * locked <==> k in locked; }
  }

  // What resolution means.

  lemma RankIsWeak()
    ensures StrictWeak(LowerRank)
  {
  }

  lemma {:induction false} LayersInOrder(configs: seq<InputConfig>)
    requires DistinctRanks(configs)
    ensures var layers := Sort(configs, LowerRank);
      && (forall c :: c in layers <==> c in configs) && LockedIn(layers) == LockedIn(configs)
      && (forall i, k | 0 <= i < k < |layers| :: Rank(layers[i]) < Rank(layers[k]))
  {
    var layers := Sort(configs, LowerRank);
    RankIsWeak();
    SortSorts(configs, LowerRank);
    SameElements(layers, configs);
    assert Distinct(configs);
    forall x ensures multiset(layers)[x] <= 1 { MultiplicityOfDistinct(configs, x); }
    DistinctByMultiset(layers);
    hide Rank;
    forall i, k | 0 <= i < k < |layers| ensures Rank(layers[i]) < Rank(layers[k]) {
      assert !LowerRank(layers[k], layers[i]);
      assert layers[i] in configs && layers[k] in configs;
      RanksDiffer(configs, layers[i], layers[k]);
    }
  }

  lemma RanksDiffer(configs: seq<InputConfig>, a: InputConfig, b: InputConfig)
    requires DistinctRanks(configs) && a in configs && b in configs && a != b
    ensures Rank(a) != Rank(b)
  {
  }

  /** A setting for a client goes before one for everybody, and of two that agree in this, one for an action before one for the app. */
  predicate Outranks(c: InputConfig, d: InputConfig) {
    || (c.client != "" && d.client == "")
    || ((c.client != "") == (d.client != "") && c.action != "" && d.action == "")
  }

  // c goes before every other of the configs that set the key.
  predicate Decides(configs: seq<InputConfig>, key: string, c: InputConfig) {
    c in configs && key in c.config && forall d | d in configs && key in d.config && d != c :: Outranks(c, d)
  }

  lemma OutranksByRank(c: InputConfig, d: InputConfig)
    ensures Outranks(c, d) <==> Rank(d) < Rank(c)
  {}

  /** Some setting decides every key that is set. */
  lemma {:induction false} SomeDecides(layers: seq<InputConfig>, key: string) returns (c: InputConfig)
    requires (forall i, k | 0 <= i < k < |layers| :: Rank(layers[i]) < Rank(layers[k])) && exists d :: d in layers && key in d.config
    ensures Decides(layers, key, c)
  {
    hide Rank, Outranks;
    var front, last := layers[..|layers| - 1], layers[|layers| - 1];
    assert layers == front + [last];
    if key in last.config {
      c := last;
      forall d | d in layers && key in d.config && d != c ensures Outranks(c, d) { OutranksByRank(c, d); }
    } else {
      c := SomeDecides(front, key);
    }
  }

  lemma {:induction false} OverlaidBySome(layers: seq<InputConfig>, key: string)
    ensures key in Overlaid(layers) <==> exists c :: c in layers && key in c.config
  {
    if layers != [] {
      var front, last := layers[..|layers| - 1], layers[|layers| - 1];
      OverlaidBySome(front, key);
      assert layers == front + [last];
      assert forall c :: c in layers <==> c in front || c == last;
    }
  }

  lemma {:induction false} OverlaidByHighest(layers: seq<InputConfig>, key: string, c: InputConfig)
    requires (forall i, k | 0 <= i < k < |layers| :: Rank(layers[i]) < Rank(layers[k])) && Decides(layers, key, c)
    ensures key in Overlaid(layers) && Overlaid(layers)[key] == c.config[key]
  {
    hide Rank, Outranks;
    var front, last := layers[..|layers| - 1], layers[|layers| - 1];
    assert layers == front + [last];
    assert forall d | d in front :: Rank(d) < Rank(last);
    OutranksByRank(c, last);
    if key !in last.config {
      assert c in front;
      OverlaidByHighest(front, key, c);
    }
  }

  /**
   * Every key of a resolved input has the request's value if the request sets
   * it, and otherwise that of the highest layer that sets it; no other key appears.
   */
  lemma EffectiveValue(request: Document, configs: seq<InputConfig>, key: string)
    requires DistinctRanks(configs) && configs != [] && Resolve(request, configs).Success?
    ensures var e := Resolve(request, configs).value;
      && request.Object? && e.Object?
      && (key in e.fields <==> key in request.fields || exists c :: c in configs && key in c.config)
      && (key in request.fields ==> e.fields[key] == request.fields[key])
      && (key !in request.fields ==> forall c | Decides(configs, key, c) :: key in e.fields && e.fields[key] == c.config[key])
      && (key !in request.fields && key in e.fields ==> exists c :: Decides(configs, key, c) && e.fields[key] == c.config[key])
  {
    var layers := Sort(configs, LowerRank);
    LayersInOrder(configs);
    OverlaidBySome(layers, key);
    hide Sort, Rank, Outranks;
    if exists d :: d in layers && key in d.config {
      var c := SomeDecides(layers, key);
      assert Decides(configs, key, c);
    }
    forall c | Decides(configs, key, c) ensures key in Overlaid(layers) && Overlaid(layers)[key] == c.config[key] {
      assert Decides(layers, key, c);
      OverlaidByHighest(layers, key, c);
    }
  }

  /** Resolution fails exactly when settings apply and the request is no object or sets locked keys, and it names those keys. */
  lemma RefusedExactly(request: Document, configs: seq<InputConfig>)
    requires DistinctRanks(configs)
    ensures Resolve(request, configs).Failure? <==> configs != [] && (request.Other? || request.fields.Keys * LockedIn(configs) != {})
    ensures configs != [] && request.Object? && request.fields.Keys * LockedIn(configs) != {} ==>
              Resolve(request, configs) == Failure(Locked(request.fields.Keys * LockedIn(configs)))
    ensures forall k :: k in LockedIn(configs) <==> exists c :: c in configs && k in c.lockedKeys
    ensures request.Other? && configs != [] ==> Resolve(request, configs) == Failure(NotAnObject)
  {
    LayersInOrder(configs);
    hide Sort;
  }

  function SettingsOf(configs: seq<InputConfig>): set<string> {
    set c, k | c in configs && k in c.config :: k
  }

  lemma {:induction false} OverlaidKeys(configs: seq<InputConfig>)
    requires DistinctRanks(configs)
    ensures Overlaid(Sort(configs, LowerRank)).Keys == SettingsOf(configs)
  {
    var layers := Sort(configs, LowerRank);
    LayersInOrder(configs);
    hide Sort, Rank;
    forall key ensures key in Overlaid(layers) <==> key in SettingsOf(configs) { OverlaidBySome(layers, key); }
  }

  /**
   * Resolving an input that is already effective, against whatever settings
   * apply by then, leaves it as it is exactly when those settings lock none of
   * its keys and set no key it lacks.
   */
  lemma ResolvingAgain(effective: map<string, Value>, configs: seq<InputConfig>)
    requires DistinctRanks(configs)
    ensures Resolve(Object(effective), configs) == Success(Object(effective)) <==>
              effective.Keys * LockedIn(configs) == {} && SettingsOf(configs) <= effective.Keys
  {
    var layers := Sort(configs, LowerRank);
    LayersInOrder(configs);
    OverlaidKeys(configs);
    hide Sort;
    if configs == [] {
      assert SettingsOf(configs) == {} && LockedIn(configs) == {};
    } else {
      var merged := Overlaid(layers) + effective;
      assert merged.Keys == SettingsOf(configs) + effective.Keys;
      if SettingsOf(configs) <= effective.Keys { assert merged == effective; }
    }
  }

  // What SetInputConfig stores.
  predicate LocksAreSet(c: InputConfig) {
    forall k | k in c.lockedKeys :: k in c.config
  }

  /**
   * With the same settings the second resolve is the identity when nothing is
   * locked, and otherwise is refused on exactly the union of the locked keys.
   */
  lemma SecondResolve(request: Document, configs: seq<InputConfig>)
    requires DistinctRanks(configs) && Resolve(request, configs).Success? && forall c | c in configs :: LocksAreSet(c)
    ensures var e := Resolve(request, configs).value;
      Resolve(e, configs) == if LockedIn(configs) == {} then Success(e) else Failure(Locked(LockedIn(configs)))
  {
    LayersInOrder(configs);
    if configs == [] {
      assert LockedIn(configs) == {};
    } else {
      OverlaidKeys(configs);
      var e := Resolve(request, configs).value.fields;
      assert e.Keys == SettingsOf(configs) + request.fields.Keys;
      forall k | k in LockedIn(configs) ensures k in e {
        var c :| c in configs && k in c.lockedKeys;
        assert LocksAreSet(c);
      }
      assert e.Keys * LockedIn(configs) == LockedIn(configs);
      ResolvingAgain(e, configs);
      RefusedExactly(Object(e), configs);
      hide Sort;
    }
  }

  /** A setting stored after admission reaches a job that was admitted without it, once the job is claimed remotely. */
  lemma LaterSettingsReachQueuedJobs(later: InputConfig)
    requires later.config == map["region" := "\"eu\""] && later.lockedKeys == []
    ensures Resolve(Object(map[]), []) == Success(Object(map[]))
    ensures Resolve(Object(map[]), [later]) == Success(Object(map["region" := "\"eu\""]))
  {
    assert Sort([later], LowerRank) == [later];
    assert [later][..0] == [];
    assert LockedIn([later]) == {};
    assert Overlaid([later]) == Overlaid([]) + later.config;
    var none: map<string, Value> := map[];
    assert none.Keys * LockedIn([later]) == {};
    assert Overlaid([later]) + none == later.config;
  }

  /** normalizedLockedKeys. */
  function LockedKeysOf(config: map<string, Value>, keys: seq<string>): Option<set<string>> {
    if exists raw :: raw in keys && (Trim(raw) == "" || Trim(raw) !in config) then None else Some(set raw | raw in keys :: Trim(raw))
  }

  method NormalizedLockedKeys(config: map<string, Value>, keys: seq<string>) returns (normalized: Option<seq<string>>)
    ensures normalized.None? <==> LockedKeysOf(config, keys).None?
    ensures normalized.Some? ==> Enumerates(normalized.value, LockedKeysOf(config, keys).value) && SortedBy(normalized.value, Less)
    ensures normalized.Some? <==> forall i | 0 <= i < |keys| :: Trim(keys[i]) != "" && Trim(keys[i]) in config
    ensures normalized.Some? ==> forall x :: x in normalized.value <==> exists i :: 0 <= i < |keys| && Trim(keys[i]) == x
  {
    hide Trim, Less;
    var seen: seq<string> := [];
    for i := 0 to |keys|
      invariant Distinct(seen)
      invariant forall k | 0 <= k < i :: Trim(keys[k]) != "" && Trim(keys[k]) in config
      invariant forall x :: x in seen <==> exists k :: 0 <= k < i && Trim(keys[k]) == x
    {
      var key := Trim(keys[i]);
      if key == "" {
        assert keys[i] in keys;
        return None;
      }
      if key !in config {
        assert keys[i] in keys;
        return None;
      }
      if key in seen {
        continue;
      }
      seen := seen + [key];
    }
    ghost var all := set raw | raw in keys :: Trim(raw);
    forall x ensures x in seen <==> x in all {
      if x in all { var raw :| raw in keys && Trim(raw) == x; var k :| 0 <= k < |keys| && keys[k] == raw; }
      if x in seen { var k :| 0 <= k < |keys| && Trim(keys[k]) == x; assert keys[k] in keys; }
    }
    KeyOrderIsWeak();
    SortEnumeration(seen, all, Less);
    normalized := Some(Sort(seen, Less));
  }

  datatype ConfigKey = ConfigKey(workspace: string, app: string, action: string, client: string)

  /** The settings half of LocalStore. */
  class SettingsStore {
    var configs: map<ConfigKey, InputConfig>
    var clients: set<(string, string)>

    ghost predicate Valid()
      reads this
    {
      forall k | k in configs :: Filed(k, configs[k])
    }

    constructor ()
      ensures Valid() && configs == map[] && clients == {}
    {
      configs, clients := map[], {};
    }

    method Set(workspace: string, config: InputConfig) returns (err: Option<SettingError>)
      requires Valid()
      modifies `configs
      ensures Valid()
      ensures var k := ConfigKey(NormalizeWorkspace(workspace), Trim(config.app), Trim(config.action), Trim(config.client));
        && (err.None? <==> LockedKeysOf(config.config, config.lockedKeys).Some? && (k.client == "" || (k.workspace, k.client) in clients))
        && (err.Some? ==> configs == old(configs))
        && (err.None? ==> k in configs && configs == old(configs)[k := configs[k]] && configs[k].config == config.config)
        && (err.None? ==> Enumerates(configs[k].lockedKeys, LockedKeysOf(config.config, config.lockedKeys).value))
    {
      var k := ConfigKey(NormalizeWorkspace(workspace), Trim(config.app), Trim(config.action), Trim(config.client));
      var locked := NormalizedLockedKeys(config.config, config.lockedKeys);
      if locked.None? {
        return Some(InvalidConfig);
      }
      if k.client != "" && (k.workspace, k.client) !in clients {
        return Some(ClientNotFound);
      }
      var saved := InputConfig(k.app, k.action, k.client, config.config, locked.value);
      hide Trim, NormalizeWorkspace;
      configs := configs[k := saved];
      err := None;
    }

    method Delete(workspace: string, app: string, action: string, client: string)
      requires Valid()
      modifies `configs
      ensures Valid()
      ensures configs == old(configs) - {ConfigKey(NormalizeWorkspace(workspace), Trim(app), Trim(action), Trim(client))}
    {
      hide Trim, NormalizeWorkspace;
      var k := ConfigKey(NormalizeWorkspace(workspace), Trim(app), Trim(action), Trim(client));
      if k !in configs {
        assert configs - {k} == configs;
        return;
      }
      configs := configs - {k};
    }

    /** The settings that apply to a request, whatever order they are listed in. */
    method Applicable(workspace: string, app: string, action: string, client: string) returns (applicable: seq<InputConfig>)
      requires Valid()
      ensures DistinctRanks(applicable) && forall c | c in applicable :: LocksAreSet(c)
      ensures forall c :: c in applicable <==> exists k :: Applies(configs, workspace, app, action, client, k, c)
    {
      hide NormalizeWorkspace, LocksAreSet;
      applicable := [];
      ghost var keys: seq<ConfigKey> := [];
      var todo := configs.Keys;
      while todo != {}
        invariant todo <= configs.Keys && |keys| == |applicable| && Distinct(keys)
        invariant forall i | 0 <= i < |keys| :: keys[i] !in todo && Applies(configs, workspace, app, action, client, keys[i], applicable[i])
        invariant forall c :: c in applicable <==> exists k :: k !in todo && Applies(configs, workspace, app, action, client, k, c)
        decreases todo
      {
        var k :| k in todo;
        assert Filed(k, configs[k]);
        ghost var before, left := applicable, todo;
        todo := todo - {k};
        var config := configs[k];
        if k.workspace == NormalizeWorkspace(workspace) && config.app == app
           && (config.action == "" || config.action == action) && (config.client == "" || config.client == client) {
          applicable := applicable + [config];
          keys := keys + [k];
          assert Applies(configs, workspace, app, action, client, k, config);
        }
        forall c ensures c in applicable <==> exists j :: j !in todo && Applies(configs, workspace, app, action, client, j, c) {
          if c in before { var j :| j !in left && Applies(configs, workspace, app, action, client, j, c); }
        }
      }
      OnePerRank(workspace, app, action, client, keys, applicable);
    }

    lemma OnePerRank(workspace: string, app: string, action: string, client: string, keys: seq<ConfigKey>, applicable: seq<InputConfig>)
      requires Valid() && |keys| == |applicable| && Distinct(keys)
      requires forall i | 0 <= i < |keys| :: Applies(configs, workspace, app, action, client, keys[i], applicable[i])
      ensures DistinctRanks(applicable) && forall c | c in applicable :: LocksAreSet(c)
    {}
  }

  // The stored setting c applies to the action and client.
  predicate Applies(configs: map<ConfigKey, InputConfig>, workspace: string, app: string, action: string, client: string, k: ConfigKey, c: InputConfig) {
    && k in configs && configs[k] == c && k.workspace == NormalizeWorkspace(workspace) && c.app == app
    && (c.action == "" || c.action == action) && (c.client == "" || c.client == client)
  }

  /** Of what is stored, exactly the four settings for app, action, client app and client action apply. */
  lemma FourApply(configs: map<ConfigKey, InputConfig>, workspace: string, app: string, action: string, client: string, k: ConfigKey)
    requires k in configs && Filed(k, configs[k])
    ensures Applies(configs, workspace, app, action, client, k, configs[k]) <==>
      (var w := NormalizeWorkspace(workspace);
       k == ConfigKey(w, app, "", "") || k == ConfigKey(w, app, action, "") || k == ConfigKey(w, app, "", client) || k == ConfigKey(w, app, action, client))
  {
    hide NormalizeWorkspace;
  }

  predicate Filed(k: ConfigKey, c: InputConfig) {
    k.app == c.app && k.action == c.action && k.client == c.client && LocksAreSet(c)
  }
}

/** The remote worker's claim, which resolves the pinned input a second time (internal/server/worker_plane.go). */
module WorkerPlane {
  import opened Wrappers
  import opened Text
  import opened Sorting
  import opened JobModel
  import opened JobSteps
  import opened JobInvariant
  import opened JobPreservation
  import opened JobEvolution
  import opened JobStore
  import opened InputLayers

  datatype Handed = Handed(job: Job, lease: Lease, input: Document)

  /** ResolveInput: the caller's client must exist, and the settings that apply are layered under the request. */
  method ResolveInput(settings: SettingsStore, workspace: string, app: string, action: string, client: string, request: Document)
    returns (r: Result<Document, ResolveError>, ghost applicable: seq<InputConfig>)
    requires settings.Valid()
    ensures client != "" && (NormalizeWorkspace(workspace), client) !in settings.clients ==> r == Failure(UnknownClient)
    ensures client == "" || (NormalizeWorkspace(workspace), client) in settings.clients ==> r == Resolve(request, applicable)
    ensures DistinctRanks(applicable) && forall c | c in applicable :: LocksAreSet(c)
    ensures forall c :: c in applicable <==> exists k :: Applies(settings.configs, workspace, app, action, client, k, c)
  {
    var configs := settings.Applicable(workspace, app, action, client);
    applicable := configs;
    if client != "" && (NormalizeWorkspace(workspace), client) !in settings.clients {
      return Failure(UnknownClient), applicable;
    }
    var resolved, rejected := ResolveInputConfigs(request, configs);
    r := resolved;
  }

  /**
   * workerPlaneClaim. A job whose input does not resolve again is failed on the
   * spot, so a claim either hands out the job it leased or settles it.
   */
  method Claim(store: LocalStore, settings: SettingsStore, clientOf: JobId -> string, parse: Input -> Document,
               workerId: string, tags: seq<string>, labels: seq<string>, ttl: int, now: Time)
    returns (handed: Option<Handed>, failed: Option<JobId>, ghost applicable: seq<InputConfig>)
    requires store.Valid() && settings.Valid() && workerId != ""
    modifies store
    ensures store.Valid()
    ensures handed.None? || failed.None?
    ensures handed.None? && failed.None? ==> store.Snap() == old(store.Snap())
    ensures handed.Some? ==>
      var h := handed.value;
      && HoldsLease(store.Snap(), h.lease) && h.job == store.jobs[h.lease.jobId]
      && Resolve(parse(h.job.payload.input), applicable) == Success(h.input)
      && forall c :: c in applicable <==> exists k ::
           Applies(settings.configs, h.job.payload.workspace, h.job.payload.app, h.job.payload.action, clientOf(h.job.id), k, c)
    ensures failed.Some? ==>
      && failed.value in old(store.jobs) && JobActive(old(store.jobs)[failed.value])
      && failed.value in store.jobs && store.jobs[failed.value].state.JobFailed?
      && var job := store.jobs[failed.value];
         && (|| Resolve(parse(job.payload.input), applicable).Failure?
             || (clientOf(job.id) != "" && (NormalizeWorkspace(job.payload.workspace), clientOf(job.id)) !in settings.clients))
         && forall c :: c in applicable <==> exists k ::
              Applies(settings.configs, job.payload.workspace, job.payload.app, job.payload.action, clientOf(job.id), k, c)
  {
    hide Inv, CapInv, IsPick, RequeueAll, Assign, Resolve, NormalizeWorkspace;
    ghost var before := store.Snap();
    applicable := [];
    failed := None;
    var lease, order := store.ClaimJobForWorker(workerId, workerId, tags, labels, ttl, now);
    if lease.None? {
      return None, failed, applicable;
    }
    ghost var claimed := store.Snap();
    ClaimedJob(before, claimed, order, lease.value, NormalizeClaimTags(tags), NormalizeClaimTags(labels), ttl, now);
    var job := store.jobs[lease.value.jobId];
    var resolved, used := ResolveInput(settings, job.payload.workspace, job.payload.app, job.payload.action, clientOf(job.id), parse(job.payload.input));
    applicable := used;
    if resolved.Failure? {
      var result := JobResult(job.id, job.payload.app, job.payload.action, "", 0, "");
      FailsAtOnce(claimed, lease.value, result, now);
      var err := store.CompleteJobFailed(lease.value, result, now);
      return None, Some(job.id), applicable;
    }
    handed := Some(Handed(job, lease.value, resolved.value));
  }

  /** What a claim has just leased: a job that was active before, leased into the future. */
  lemma {:induction false} ClaimedJob(s: Snapshot, s': Snapshot, order: seq<JobId>, lease: Lease, tags: set<string>, labels: set<string>, ttl: int, now: Time)
    requires Inv(s) && Enumerates(order, s.jobs.Keys) && lease.expiresAt == now + EffectiveTtl(ttl)
    requires IsPick(RequeueAll(s, order, now), tags, labels, Some(lease.jobId)) && Inv(s')
    requires s' == Assign(RequeueAll(s, order, now), lease.jobId, lease.workerId, lease.expiresAt, now) && HoldsLease(s', lease)
    ensures lease.jobId in s.jobs && JobActive(s.jobs[lease.jobId]) && s'.jobs[lease.jobId].id == lease.jobId
    ensures CompletionRefusal(s', lease, now).None?
  {
    var s1 := RequeueAll(s, order, now);
    assert lease.jobId in s1.jobs by { hide RequeueAll; }
    hide Inv, RequeueAll, Assign, IsPick, ClaimLog, RunOk, JobOk;
    RequeueAllKeeps(s, order, now);
    AssignedLease(s1, lease.jobId, lease.workerId, lease.expiresAt, now);
    Facts(s', lease.jobId);
    WasActive(s, s', order, lease, tags, labels, ttl, now);
  }

  lemma {:induction false} WasActive(s: Snapshot, s': Snapshot, order: seq<JobId>, lease: Lease, tags: set<string>, labels: set<string>, ttl: int, now: Time)
    requires Inv(s) && Enumerates(order, s.jobs.Keys) && lease.expiresAt == now + EffectiveTtl(ttl)
    requires IsPick(RequeueAll(s, order, now), tags, labels, Some(lease.jobId))
    requires s' == Assign(RequeueAll(s, order, now), lease.jobId, lease.workerId, lease.expiresAt, now) && HoldsLease(s', lease)
    ensures lease.jobId in s.jobs && JobActive(s.jobs[lease.jobId])
  {
    var op := OpClaim(order, Some(lease.jobId), tags, labels, lease.workerId, ttl);
    ClaimIs(s, op, now);
    hide Inv, RequeueAll, Assign, IsPick, ClaimLog, RunOk, JobOk, Next;
    ClaimEvolves(s, op, now);
    assert Evolves(s.jobs[lease.jobId], s'.jobs[lease.jobId]);
  }

  lemma {:induction false} ClaimIs(s: Snapshot, op: Op, now: Time)
    requires op.OpClaim? && op.pick.Some? && IsPick(RequeueAll(s, op.order, now), op.tags, op.labels, op.pick)
    ensures op.pick.value in RequeueAll(s, op.order, now).jobs
    ensures Next(s, op, now) == Assign(RequeueAll(s, op.order, now), op.pick.value, op.worker, now + EffectiveTtl(op.ttl), now)
  {
    hide RequeueAll, Assign;
  }

  lemma AssignedLease(s: Snapshot, j: JobId, worker: string, expiresAt: Time, now: Time)
    requires Inv(s) && j in s.jobs
    ensures j in Assign(s, j, worker, expiresAt, now).jobs && Assign(s, j, worker, expiresAt, now).jobs[j].leaseExpiresAt == Some(expiresAt)
  {
    Facts(s, j);
    hide Inv, JobOk, RunOk;
  }

  /** Failing a job that has just been leased goes through. */
  lemma FailsAtOnce(s: Snapshot, lease: Lease, result: JobResult, now: Time)
    requires Inv(s) && HoldsLease(s, lease) && CompletionRefusal(s, lease, now).None? && s.jobs[lease.jobId].id == lease.jobId
    ensures CompleteFailed(s, lease, result, now).Success?
    ensures var s' := CompleteFailed(s, lease, result, now).value;
      lease.jobId in s'.jobs && s'.jobs[lease.jobId].state.JobFailed? && s'.jobs[lease.jobId].payload == s.jobs[lease.jobId].payload
      && s'.jobs[lease.jobId].id == lease.jobId
  {
    hide Inv, FailureMessage;
  }
}
