/** Configuration checks the daemon relies on (internal/config/config.go) and what the
    assembler derives from the instances (internal/app/app.go). */
module Config {
  import opened Wrappers
  import L = Lifecycle
  import LifecycleRouting

  /** Durations in seconds; labels already split. */
  datatype Instance = Instance(
    name: string, url: string, runnerToken: string, labels: seq<string>,
    pollInterval: int, regTokenTtl: int, gaStartupTimeout: int, heartbeatInterval: int)

  datatype Settings = Settings(
    githubToken: string, githubRepo: string, workflowId: string, maxParallelTasks: int,
    instances: seq<Instance>)

  datatype Missing =
    | GithubToken | GithubRepo | WorkflowId | NoInstances
    | Url(i: nat) | RunnerToken(i: nat) | Labels(i: nat)

  datatype Invalid =
    | MaxParallelTasks
    | Duplicate(i: nat, prev: nat)
    | PollInterval(i: nat)
    | RegTokenTtl(i: nat)
    | GaStartupTimeout(i: nat)
    | HeartbeatInterval(i: nat)

  predicate FieldsOk(inst: Instance) {
    && inst.url != "" && inst.runnerToken != "" && |inst.labels| > 0
    && inst.pollInterval >= 0 && inst.regTokenTtl >= 0 && inst.gaStartupTimeout >= 0 && inst.heartbeatInterval >= 0
  }

  /** What routing sees of the instances. */
  function Routed(instances: seq<Instance>): seq<L.Instance> {
    seq(|instances|, i requires 0 <= i < |instances| => L.Instance(instances[i].name, instances[i].regTokenTtl))
  }

  predicate Acceptable(cfg: Settings) {
    && cfg.githubToken != "" && cfg.githubRepo != "" && cfg.workflowId != "" && cfg.maxParallelTasks >= 0
    && |cfg.instances| > 0 && L.UniqueNames(Routed(cfg.instances))
    && forall i :: 0 <= i < |cfg.instances| ==> FieldsOk(cfg.instances[i])
  }

  /** `prev` is the closest earlier instance with the name of instance `i`. */
  predicate Repeats(instances: seq<Instance>, i: nat, prev: nat) {
    && prev < i < |instances| && instances[prev].name == instances[i].name
    && forall k :: prev < k < i ==> instances[k].name != instances[i].name
  }

  method CheckFields(i: nat, inst: Instance) returns (missing: seq<Missing>, invalid: seq<Invalid>)
    ensures missing == [] && invalid == [] <==> FieldsOk(inst)
    ensures forall p :: p in invalid ==> !p.Duplicate?
    ensures forall m :: m in missing <==>
              || (m == Url(i) && inst.url == "")
              || (m == RunnerToken(i) && inst.runnerToken == "")
              || (m == Labels(i) && |inst.labels| == 0)
    ensures forall v :: v in invalid <==>
              || (v == PollInterval(i) && inst.pollInterval < 0)
              || (v == RegTokenTtl(i) && inst.regTokenTtl < 0)
              || (v == GaStartupTimeout(i) && inst.gaStartupTimeout < 0)
              || (v == HeartbeatInterval(i) && inst.heartbeatInterval < 0)
  {
    missing, invalid := [], [];
    if inst.url == "" { missing := missing + [Url(i)]; }
    if inst.runnerToken == "" { missing := missing + [RunnerToken(i)]; }
    if |inst.labels| == 0 { missing := missing + [Labels(i)]; }
    if inst.pollInterval < 0 { invalid := invalid + [PollInterval(i)]; }
    if inst.regTokenTtl < 0 { invalid := invalid + [RegTokenTtl(i)]; }
    if inst.gaStartupTimeout < 0 { invalid := invalid + [GaStartupTimeout(i)]; }
    if inst.heartbeatInterval < 0 { invalid := invalid + [HeartbeatInterval(i)]; }
  }

  /** Which fields of the first `n` instances are reported as missing. */
  ghost predicate MissingExact(check: seq<Instance>, missing: seq<Missing>, n: nat)
    requires n <= |check|
  {
    && (forall j: nat :: Url(j) in missing <==> j < n && check[j].url == "")
    && (forall j: nat :: RunnerToken(j) in missing <==> j < n && check[j].runnerToken == "")
    && (forall j: nat :: Labels(j) in missing <==> j < n && |check[j].labels| == 0)
  }

  /** Which of their fields are reported as invalid. */
  ghost predicate InvalidExact(check: seq<Instance>, invalid: seq<Invalid>, n: nat)
    requires n <= |check|
  {
    && (forall j: nat :: PollInterval(j) in invalid <==> j < n && check[j].pollInterval < 0)
    && (forall j: nat :: RegTokenTtl(j) in invalid <==> j < n && check[j].regTokenTtl < 0)
    && (forall j: nat :: GaStartupTimeout(j) in invalid <==> j < n && check[j].gaStartupTimeout < 0)
    && (forall j: nat :: HeartbeatInterval(j) in invalid <==> j < n && check[j].heartbeatInterval < 0)
  }

  /** Complaints about the settings as a whole. */
  predicate AboutFields(m: Missing) {
    m.Url? || m.RunnerToken? || m.Labels?
  }

  /** What round `n` adds to both lists. */
  ghost predicate FieldsReported(inst: Instance, n: nat, missing: seq<Missing>, invalid: seq<Invalid>) {
    && (forall m :: m in missing <==>
          || (m == Url(n) && inst.url == "")
          || (m == RunnerToken(n) && inst.runnerToken == "")
          || (m == Labels(n) && |inst.labels| == 0))
    && (forall v :: v in invalid && !v.Duplicate? <==>
          || (v == PollInterval(n) && inst.pollInterval < 0)
          || (v == RegTokenTtl(n) && inst.regTokenTtl < 0)
          || (v == GaStartupTimeout(n) && inst.gaStartupTimeout < 0)
          || (v == HeartbeatInterval(n) && inst.heartbeatInterval < 0))
    && (forall v :: v in invalid ==> v != MaxParallelTasks)
  }

  lemma MissingStep(check: seq<Instance>, n: nat, missing: seq<Missing>, m: seq<Missing>, v: seq<Invalid>)
    requires n < |check| && MissingExact(check, missing, n) && FieldsReported(check[n], n, m, v)
    requires forall x :: x in missing ==> AboutFields(x)
    ensures MissingExact(check, missing + m, n + 1) && forall x :: x in missing + m ==> AboutFields(x)
  {
  }

  lemma InvalidStep(check: seq<Instance>, n: nat, invalid: seq<Invalid>, m: seq<Missing>, v: seq<Invalid>)
    requires n < |check| && InvalidExact(check, invalid, n) && FieldsReported(check[n], n, m, v)
    requires MaxParallelTasks !in invalid
    ensures InvalidExact(check, invalid + v, n + 1) && MaxParallelTasks !in invalid + v
  {
  }

  /** `seen` maps every name among the first `n` instances to its last position there. */
  predicate LastSeen(check: seq<Instance>, seen: map<string, nat>, n: nat)
    requires n <= |check|
  {
    && (forall name :: name in seen ==> seen[name] < n && check[seen[name]].name == name)
    && (forall j :: 0 <= j < n ==> check[j].name in seen && j <= seen[check[j].name])
  }

  lemma NameStep(check: seq<Instance>, seen: map<string, nat>, n: nat)
    requires n < |check| && LastSeen(check, seen, n)
    ensures LastSeen(check, seen[check[n].name := n], n + 1)
    ensures forall prev: nat :: Repeats(check, n, prev) <==> check[n].name in seen && prev == seen[check[n].name]
  {
  }

  lemma UniqueStep(check: seq<Instance>, seen: map<string, nat>, n: nat)
    requires n < |check| && LastSeen(check, seen, n)
    ensures L.UniqueNames(Routed(check[..n + 1])) <==> L.UniqueNames(Routed(check[..n])) && check[n].name !in seen
  {
    var before, after := Routed(check[..n]), Routed(check[..n + 1]);
    assert after == before + [L.Instance(check[n].name, check[n].regTokenTtl)];
    if check[n].name in seen {
      assert after[seen[check[n].name]].name == after[n].name;
    } else {
      assert forall j :: 0 <= j < n ==> after[j] == before[j] && after[j].name == check[j].name;
    }
  }

  predicate Reported(invalid: seq<Invalid>, i: nat, prev: nat) {
    Duplicate(i, prev) in invalid
  }

  /** A round reports the closest earlier holder of the name, if there is one. */
  ghost predicate RoundReported(inst: Instance, i: nat, seen: map<string, nat>, invalid: seq<Invalid>) {
    forall j: nat, prev: nat :: Reported(invalid, j, prev) <==> j == i && inst.name in seen && prev == seen[inst.name]
  }

  /** One round of the instance loop. */
  method CheckInstance(i: nat, inst: Instance, seen: map<string, nat>)
      returns (missing: seq<Missing>, invalid: seq<Invalid>)
    ensures missing == [] && invalid == [] <==> inst.name !in seen && FieldsOk(inst)
    ensures RoundReported(inst, i, seen, invalid)
    ensures FieldsReported(inst, i, missing, invalid)
  {
    missing, invalid := CheckFields(i, inst);
    assert forall j: nat, prev: nat :: !Reported(invalid, j, prev);
    if inst.name in seen {
      invalid := [Duplicate(i, seen[inst.name])] + invalid;
    }
  }

  predicate AllOk(check: seq<Instance>, n: nat)
    requires n <= |check|
  {
    L.UniqueNames(Routed(check[..n])) && forall j :: 0 <= j < n ==> FieldsOk(check[j])
  }

  /** The duplicates among the first `n` instances are reported, and nothing else is. */
  ghost predicate AllReported(check: seq<Instance>, invalid: seq<Invalid>, n: nat) {
    forall j: nat, prev: nat :: Reported(invalid, j, prev) <==> j < n && Repeats(check, j, prev)
  }

  lemma ReportStep(check: seq<Instance>, seen: map<string, nat>, n: nat, invalid: seq<Invalid>, more: seq<Invalid>)
    requires n < |check| && LastSeen(check, seen, n) && AllReported(check, invalid, n)
    requires RoundReported(check[n], n, seen, more)
    ensures AllReported(check, invalid + more, n + 1)
  {
    NameStep(check, seen, n);
    forall j: nat, prev: nat
      ensures Reported(invalid + more, j, prev) <==> j < n + 1 && Repeats(check, j, prev)
    {
      assert Reported(invalid + more, j, prev) <==> Reported(invalid, j, prev) || Reported(more, j, prev);
    }
  }

  /** What one round of the loop leaves behind. */
  lemma RoundDone(check: seq<Instance>, seen: map<string, nat>, n: nat, invalid: seq<Invalid>, more: seq<Invalid>)
    requires n < |check| && LastSeen(check, seen, n) && AllReported(check, invalid, n)
    requires RoundReported(check[n], n, seen, more)
    ensures LastSeen(check, seen[check[n].name := n], n + 1) && AllReported(check, invalid + more, n + 1)
    ensures AllOk(check, n + 1) <==> AllOk(check, n) && check[n].name !in seen && FieldsOk(check[n])
  {
    NameStep(check, seen, n);
    UniqueStep(check, seen, n);
    ReportStep(check, seen, n, invalid, more);
  }

  lemma NothingAdded<T>(a: seq<T>, b: seq<T>)
    ensures a + b == [] <==> a == [] && b == []
  {
  }

  /** The instance loop of validate, with its map of names already seen. */
  method CheckInstances(check: seq<Instance>) returns (missing: seq<Missing>, invalid: seq<Invalid>)
    ensures missing == [] && invalid == [] <==> AllOk(check, |check|)
    ensures AllReported(check, invalid, |check|)
    ensures MissingExact(check, missing, |check|) && InvalidExact(check, invalid, |check|)
    ensures (forall m :: m in missing ==> AboutFields(m)) && MaxParallelTasks !in invalid
  {
    missing, invalid := [], [];
    var seenNames: map<string, nat> := map[];
    var i := 0;
    while i < |check|
      invariant i <= |check| && LastSeen(check, seenNames, i)
      invariant AllReported(check, invalid, i) && MissingExact(check, missing, i) && InvalidExact(check, invalid, i)
      invariant (forall m :: m in missing ==> AboutFields(m)) && MaxParallelTasks !in invalid
      invariant missing == [] && invalid == [] <==> AllOk(check, i)
    {
      var m, v := CheckInstance(i, check[i], seenNames);
      RoundDone(check, seenNames, i, invalid, v);
      MissingStep(check, i, missing, m, v);
      InvalidStep(check, i, invalid, m, v);
      NothingAdded(missing, m);
      NothingAdded(invalid, v);
      seenNames := seenNames[check[i].name := i];
      missing, invalid := missing + m, invalid + v;
      i := i + 1;
    }
  }

  /** The settings outside the instances. */
  method CheckGlobals(cfg: Settings) returns (missing: seq<Missing>, invalid: seq<Invalid>)
    ensures forall m :: m in missing <==>
              || (m == GithubToken && cfg.githubToken == "")
              || (m == GithubRepo && cfg.githubRepo == "")
              || (m == WorkflowId && cfg.workflowId == "")
              || (m == NoInstances && |cfg.instances| == 0)
    ensures forall v :: v in invalid <==> v == MaxParallelTasks && cfg.maxParallelTasks < 0
    ensures missing == [] && invalid == [] <==>
              && cfg.githubToken != "" && cfg.githubRepo != "" && cfg.workflowId != "" && |cfg.instances| > 0
              && cfg.maxParallelTasks >= 0
  {
    missing, invalid := [], [];
    if cfg.githubToken == "" { missing := missing + [GithubToken]; }
    if cfg.githubRepo == "" { missing := missing + [GithubRepo]; }
    if cfg.workflowId == "" { missing := missing + [WorkflowId]; }
    if cfg.maxParallelTasks < 0 { invalid := invalid + [MaxParallelTasks]; }
    if |cfg.instances| == 0 { missing := missing + [NoInstances]; }
  }

  /** Complaints that do not name a field leave the reports about fields as they are. */
  lemma GlobalsApart(check: seq<Instance>, missing: seq<Missing>, invalid: seq<Invalid>, m: seq<Missing>,
      v: seq<Invalid>)
    requires MissingExact(check, m, |check|) && InvalidExact(check, v, |check|) && AllReported(check, v, |check|)
    requires (forall x :: x in missing ==> !AboutFields(x)) && (forall x :: x in invalid ==> x.MaxParallelTasks?)
    ensures MissingExact(check, missing + m, |check|) && InvalidExact(check, invalid + v, |check|)
    ensures AllReported(check, invalid + v, |check|)
  {
    assert forall j: nat, prev: nat :: Reported(invalid + v, j, prev) <==> Reported(v, j, prev);
  }

  /** And the other way round. */
  lemma FieldsApart(missing: seq<Missing>, invalid: seq<Invalid>, m: seq<Missing>, v: seq<Invalid>)
    requires (forall x :: x in m ==> AboutFields(x)) && MaxParallelTasks !in v
    ensures forall x :: x in missing + m && !AboutFields(x) <==> x in missing && !AboutFields(x)
    ensures MaxParallelTasks in invalid + v <==> MaxParallelTasks in invalid
  {
  }

  /** The instances checked: a blank one when there is none. */
  function Checked(cfg: Settings): seq<Instance> {
    if |cfg.instances| == 0 then [Instance("", "", "", [], 0, 0, 0, 0)] else cfg.instances
  }

  lemma AcceptableChecked(cfg: Settings)
    ensures Acceptable(cfg) <==>
            && cfg.githubToken != "" && cfg.githubRepo != "" && cfg.workflowId != "" && |cfg.instances| > 0
            && cfg.maxParallelTasks >= 0 && AllOk(Checked(cfg), |Checked(cfg)|)
  {
    assert Checked(cfg)[..|Checked(cfg)|] == Checked(cfg);
  }

  /** validate: each complaint is made exactly for the setting it is about, and there is none
      exactly for acceptable settings. */
  method Validate(cfg: Settings) returns (missing: seq<Missing>, invalid: seq<Invalid>)
    ensures missing == [] && invalid == [] <==> Acceptable(cfg)
    ensures GithubToken in missing <==> cfg.githubToken == ""
    ensures GithubRepo in missing <==> cfg.githubRepo == ""
    ensures WorkflowId in missing <==> cfg.workflowId == ""
    ensures NoInstances in missing <==> |cfg.instances| == 0
    ensures MaxParallelTasks in invalid <==> cfg.maxParallelTasks < 0
    ensures |cfg.instances| > 0 ==>
              && MissingExact(cfg.instances, missing, |cfg.instances|)
              && InvalidExact(cfg.instances, invalid, |cfg.instances|)
              && AllReported(cfg.instances, invalid, |cfg.instances|)
    ensures |cfg.instances| == 0 ==> Url(0) in missing && RunnerToken(0) in missing && Labels(0) in missing
  {
    var m, v := CheckGlobals(cfg);
    missing, invalid := CheckInstances(Checked(cfg));
    NothingAdded(m, missing);
    NothingAdded(v, invalid);
    AcceptableChecked(cfg);
    GlobalsApart(Checked(cfg), m, v, missing, invalid);
    FieldsApart(m, v, missing, invalid);
    missing, invalid := m + missing, v + invalid;
  }

  /** Acceptable settings, spelled out. */
  lemma AcceptableIff(cfg: Settings)
    ensures Acceptable(cfg) <==>
            && cfg.githubToken != "" && cfg.githubRepo != "" && cfg.workflowId != "" && cfg.maxParallelTasks >= 0
            && cfg.instances != []
            && (forall i, j :: 0 <= i < j < |cfg.instances| ==> cfg.instances[i].name != cfg.instances[j].name)
            && (forall i :: 0 <= i < |cfg.instances| ==>
                  var inst := cfg.instances[i];
                  && inst.url != "" && inst.runnerToken != "" && inst.labels != []
                  && inst.pollInterval >= 0 && inst.regTokenTtl >= 0
                  && inst.gaStartupTimeout >= 0 && inst.heartbeatInterval >= 0)
  {
    assert forall i :: 0 <= i < |cfg.instances| ==> Routed(cfg.instances)[i].name == cfg.instances[i].name;
  }

  // ---- assembly ----

  /** Acceptable settings give routing the uniqueness it relies on: every instance's name
      resolves to that instance. */
  lemma ValidatedNamesRoute(cfg: Settings, i: nat)
    requires Acceptable(cfg) && i < |cfg.instances|
    ensures L.Resolve(Routed(cfg.instances), cfg.instances[i].name) == Some(i)
  {
    LifecycleRouting.ResolveUnique(Routed(cfg.instances), i);
  }

  /** The resolver map of Run; later instances of a name overwrite earlier ones. */
  method BuildResolver(instances: seq<L.Instance>) returns (resolver: map<string, nat>)
    ensures forall name :: (name in resolver <==> L.Resolve(instances, name).Some?)
    ensures forall name :: name in resolver ==> L.Resolve(instances, name) == Some(resolver[name])
  {
    resolver := map[];
    var i := 0;
    while i < |instances|
      invariant i <= |instances|
      invariant forall name :: (name in resolver <==> L.Resolve(instances[..i], name).Some?)
      invariant forall name :: name in resolver ==> L.Resolve(instances[..i], name) == Some(resolver[name])
    {
      assert instances[..i + 1][..i] == instances[..i];
      resolver := resolver[instances[i].name := i];
      i := i + 1;
    }
    assert instances[..i] == instances;
  }

  /** The running maximum that bounds the drain; 0 without instances. */
  method MaxGaStartupTimeout(instances: seq<Instance>) returns (max: int)
    ensures max >= 0 && forall i :: 0 <= i < |instances| ==> instances[i].gaStartupTimeout <= max
    ensures max == 0 || exists i :: 0 <= i < |instances| && instances[i].gaStartupTimeout == max
  {
    max := 0;
    var i := 0;
    while i < |instances|
      invariant i <= |instances| && max >= 0
      invariant forall j :: 0 <= j < i ==> instances[j].gaStartupTimeout <= max
      invariant max == 0 || exists j :: 0 <= j < i && instances[j].gaStartupTimeout == max
    {
      if instances[i].gaStartupTimeout > max {
        max := instances[i].gaStartupTimeout;
      }
      i := i + 1;
    }
  }

  /** A session outlives every instance's startup timeout twice over. */
  method SessionMaxAge(instances: seq<Instance>) returns (age: int)
    ensures age >= 0 && forall i :: 0 <= i < |instances| ==> 2 * instances[i].gaStartupTimeout <= age
    ensures age == 0 || exists i :: 0 <= i < |instances| && age == 2 * instances[i].gaStartupTimeout
  {
    var max := MaxGaStartupTimeout(instances);
    age := 2 * max;
  }
}
