/** The MicroK8s join configuration and its override (kubernetes/microk8s.go 31-114). */
module MicroK8s {
  import opened Wrappers
  import opened GoMaps

  /** `Other` stands for every dynamic type but `MapAny`, an untyped map among them. */
  datatype Value =
    | Text(text: string)
    | Number(number: int)
    | Flag(flag: bool)
    | Addons(names: seq<string>)
    | MapAny(entries: map<string, Value>)
    | Other(representation: string)

  type Entries = map<string, Value>

  datatype Credentials = Credentials(config: string, binDir: string)

  datatype Etcd = Etcd(endpoints: string, sslDir: string)

  datatype Provider = Provider(
    controlPlane: bool, maxPods: int, cloudProvider: string, nodeIp: string, token: string, address: string,
    credentials: Option<Credentials>, etcd: Option<Etcd>, useLoadBalancer: bool, override: Option<Entries>)

  const KUBELET := "extraKubeletArgs"
  const API_SERVER := "extraKubeAPIServerArgs"

  /******* What the override overrides *******/

  function BaseKubelet(p: Provider): Entries {
    map["--max-pods" := Number(p.maxPods), "--cloud-provider" := Text(p.cloudProvider), "--node-ip" := Text(p.nodeIp)] +
    match p.credentials
    case None => map[]
    case Some(c) => map["--image-credential-provider-config" := Text(c.config),
                        "--image-credential-provider-bin-dir" := Text(c.binDir)]
  }

  function BaseApiServer(p: Provider): Entries {
    if !p.controlPlane then map[]
    else
      map["--advertise-address" := Text(p.nodeIp), "--authorization-mode" := Text("RBAC,Node")] +
      match p.etcd
      case None => map[]
      case Some(e) => map["--etcd-servers" := Text(e.endpoints), "--etcd-cafile" := Text(e.sslDir + "/ca.pem"),
                          "--etcd-certfile" := Text(e.sslDir + "/etcd.pem"),
                          "--etcd-keyfile" := Text(e.sslDir + "/etcd-key.pem")]
  }

  function BaseConfig(p: Provider): Entries {
    map["version" := Text("0.1.0"), "persistentClusterToken" := Text(p.token),
        "join" := MapAny(map["url" := Text(p.address + "/" + p.token), "worker" := Flag(!p.controlPlane)])] +
    (if p.controlPlane then map["addons" := Addons(["dns", "rbac", "hostpath-storage"])]
     else if p.useLoadBalancer then
       map["extraMicroK8sAPIServerProxyArgs" :=
             MapAny(map["--refresh-interval" := Text("0"),
                        "--traefik-config" := Text("/usr/local/etc/microk8s/traefik.yaml")])]
     else map[])
  }

  function BaseMaps(p: Provider): Maps { Maps(BaseConfig(p), BaseKubelet(p), BaseApiServer(p)) }

  /******* The merge *******/

  /** The type assertion `v.(MapAny)` fails for one of the two extra-args keys. */
  predicate BadExtra(over: Entries) {
    (KUBELET in over && !over[KUBELET].MapAny?) || (API_SERVER in over && !over[API_SERVER].MapAny?)
  }

  function Extra(over: Entries, key: string): Entries {
    if key in over && over[key].MapAny? then over[key].entries else map[]
  }

  function NonEmpty(key: string, args: Entries): Entries { if |args| > 0 then map[key := MapAny(args)] else map[] }

  /** The three maps under construction. */
  datatype Maps = Maps(config: Entries, kubelet: Entries, apiServer: Entries)

  function Overridden(base: Maps, over: Entries): Maps {
    Maps(base.config + (over - {KUBELET, API_SERVER}),
         base.kubelet + Extra(over, KUBELET),
         base.apiServer + Extra(over, API_SERVER))
  }

  /** The base overridden by everything but the two extra-args entries; these are merged. */
  function Merged(base: Maps, over: Entries): Entries {
    var m := Overridden(base, over);
    m.config + NonEmpty(KUBELET, m.kubelet) + NonEmpty(API_SERVER, m.apiServer)
  }

  lemma OrdinaryKey(base: Maps, done: Entries, k: string, v: Value)
    requires k != KUBELET && k != API_SERVER
    ensures var m := Overridden(base, done); Overridden(base, done[k := v]) == m.(config := m.config[k := v])
    ensures BadExtra(done[k := v]) <==> BadExtra(done)
  {
    assert done[k := v] - {KUBELET, API_SERVER} == (done - {KUBELET, API_SERVER})[k := v];
  }

  lemma KubeletKey(base: Maps, done: Entries, v: Value)
    requires KUBELET !in done && v.MapAny?
    ensures var m := Overridden(base, done);
            Overridden(base, done[KUBELET := v]) == m.(kubelet := m.kubelet + v.entries)
    ensures BadExtra(done[KUBELET := v]) <==> BadExtra(done)
  {
    DifferentKeys();
    assert done[KUBELET := v] - {KUBELET, API_SERVER} == done - {KUBELET, API_SERVER};
  }

  lemma ApiServerKey(base: Maps, done: Entries, v: Value)
    requires API_SERVER !in done && v.MapAny?
    ensures var m := Overridden(base, done);
            Overridden(base, done[API_SERVER := v]) == m.(apiServer := m.apiServer + v.entries)
    ensures BadExtra(done[API_SERVER := v]) <==> BadExtra(done)
  {
    DifferentKeys();
    assert done[API_SERVER := v] - {KUBELET, API_SERVER} == done - {KUBELET, API_SERVER};
  }

  /** One round of the loop over the override. */
  method OverrideOne(maps: Maps, k: string, v: Value, ghost base: Maps, ghost done: Entries)
    returns (r: Option<Maps>)
    requires maps == Overridden(base, done) && k !in done && !BadExtra(done)
    ensures r.None? <==> (k == KUBELET || k == API_SERVER) && !v.MapAny?
    ensures r.Some? ==> r.value == Overridden(base, done[k := v]) && !BadExtra(done[k := v])
  {
    if k == KUBELET {
      if !v.MapAny? {
        return None;
      }
      var args := StoreAll(maps.kubelet, v.entries);
      KubeletKey(base, done, v);
      r := Some(maps.(kubelet := args));
    } else if k == API_SERVER {
      if !v.MapAny? {
        return None;
      }
      var args := StoreAll(maps.apiServer, v.entries);
      ApiServerKey(base, done, v);
      r := Some(maps.(apiServer := args));
    } else {
      OrdinaryKey(base, done, k, v);
      r := Some(maps.(config := maps.config[k := v]));
    }
  }

  /** The three maps after the loop over the override, in an arbitrary order, or none if it panics. */
  method Override(base: Maps, over: Entries) returns (r: Option<Maps>)
    ensures r.None? <==> BadExtra(over)
    ensures r.Some? ==> r.value == Overridden(base, over)
  {
    var maps := base;
    var left := over.Keys;
    NothingOverridden(base);
    assert over - left == map[];
    while left != {}
      invariant left <= over.Keys
      invariant !BadExtra(over - left) && maps == Overridden(base, over - left)
    {
      var k :| k in left;
      var next := OverrideOne(maps, k, over[k], base, over - left);
      if next.None? {
        return None;
      }
      assert over - (left - {k}) == (over - left)[k := over[k]];
      maps := next.value;
      left := left - {k};
    }
    assert over - left == over;
    r := Some(maps);
  }

  /** `agentConfig`.  Every iteration order of the override and of its nested maps gives the same
      configuration. */
  method AgentConfig(p: Provider) returns (r: Option<Entries>)
    ensures r.None? <==> p.override.Some? && BadExtra(p.override.value)
    ensures r.Some? ==> r.value == Merged(BaseMaps(p), if p.override.Some? then p.override.value else map[])
  {
    var maps := BuildBase(p);
    if p.override.Some? {
      var merged := Override(maps, p.override.value);
      if merged.None? {
        return None;
      }
      maps := merged.value;
    } else {
      NothingOverridden(maps);
    }
    var config := PutArgs(maps.config, KUBELET, maps.kubelet);
    config := PutArgs(config, API_SERVER, maps.apiServer);
    r := Some(config);
  }

  method PutArgs(config: Entries, key: string, args: Entries) returns (r: Entries)
    ensures r == config + NonEmpty(key, args)
  {
    r := config;
    if |args| > 0 {
      r := r[key := MapAny(args)];
    }
  }

  method BuildBase(p: Provider) returns (maps: Maps)
    ensures maps == BaseMaps(p)
  {
    var kubelet := BuildKubelet(p);
    var config := BuildConfig(p);
    var apiServer := BuildApiServer(p);
    maps := Maps(config, kubelet, apiServer);
  }

  method BuildKubelet(p: Provider) returns (r: Entries)
    ensures r == BaseKubelet(p)
  {
    r := map["--max-pods" := Number(p.maxPods), "--cloud-provider" := Text(p.cloudProvider),
             "--node-ip" := Text(p.nodeIp)];
    if p.credentials.Some? {
      r := r["--image-credential-provider-config" := Text(p.credentials.value.config)];
      r := r["--image-credential-provider-bin-dir" := Text(p.credentials.value.binDir)];
    }
  }

  method BuildConfig(p: Provider) returns (r: Entries)
    ensures r == BaseConfig(p)
  {
    r := map["version" := Text("0.1.0"), "persistentClusterToken" := Text(p.token),
             "join" := MapAny(map["url" := Text(p.address + "/" + p.token), "worker" := Flag(!p.controlPlane)])];
    if p.controlPlane {
      r := r["addons" := Addons(["dns", "rbac", "hostpath-storage"])];
    } else if p.useLoadBalancer {
      r := r["extraMicroK8sAPIServerProxyArgs" :=
               MapAny(map["--refresh-interval" := Text("0"),
                          "--traefik-config" := Text("/usr/local/etc/microk8s/traefik.yaml")])];
    }
  }

  method BuildApiServer(p: Provider) returns (r: Entries)
    ensures r == BaseApiServer(p)
  {
    r := map[];
    if p.controlPlane {
      r := r["--advertise-address" := Text(p.nodeIp)];
      r := r["--authorization-mode" := Text("RBAC,Node")];
      if p.etcd.Some? {
        var e := p.etcd.value;
        r := r["--etcd-servers" := Text(e.endpoints)];
        r := r["--etcd-cafile" := Text(e.sslDir + "/ca.pem")];
        r := r["--etcd-certfile" := Text(e.sslDir + "/etcd.pem")];
        r := r["--etcd-keyfile" := Text(e.sslDir + "/etcd-key.pem")];
      }
    }
  }

  lemma NothingOverridden(base: Maps)
    ensures Overridden(base, map[]) == base
  {
  }

  /******* The merge, key by key *******/

  function Lookup(m: Entries, k: string): Option<Value> { if k in m then Some(m[k]) else None }

  /** The override wins. */
  function Either(over: Option<Value>, base: Option<Value>): Option<Value> { if over.Some? then over else base }

  /** What an extra-args entry holds for one argument. */
  function Argument(m: Entries, key: string, k: string): Option<Value> {
    match Lookup(m, key)
    case Some(MapAny(entries)) => Lookup(entries, k)
    case _ => None
  }

  lemma LookupSum(a: Entries, b: Entries, k: string)
    ensures Lookup(a + b, k) == Either(Lookup(b, k), Lookup(a, k))
  {
  }

  lemma LookupNonEmpty(key: string, args: Entries, k: string)
    ensures Lookup(NonEmpty(key, args), k) == if k == key && args != map[] then Some(MapAny(args)) else None
  {
  }

  lemma DifferentKeys()
    ensures KUBELET != API_SERVER
  {
    assert |KUBELET| != |API_SERVER|;
  }

  /** An ordinary key has its overriding value, or else its base value: whole values are replaced. */
  lemma MergedOrdinaryKey(base: Maps, over: Entries, k: string)
    requires k != KUBELET && k != API_SERVER
    ensures Lookup(Merged(base, over), k) == Either(Lookup(over, k), Lookup(base.config, k))
  {
    var m := Overridden(base, over);
    LookupNonEmpty(KUBELET, m.kubelet, k);
    LookupNonEmpty(API_SERVER, m.apiServer, k);
    LookupSum(base.config, over - {KUBELET, API_SERVER}, k);
    LookupSum(m.config, NonEmpty(KUBELET, m.kubelet), k);
    LookupSum(m.config + NonEmpty(KUBELET, m.kubelet), NonEmpty(API_SERVER, m.apiServer), k);
  }

  function ArgsEntry(args: Entries): Option<Value> { if args == map[] then None else Some(MapAny(args)) }

  lemma ExtraArgsEntries(base: Maps, over: Entries)
    requires KUBELET !in base.config && API_SERVER !in base.config
    ensures var m := Overridden(base, over);
            && Lookup(Merged(base, over), KUBELET) == ArgsEntry(m.kubelet)
            && Lookup(Merged(base, over), API_SERVER) == ArgsEntry(m.apiServer)
  {
    var m := Overridden(base, over);
    DifferentKeys();
    var a, b := NonEmpty(KUBELET, m.kubelet), NonEmpty(API_SERVER, m.apiServer);
    forall k | k == KUBELET || k == API_SERVER
      ensures Lookup(Merged(base, over), k) == Either(Lookup(b, k), Lookup(a, k))
    {
      assert k !in m.config;
      LookupSum(m.config, a, k);
      LookupSum(m.config + a, b, k);
    }
    LookupNonEmpty(KUBELET, m.kubelet, KUBELET);
    LookupNonEmpty(KUBELET, m.kubelet, API_SERVER);
    LookupNonEmpty(API_SERVER, m.apiServer, KUBELET);
    LookupNonEmpty(API_SERVER, m.apiServer, API_SERVER);
  }

  lemma ArgumentOfEntry(m: Entries, key: string, args: Entries, over: Entries, k: string)
    requires Lookup(m, key) == ArgsEntry(args + Extra(over, key))
    ensures Argument(m, key, k) == Either(Argument(over, key, k), Lookup(args, k))
    ensures key in m <==> args + Extra(over, key) != map[]
  {
    LookupSum(args, Extra(over, key), k);
    assert args + Extra(over, key) == map[] ==> Lookup(args + Extra(over, key), k) == None;
  }

  /** The two extra-args maps are overridden one level deeper, argument by argument, and are present
      iff there is at least one argument. */
  lemma MergedExtraArgs(base: Maps, over: Entries, k: string)
    requires KUBELET !in base.config && API_SERVER !in base.config
    ensures var m := Merged(base, over);
            && Argument(m, KUBELET, k) == Either(Argument(over, KUBELET, k), Lookup(base.kubelet, k))
            && Argument(m, API_SERVER, k) == Either(Argument(over, API_SERVER, k), Lookup(base.apiServer, k))
            && (KUBELET in m <==> base.kubelet + Extra(over, KUBELET) != map[])
            && (API_SERVER in m <==> base.apiServer + Extra(over, API_SERVER) != map[])
  {
    ExtraArgsEntries(base, over);
    ArgumentOfEntry(Merged(base, over), KUBELET, base.kubelet, over, k);
    ArgumentOfEntry(Merged(base, over), API_SERVER, base.apiServer, over, k);
  }

  /** What is in the base: the extra-args keys are not; the kubelet arguments are never empty, those of
      the API server are empty for workers only. */
  lemma BaseMeaning(p: Provider)
    ensures KUBELET !in BaseConfig(p) && API_SERVER !in BaseConfig(p)
    ensures BaseKubelet(p) != map[] && (BaseApiServer(p) != map[] <==> p.controlPlane)
  {
    assert "--max-pods" in BaseKubelet(p);
    assert p.controlPlane ==> "--advertise-address" in BaseApiServer(p);
    // The names differ in length or in their first letter.
    assert |KUBELET| == 16 && |API_SERVER| == 22 && |"persistentClusterToken"| == 22;
    assert |"version"| == 7 && |"join"| == 4 && |"addons"| == 6 && |"extraMicroK8sAPIServerProxyArgs"| == 31;
    assert API_SERVER[0] != "persistentClusterToken"[0];
  }

  /** So the kubelet arguments are always in the configuration, those of the API server iff the node is
      of the control plane or the override has some. */
  lemma ExtraArgsPresent(p: Provider, over: Entries)
    ensures var m := Merged(BaseMaps(p), over);
            KUBELET in m && (API_SERVER in m <==> p.controlPlane || Extra(over, API_SERVER) != map[])
  {
    BaseMeaning(p);
    MergedExtraArgs(BaseMaps(p), over, "");
    NotEmpty(BaseKubelet(p), Extra(over, KUBELET));
    NotEmpty(BaseApiServer(p), Extra(over, API_SERVER));
  }

  lemma NotEmpty(a: Entries, b: Entries)
    ensures a + b != map[] <==> a != map[] || b != map[]
  {
    if a != map[] {
      var k :| k in a;
      assert k in a + b;
    }
    if b != map[] {
      var k :| k in b;
      assert k in a + b;
    }
  }

  /******* The configuration, name by name *******/

  /** What the top level holds for a name unless it is overridden. */
  function DefaultEntry(p: Provider, k: string): Option<Value> {
    if k == "version" then Some(Text("0.1.0"))
    else if k == "persistentClusterToken" then Some(Text(p.token))
    else if k == "join" then
      Some(MapAny(map["url" := Text(p.address + "/" + p.token), "worker" := Flag(!p.controlPlane)]))
    else if k == "addons" && p.controlPlane then Some(Addons(["dns", "rbac", "hostpath-storage"]))
    else if k == "extraMicroK8sAPIServerProxyArgs" && !p.controlPlane && p.useLoadBalancer then
      Some(MapAny(map["--refresh-interval" := Text("0"),
                      "--traefik-config" := Text("/usr/local/etc/microk8s/traefik.yaml")]))
    else None
  }

  function DefaultKubelet(p: Provider, k: string): Option<Value> {
    if k == "--max-pods" then Some(Number(p.maxPods))
    else if k == "--cloud-provider" then Some(Text(p.cloudProvider))
    else if k == "--node-ip" then Some(Text(p.nodeIp))
    else if p.credentials.None? then None
    else if k == "--image-credential-provider-config" then Some(Text(p.credentials.value.config))
    else if k == "--image-credential-provider-bin-dir" then Some(Text(p.credentials.value.binDir))
    else None
  }

  function DefaultApiServer(p: Provider, k: string): Option<Value> {
    if !p.controlPlane then None
    else if k == "--advertise-address" then Some(Text(p.nodeIp))
    else if k == "--authorization-mode" then Some(Text("RBAC,Node"))
    else if p.etcd.None? then None
    else if k == "--etcd-servers" then Some(Text(p.etcd.value.endpoints))
    else if k == "--etcd-cafile" then Some(Text(p.etcd.value.sslDir + "/ca.pem"))
    else if k == "--etcd-certfile" then Some(Text(p.etcd.value.sslDir + "/etcd.pem"))
    else if k == "--etcd-keyfile" then Some(Text(p.etcd.value.sslDir + "/etcd-key.pem"))
    else None
  }

  lemma BaseEntries(p: Provider, k: string)
    ensures Lookup(BaseConfig(p), k) == DefaultEntry(p, k)
  {
    assert |"version"| == 7 && |"persistentClusterToken"| == 22 && |"join"| == 4 && |"addons"| == 6;
    assert |"extraMicroK8sAPIServerProxyArgs"| == 31;
  }

  lemma BaseKubeletArguments(p: Provider, k: string)
    ensures Lookup(BaseKubelet(p), k) == DefaultKubelet(p, k)
  {
    assert |"--max-pods"| == 10 && |"--cloud-provider"| == 16 && |"--node-ip"| == 9;
    assert |"--image-credential-provider-config"| == 34 && |"--image-credential-provider-bin-dir"| == 35;
  }

  lemma BaseApiServerArguments(p: Provider, k: string)
    ensures Lookup(BaseApiServer(p), k) == DefaultApiServer(p, k)
  {
    assert |"--advertise-address"| == 19 && |"--authorization-mode"| == 20 && |"--etcd-servers"| == 14;
    assert |"--etcd-cafile"| == 13 && |"--etcd-certfile"| == 15 && |"--etcd-keyfile"| == 14;
    assert "--etcd-servers"[7] != "--etcd-keyfile"[7];
  }

  /** Whatever the override: every name of the configuration, and every argument of its two nested maps, has its
      overriding value or its default for the role of the node, and there are no others. */
  lemma ConfigurationMeaning(p: Provider, over: Entries, k: string)
    ensures var m := Merged(BaseMaps(p), over);
            && (k != KUBELET && k != API_SERVER ==> Lookup(m, k) == Either(Lookup(over, k), DefaultEntry(p, k)))
            && Argument(m, KUBELET, k) == Either(Argument(over, KUBELET, k), DefaultKubelet(p, k))
            && Argument(m, API_SERVER, k) == Either(Argument(over, API_SERVER, k), DefaultApiServer(p, k))
  {
    BaseEntries(p, k);
    BaseKubeletArguments(p, k);
    BaseApiServerArguments(p, k);
    BaseMeaning(p);
    MergedExtraArgs(BaseMaps(p), over, k);
    if k != KUBELET && k != API_SERVER {
      MergedOrdinaryKey(BaseMaps(p), over, k);
    }
  }
}
