/** Hardening standards: a common baseline, extended in place according to a flavor's tier and ID. */
module Standards {
  import opened Options
  import opened Flavors

  datatype Record = Record(
    flavorId: string, tier: string, securityBaseline: string, requiredPackages: seq<string>,
    kernelParameters: map<string, string>, systemdUnits: seq<string>, cdiSpecRequired: bool, maxIdleMemoryMb: int)

  const CIS_UBUNTU := "CIS Ubuntu Linux 24.04 Benchmark L2 / BSI IT-Grundschutz SYS.1.3"
  const CIS_KUBERNETES := "CIS Kubernetes Benchmark v1.37 / CIS OS L2"
  const BASE_PACKAGES := ["chrony", "qemu-guest-agent", "open-vm-tools", "acpid", "zstd"]
  const BASE_UNITS := ["chrony.service", "qemu-guest-agent.service", "acpid.service"]
  const BASE_PARAMETERS := map[
    "net.ipv4.tcp_congestion_control" := "bbr",
    "net.core.default_qdisc" := "fq",
    "vm.swappiness" := "10",
    "kernel.sysrq" := "0",
    "fs.protected_hardlinks" := "1",
    "fs.protected_symlinks" := "1"]

  function Baseline(fl: Flavor): Record {
    Record(fl.id, fl.tierId, CIS_UBUNTU, BASE_PACKAGES, BASE_PARAMETERS, BASE_UNITS, false, 0)
  }

  predicate Contains(s: string, sub: string) {
    exists i :: 0 <= i <= |s| - |sub| && s[i..][..|sub|] == sub
  }

  predicate NamesVendor(id: string) { Contains(id, "nvidia") || Contains(id, "intel") || Contains(id, "amd") }

  // ----- What a tier adds -----

  /** Packages and units to append, parameters to set, and what to overwrite. */
  datatype Extra = Extra(
    packages: seq<string>, parameters: map<string, string>, units: seq<string>, cdi: bool,
    baseline: Option<string>, maxIdle: Option<int>)

  // The lists the tiers bring.
  function PodmanPackages(): seq<string> { ["podman", "buildah", "skopeo"] }
  function DockerPackages(): seq<string> { ["docker-ce", "docker-compose-plugin"] }
  function DockerUnits(): seq<string> { ["docker.service"] }
  function KubernetesPackages(): seq<string> { ["containerd", "kubelet", "kubeadm", "kubectl"] }
  function KubernetesUnits(): seq<string> { ["containerd.service", "kubelet.service"] }
  function K3sPackages(): seq<string> { ["curl", "iptables"] }
  function StoragePackages(): seq<string> { ["zfsutils-linux", "nvme-cli", "multipath-tools"] }
  function InferencePackages(): seq<string> { ["numactl", "docker-ce"] }
  function VisionPackages(): seq<string> { ["gasket-dkms", "intel-media-va-driver-non-free", "docker-ce"] }
  function GatewayPackages(): seq<string> { ["wireguard", "iptables"] }
  function GamePackages(): seq<string> { ["steamcmd", "docker-ce"] }
  function MediaPackages(): seq<string> { ["nfs-common", "cifs-utils", "docker-ce"] }
  function RunnerPackages(): seq<string> { ["docker-ce", "git-lfs"] }

  function KubernetesParameters(): map<string, string> {
    map["net.bridge.bridge-nf-call-iptables" := "1", "net.ipv4.ip_forward" := "1"]
  }
  function DatabaseParameters(): map<string, string> {
    map["vm.overcommit_memory" := "2", "vm.overcommit_ratio" := "80"]
  }
  function InferenceParameters(): map<string, string> {
    map["vm.zone_reclaim_mode" := "0"]
  }
  function GameParameters(): map<string, string> {
    map["net.core.rmem_max" := "16777216", "net.core.wmem_max" := "16777216"]
  }

  function K3sUnits(id: string): seq<string> {
    [if id == "k3s-server-generic" then "k3s.service" else "k3s-agent.service"]
  }

  const NOTHING := Extra([], map[], [], false, None, None)

  function ContainersExtra(id: string): Extra {
    var e := NOTHING.(cdi := NamesVendor(id));
    if "podman" <= id then e.(packages := PodmanPackages())
    else e.(packages := DockerPackages(), units := DockerUnits())
  }

  function CloudnativeExtra(id: string): Extra {
    if id == "cloudnative-storage" then NOTHING.(packages := StoragePackages())
    else if id == "cloudnative-pg" then NOTHING.(parameters := DatabaseParameters())
    else NOTHING
  }

  function HomelabExtra(id: string): Extra {
    if id == "appliance-vision-nvr" then
      NOTHING.(packages := VisionPackages(), cdi := true)
    else if id == "appliance-gateway-dns" then
      NOTHING.(packages := GatewayPackages(), maxIdle := Some(150))
    else if id == "appliance-game-server" then
      NOTHING.(packages := GamePackages(),
               parameters := GameParameters())
    else if id == "appliance-media-server" then NOTHING.(packages := MediaPackages())
    else if id == "appliance-ci-runner" then NOTHING.(packages := RunnerPackages())
    else NOTHING
  }

  function ExtraFor(fl: Flavor): Extra {
    match fl.tierId
    case "containers" => ContainersExtra(fl.id)
    case "kubernetes" =>
      NOTHING.(packages := KubernetesPackages(),
               parameters := KubernetesParameters(),
               units := KubernetesUnits(), baseline := Some(CIS_KUBERNETES))
    case "k3s" =>
      NOTHING.(packages := K3sPackages(),
               units := K3sUnits(fl.id),
               maxIdle := Some(300))
    case "cloudnative" => CloudnativeExtra(fl.id)
    case "ai-infer" =>
      NOTHING.(packages := InferencePackages(), parameters := InferenceParameters(), cdi := NamesVendor(fl.id))
    case "homelab" => HomelabExtra(fl.id)
    case _ => NOTHING
  }

  function Extend(r: Record, e: Extra): Record {
    r.(requiredPackages := r.requiredPackages + e.packages,
       kernelParameters := r.kernelParameters + e.parameters,
       systemdUnits := r.systemdUnits + e.units,
       cdiSpecRequired := r.cdiSpecRequired || e.cdi,
       securityBaseline := if e.baseline.Some? then e.baseline.value else r.securityBaseline,
       maxIdleMemoryMb := if e.maxIdle.Some? then e.maxIdle.value else r.maxIdleMemoryMb)
  }

  function StandardOf(fl: Flavor): Record { Extend(Baseline(fl), ExtraFor(fl)) }

  /** The kernel parameters a tier may set. */
  function TierParameters(): set<string> {
    KubernetesParameters().Keys + DatabaseParameters().Keys + InferenceParameters().Keys + GameParameters().Keys
  }

  /** Nothing is taken away, and of the kernel parameters only those of the tiers may change. */
  ghost predicate OnlyExtends(before: Record, after: Record) {
    && after.flavorId == before.flavorId && after.tier == before.tier
    && before.requiredPackages <= after.requiredPackages && before.systemdUnits <= after.systemdUnits
    && (before.cdiSpecRequired ==> after.cdiSpecRequired)
    && before.kernelParameters.Keys <= after.kernelParameters.Keys <= before.kernelParameters.Keys + TierParameters()
    && (forall p :: p in before.kernelParameters && p !in TierParameters() ==>
          after.kernelParameters[p] == before.kernelParameters[p])
  }

  lemma ExtraIsTierParameters(fl: Flavor)
    ensures ExtraFor(fl).parameters.Keys <= TierParameters()
  {
    hide NamesVendor, KubernetesParameters, DatabaseParameters, InferenceParameters, GameParameters;
    hide PodmanPackages, DockerPackages, DockerUnits, StoragePackages, VisionPackages, GatewayPackages;
    hide GamePackages, MediaPackages, RunnerPackages, K3sUnits, K3sPackages, KubernetesPackages, KubernetesUnits;
    hide InferencePackages;
  }

  lemma ExtraOnlyExtends(r: Record, fl: Flavor)
    ensures OnlyExtends(r, Extend(r, ExtraFor(fl)))
  {
    ExtraIsTierParameters(fl);
    hide ExtraFor, TierParameters;
  }

  // ----- What each standard contains -----

  lemma BaselineMeaning(fl: Flavor)
    ensures Baseline(fl) == Record(fl.id, fl.tierId,
      "CIS Ubuntu Linux 24.04 Benchmark L2 / BSI IT-Grundschutz SYS.1.3",
      ["chrony", "qemu-guest-agent", "open-vm-tools", "acpid", "zstd"],
      map["net.ipv4.tcp_congestion_control" := "bbr", "net.core.default_qdisc" := "fq", "vm.swappiness" := "10",
        "kernel.sysrq" := "0", "fs.protected_hardlinks" := "1", "fs.protected_symlinks" := "1"],
      ["chrony.service", "qemu-guest-agent.service", "acpid.service"], false, 0)
  {
  }

  /** Somewhere in the ID stands the name of a vendor. */
  ghost predicate Vendor(id: string) {
    exists i :: 0 <= i <= |id| && ("nvidia" <= id[i..] || "intel" <= id[i..] || "amd" <= id[i..])
  }

  lemma ContainsMeaning(s: string, sub: string)
    ensures Contains(s, sub) <==> exists i :: 0 <= i <= |s| && sub <= s[i..]
  {
    if Contains(s, sub) {
      var i :| 0 <= i <= |s| - |sub| && s[i..][..|sub|] == sub;
      assert sub <= s[i..];
    }
    if i :| 0 <= i <= |s| && sub <= s[i..] { assert s[i..][..|sub|] == sub; }
  }

  lemma VendorMeaning(id: string)
    ensures NamesVendor(id) <==> Vendor(id)
  {
    hide Contains;
    ContainsMeaning(id, "nvidia");
    ContainsMeaning(id, "intel");
    ContainsMeaning(id, "amd");
  }

  lemma ContainersMeaning(fl: Flavor)
    requires fl.tierId == "containers"
    ensures var base, podman := Baseline(fl), "podman" <= fl.id;
      StandardOf(fl) == base.(
        requiredPackages := base.requiredPackages +
          if podman then ["podman", "buildah", "skopeo"] else ["docker-ce", "docker-compose-plugin"],
        systemdUnits := base.systemdUnits + if podman then [] else ["docker.service"],
        cdiSpecRequired := Vendor(fl.id))
  {
    VendorMeaning(fl.id);
    hide NamesVendor, Vendor, BASE_PACKAGES, BASE_UNITS, BASE_PARAMETERS, CIS_UBUNTU;
    assert BASE_PARAMETERS + map[] == BASE_PARAMETERS;
  }

  lemma ClustersMeaning(fl: Flavor)
    ensures var base := Baseline(fl);
      fl.tierId == "kubernetes" ==> StandardOf(fl) == base.(
        securityBaseline := "CIS Kubernetes Benchmark v1.37 / CIS OS L2",
        requiredPackages := base.requiredPackages + ["containerd", "kubelet", "kubeadm", "kubectl"],
        kernelParameters := base.kernelParameters
          + map["net.bridge.bridge-nf-call-iptables" := "1", "net.ipv4.ip_forward" := "1"],
        systemdUnits := base.systemdUnits + ["containerd.service", "kubelet.service"])
    ensures var base := Baseline(fl);
      fl.tierId == "k3s" ==> StandardOf(fl) == base.(
        requiredPackages := base.requiredPackages + ["curl", "iptables"],
        systemdUnits := base.systemdUnits
          + [if fl.id == "k3s-server-generic" then "k3s.service" else "k3s-agent.service"],
        maxIdleMemoryMb := 300)
  {
    hide BASE_PACKAGES, BASE_UNITS, BASE_PARAMETERS, CIS_UBUNTU;
    assert BASE_PARAMETERS + map[] == BASE_PARAMETERS;
  }

  lemma CloudnativeMeaning(fl: Flavor)
    requires fl.tierId == "cloudnative"
    ensures var base := Baseline(fl);
      StandardOf(fl) == base.(
        requiredPackages := base.requiredPackages +
          if fl.id == "cloudnative-storage" then ["zfsutils-linux", "nvme-cli", "multipath-tools"] else [],
        kernelParameters := base.kernelParameters +
          if fl.id == "cloudnative-pg" then map["vm.overcommit_memory" := "2", "vm.overcommit_ratio" := "80"]
          else map[])
  {
    hide BASE_PACKAGES, BASE_UNITS, BASE_PARAMETERS, CIS_UBUNTU;
    assert BASE_UNITS + [] == BASE_UNITS;
  }

  lemma InferenceMeaning(fl: Flavor)
    requires fl.tierId == "ai-infer"
    ensures var base := Baseline(fl);
      StandardOf(fl) == base.(
        requiredPackages := base.requiredPackages + ["numactl", "docker-ce"],
        kernelParameters := base.kernelParameters + map["vm.zone_reclaim_mode" := "0"],
        cdiSpecRequired := Vendor(fl.id))
  {
    VendorMeaning(fl.id);
    hide NamesVendor, Vendor, BASE_PACKAGES, BASE_UNITS, BASE_PARAMETERS, CIS_UBUNTU;
    assert BASE_UNITS + [] == BASE_UNITS;
  }

  lemma HomelabMeaning(fl: Flavor)
    requires fl.tierId == "homelab"
    ensures var base := Baseline(fl);
      StandardOf(fl) == base.(
        requiredPackages := base.requiredPackages +
          match fl.id
          case "appliance-vision-nvr" => ["gasket-dkms", "intel-media-va-driver-non-free", "docker-ce"]
          case "appliance-gateway-dns" => ["wireguard", "iptables"]
          case "appliance-game-server" => ["steamcmd", "docker-ce"]
          case "appliance-media-server" => ["nfs-common", "cifs-utils", "docker-ce"]
          case "appliance-ci-runner" => ["docker-ce", "git-lfs"]
          case _ => [],
        kernelParameters := base.kernelParameters +
          if fl.id == "appliance-game-server" then
            map["net.core.rmem_max" := "16777216", "net.core.wmem_max" := "16777216"]
          else map[],
        cdiSpecRequired := fl.id == "appliance-vision-nvr",
        maxIdleMemoryMb := if fl.id == "appliance-gateway-dns" then 150 else 0)
  {
    hide BASE_PACKAGES, BASE_UNITS, BASE_PARAMETERS, CIS_UBUNTU;
    assert BASE_UNITS + [] == BASE_UNITS;
  }

  lemma OtherTiersMeaning(fl: Flavor)
    requires fl.tierId !in {"containers", "kubernetes", "k3s", "cloudnative", "ai-infer", "homelab"}
    ensures StandardOf(fl) == Baseline(fl)
  {
    hide BASE_PACKAGES, BASE_UNITS, BASE_PARAMETERS, CIS_UBUNTU;
    assert BASE_UNITS + [] == BASE_UNITS && BASE_PACKAGES + [] == BASE_PACKAGES;
    assert BASE_PARAMETERS + map[] == BASE_PARAMETERS;
  }

  // ----- The standard as it is built -----

  class Standard {
    var flavorId: string
    var tier: string
    var securityBaseline: string
    var requiredPackages: seq<string>
    var kernelParameters: map<string, string>
    var systemdUnits: seq<string>
    var cdiSpecRequired: bool
    var maxIdleMemoryMb: int

    constructor (fl: Flavor)
      ensures Now() == Baseline(fl)
    {
      flavorId, tier, securityBaseline := fl.id, fl.tierId, CIS_UBUNTU;
      requiredPackages, kernelParameters, systemdUnits := BASE_PACKAGES, BASE_PARAMETERS, BASE_UNITS;
      cdiSpecRequired, maxIdleMemoryMb := false, 0;
    }

    function Now(): Record
      reads this
    {
      Record(flavorId, tier, securityBaseline, requiredPackages, kernelParameters, systemdUnits, cdiSpecRequired,
        maxIdleMemoryMb)
    }

    method EnrichTierStandard(fl: Flavor)
      modifies this
      ensures Now() == Extend(old(Now()), ExtraFor(fl))
      ensures OnlyExtends(old(Now()), Now())
    {
      hide OnlyExtends;
      ExtraOnlyExtends(Now(), fl);
      hide NamesVendor, ContainersExtra, CloudnativeExtra, HomelabExtra, K3sUnits;
      hide KubernetesPackages, KubernetesUnits, KubernetesParameters, K3sPackages, InferencePackages,
        InferenceParameters;
      match fl.tierId
      case "containers" =>
        EnrichContainers(fl);
      case "kubernetes" =>
        securityBaseline := CIS_KUBERNETES;
        requiredPackages := requiredPackages + KubernetesPackages();
        kernelParameters := kernelParameters + KubernetesParameters();
        systemdUnits := systemdUnits + KubernetesUnits();
      case "k3s" =>
        requiredPackages := requiredPackages + K3sPackages();
        systemdUnits := systemdUnits + K3sUnits(fl.id);
        maxIdleMemoryMb := 300;
      case "cloudnative" =>
        EnrichCloudnative(fl);
      case "ai-infer" =>
        requiredPackages := requiredPackages + InferencePackages();
        kernelParameters := kernelParameters + InferenceParameters();
        if NamesVendor(fl.id) { cdiSpecRequired := true; }
      case "homelab" =>
        EnrichHomelab(fl);
      case _ =>
    }

    method EnrichContainers(fl: Flavor)
      modifies this
      ensures Now() == Extend(old(Now()), ContainersExtra(fl.id))
    {
      hide NamesVendor, PodmanPackages, DockerPackages, DockerUnits;
      if "podman" <= fl.id {
        requiredPackages := requiredPackages + PodmanPackages();
      } else {
        requiredPackages := requiredPackages + DockerPackages();
        systemdUnits := systemdUnits + DockerUnits();
      }
      if NamesVendor(fl.id) { cdiSpecRequired := true; }
    }

    method EnrichCloudnative(fl: Flavor)
      modifies this
      ensures Now() == Extend(old(Now()), CloudnativeExtra(fl.id))
    {
      hide StoragePackages, DatabaseParameters;
      if fl.id == "cloudnative-storage" {
        requiredPackages := requiredPackages + StoragePackages();
      } else if fl.id == "cloudnative-pg" {
        kernelParameters := kernelParameters + DatabaseParameters();
      }
    }

    method EnrichHomelab(fl: Flavor)
      modifies this
      ensures Now() == Extend(old(Now()), HomelabExtra(fl.id))
    {
      hide VisionPackages, GatewayPackages, GamePackages, GameParameters, MediaPackages, RunnerPackages;
      if fl.id == "appliance-vision-nvr" {
        requiredPackages := requiredPackages + VisionPackages();
        cdiSpecRequired := true;
      } else if fl.id == "appliance-gateway-dns" {
        requiredPackages := requiredPackages + GatewayPackages();
        maxIdleMemoryMb := 150;
      } else if fl.id == "appliance-game-server" {
        requiredPackages := requiredPackages + GamePackages();
        kernelParameters := kernelParameters + GameParameters();
      } else if fl.id == "appliance-media-server" {
        requiredPackages := requiredPackages + MediaPackages();
      } else if fl.id == "appliance-ci-runner" {
        requiredPackages := requiredPackages + RunnerPackages();
      }
    }
  }

  method Get(catalog: Catalog, flavorId: string) returns (std: Option<Record>)
    requires catalog.Valid()
    ensures var fl := LastWithId(catalog.flavors, flavorId);
      std == if fl.Some? then Some(StandardOf(fl.value)) else None
  {
    var fl := catalog.Get(flavorId);
    if fl.None? { return None; }
    var s := new Standard(fl.value);
    s.EnrichTierStandard(fl.value);
    return Some(s.Now());
  }

  method All(catalog: Catalog) returns (standards: seq<Record>)
    requires catalog.Valid()
    ensures standards == AllOf(catalog.flavors)
  {
    hide LastWithId, StandardOf, AllOf, IndexesIds, IndexesTiers;
    var all := catalog.All();
    standards := [];
    for i := 0 to |all|
      invariant standards == AllOf(all)[..i]
    {
      AllOfAt(all, i);
      var std := Get(catalog, all[i].id);
      if std.Some? { standards := standards + [std.value]; }
    }
  }

  lemma AllOfAt(fs: seq<Flavor>, i: nat)
    requires i < |fs|
    ensures LastWithId(fs, fs[i].id).Some? && AllOf(fs)[i] == StandardOf(LastWithId(fs, fs[i].id).value)
  {
    hide LastWithId, StandardOf;
    IdIsFound(fs, i);
  }

  /** One standard for each entry, in catalog order, made from the entry its ID leads to. */
  function AllOf(fs: seq<Flavor>): (rs: seq<Record>)
    ensures |rs| == |fs|
  {
    seq(|fs|, i requires 0 <= i < |fs| =>
      IdIsFound(fs, i);
      StandardOf(LastWithId(fs, fs[i].id).value))
  }

  lemma IdIsFound(fs: seq<Flavor>, i: nat)
    requires i < |fs|
    ensures LastWithId(fs, fs[i].id).Some?
  {
    LastWithIdIsLast(fs, fs[i].id);
  }

  // ----- What every standard keeps -----

  /** No tier takes anything away from the baseline or changes one of its kernel parameters. */
  lemma KeepsBaseline(fl: Flavor)
    ensures var std := StandardOf(fl);
      && std.flavorId == fl.id && std.tier == fl.tierId
      && BASE_PACKAGES <= std.requiredPackages && BASE_UNITS <= std.systemdUnits
      && (forall p :: p in BASE_PARAMETERS ==>
          p in std.kernelParameters && std.kernelParameters[p] == BASE_PARAMETERS[p])
  {
    ExtraOnlyExtends(Baseline(fl), fl);
    TierParametersAreNew();
    hide ExtraFor, TierParameters, BASE_PARAMETERS;
  }

  lemma TierParametersAreNew()
    ensures TierParameters() !! BASE_PARAMETERS.Keys
  {
  }

  lemma {:induction false} FoundIsEntry(fs: seq<Flavor>, id: string)
    requires LastWithId(fs, id).Some?
    ensures exists k :: 0 <= k < |fs| && fs[k] == LastWithId(fs, id).value && fs[k].id == id
  {
    var n := |fs| - 1;
    if fs[n].id != id {
      FoundIsEntry(fs[..n], id);
      var k :| 0 <= k < n && fs[..n][k] == LastWithId(fs, id).value && fs[..n][k].id == id;
      assert fs[k] == LastWithId(fs, id).value;
    }
  }

  lemma StandardNames(fl: Flavor)
    ensures StandardOf(fl).flavorId == fl.id && StandardOf(fl).tier == fl.tierId
  {
    hide ExtraFor;
  }

  lemma AllAt(fs: seq<Flavor>, i: nat) returns (k: nat)
    requires i < |fs|
    ensures AllOf(fs)[i].flavorId == fs[i].id
    ensures k < |fs| && fs[k].id == fs[i].id && LastWithId(fs, fs[i].id) == Some(fs[k]) &&
        AllOf(fs)[i].tier == fs[k].tierId
  {
    hide StandardOf;
    IdIsFound(fs, i);
    FoundIsEntry(fs, fs[i].id);
    k :| 0 <= k < |fs| && fs[k] == LastWithId(fs, fs[i].id).value && fs[k].id == fs[i].id;
    StandardNames(fs[k]);
  }

  lemma SameIdAndTier(a: Flavor, b: Flavor)
    requires a.id == b.id && a.tierId == b.tierId
    ensures StandardOf(a) == StandardOf(b)
  {
    hide Extend, ContainersExtra, CloudnativeExtra, HomelabExtra, NamesVendor, K3sUnits;
  }

  /** Every entry gets its own standard iff entries that share an ID share the tier. */
  lemma OwnStandardsIff(fs: seq<Flavor>)
    ensures (forall i :: 0 <= i < |fs| ==> AllOf(fs)[i] == StandardOf(fs[i])) <==> TiersAgree(fs)
  {
    hide AllOf, StandardOf;
    if TiersAgree(fs) {
      forall i | 0 <= i < |fs| ensures AllOf(fs)[i] == StandardOf(fs[i]) {
        var k := AllAt(fs, i);
        AllOfAt(fs, i);
        SameIdAndTier(fs[i], fs[k]);
      }
    } else {
      var i, j :| 0 <= i < |fs| && 0 <= j < |fs| && fs[i].id == fs[j].id && fs[i].tierId != fs[j].tierId;
      AllOfAt(fs, i);
      AllOfAt(fs, j);
      StandardNames(fs[i]);
      StandardNames(fs[j]);
    }
  }

  ghost predicate TiersFollow(fs: seq<Flavor>) {
    forall i :: 0 <= i < |fs| ==> AllOf(fs)[i].tier == fs[i].tierId
  }

  ghost predicate TiersAgree(fs: seq<Flavor>) {
    forall i, j :: 0 <= i < |fs| && 0 <= j < |fs| && fs[i].id == fs[j].id ==> fs[i].tierId == fs[j].tierId
  }

  /**
   Standard `i` is for the ID of entry `i`; all have their entry's tier, and are their entry's own standard, iff
   entries that share an ID share the tier.
   */
  lemma AllFollowsCatalog(fs: seq<Flavor>)
    ensures forall i :: 0 <= i < |fs| ==> AllOf(fs)[i].flavorId == fs[i].id
    ensures TiersFollow(fs) <==> TiersAgree(fs)
    ensures (forall i :: 0 <= i < |fs| ==> AllOf(fs)[i] == StandardOf(fs[i])) <==> TiersAgree(fs)
  {
    OwnStandardsIff(fs);
    hide AllOf;
    forall i | 0 <= i < |fs| ensures AllOf(fs)[i].flavorId == fs[i].id {
      var _ := AllAt(fs, i);
    }
    if TiersAgree(fs) {
      forall i | 0 <= i < |fs| ensures AllOf(fs)[i].tier == fs[i].tierId {
        var _ := AllAt(fs, i);
      }
    } else {
      var i, j :| 0 <= i < |fs| && 0 <= j < |fs| && fs[i].id == fs[j].id && fs[i].tierId != fs[j].tierId;
      var _ := AllAt(fs, i);
      var _ := AllAt(fs, j);
    }
  }
}
