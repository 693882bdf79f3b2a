/** What stripping takes, field by field (internal/compare/compare.go). */
module Stripping {
  // Each field is told by what stood at its path before: the fields the server assigns and
  // allocates are gone, those of headless services and all others are as they were.

  import opened Options
  import opened Objects
  import opened Compare

  const ADDRESS: Path := ["spec", "clusterIP"]
  const ADDRESSES: Path := ["spec", "clusterIPs"]

  predicate AllTextsButNone(items: seq<Value>) {
    forall i | 0 <= i < |items| :: items[i].Str? && items[i].text != "None"
  }

  /** Entries without a field; what is no object is as it was. */
  predicate WithoutField(before: seq<Value>, after: seq<Value>, key: string) {
    |after| == |before| &&
    forall i | 0 <= i < |before| ::
      if before[i].Obj? then after[i] == Obj(before[i].fields - {key}) else after[i] == before[i]
  }

  // ---------------------------------------------------------------------------
  // What is allocated
  // ---------------------------------------------------------------------------

  lemma ServiceSteps(root: Value) returns (bare: Value, ipless: Value)
    requires Kind(root) == "Service"
    ensures Unallocated(root) == WithoutNodePorts(ipless) && ipless == WithoutClusterIPs(bare)
    ensures FieldAt(bare, ADDRESS) == FieldAt(root, ADDRESS) && FieldAt(bare, ADDRESSES) == FieldAt(root, ADDRESSES)
    ensures FieldAt(bare, PORTS) == FieldAt(root, PORTS)
  {
    var paths := AllocatedPaths(Kind(root));
    bare := WithoutAll(root, paths);
    ipless := WithoutClusterIPs(bare);
    WithoutAllElsewhere(root, paths, ADDRESS);
    WithoutAllElsewhere(root, paths, ADDRESSES);
    WithoutAllElsewhere(root, paths, PORTS);
  }

  lemma PortsElsewhere(ipless: Value, q: Path)
    requires Diverge(PORTS, q)
    ensures FieldAt(WithoutNodePorts(ipless), q) == FieldAt(ipless, q)
  {
    match FieldAt(ipless, PORTS)
    case Some(List(ports)) => PutElsewhere(ipless, PORTS, q, List(EachLacking(ports, "nodePort")));
    case _ =>
  }

  /** A service loses its address, unless it is headless. */
  lemma AddressGoesUnlessHeadless(root: Value)
    requires Kind(root) == "Service"
    ensures FieldAt(Unallocated(root), ADDRESS) ==
            match FieldAt(root, ADDRESS)
            case Some(Str(ip)) => if ip == "None" then Some(Str("None")) else None
            case other => other
  {
    var bare, ipless := ServiceSteps(root);
    var one := if HasClusterIP(bare) then Without(bare, CLUSTER_IP) else bare;
    WithoutIsGone(bare, CLUSTER_IP);
    WithoutElsewhere(one, CLUSTER_IPS, CLUSTER_IP);
    PortsElsewhere(ipless, ADDRESS);
  }

  /** And its addresses, unless one of them is "None" or no text. */
  lemma AddressesGoUnlessHeadless(root: Value)
    requires Kind(root) == "Service"
    ensures FieldAt(Unallocated(root), ADDRESSES) ==
            match FieldAt(root, ADDRESSES)
            case Some(List(ips)) => if AllTextsButNone(ips) then None else Some(List(ips))
            case other => other
  {
    var bare, ipless := ServiceSteps(root);
    var one := if HasClusterIP(bare) then Without(bare, CLUSTER_IP) else bare;
    WithoutElsewhere(bare, CLUSTER_IP, CLUSTER_IPS);
    WithoutIsGone(one, CLUSTER_IPS);
    PortsElsewhere(ipless, ADDRESSES);
  }

  /** Its ports stay, each without its node port. */
  lemma PortsLoseNodePorts(root: Value)
    requires Kind(root) == "Service"
    ensures match FieldAt(root, PORTS)
            case Some(List(ports)) =>
              FieldAt(Unallocated(root), PORTS).Some? && FieldAt(Unallocated(root), PORTS).value.List? &&
              WithoutField(ports, FieldAt(Unallocated(root), PORTS).value.items, "nodePort")
            case other => FieldAt(Unallocated(root), PORTS) == other
  {
    var bare, ipless := ServiceSteps(root);
    WithoutClusterIPsElsewhere(bare, PORTS);
    match FieldAt(ipless, PORTS)
    case Some(List(ports)) => PutIsThere(ipless, PORTS, List(EachLacking(ports, "nodePort")));
    case _ =>
  }

  /** The hooks of a webhook configuration stay, each without the bundle of its client. */
  lemma HooksLoseBundles(root: Value)
    requires Kind(root) == "ValidatingWebhookConfiguration" || Kind(root) == "MutatingWebhookConfiguration"
    ensures match FieldAt(root, HOOKS)
            case Some(List(hooks)) =>
              FieldAt(Unallocated(root), HOOKS).Some? && FieldAt(Unallocated(root), HOOKS).value.List? &&
              ClientsWithoutBundle(hooks, FieldAt(Unallocated(root), HOOKS).value.items)
            case other => FieldAt(Unallocated(root), HOOKS) == other
  {
    assert AllocatedPaths(Kind(root)) == [];
    match FieldAt(root, HOOKS)
    case Some(List(hooks)) =>
      PutIsThere(root, HOOKS, List(WithoutBundles(hooks)));
      forall i | 0 <= i < |hooks| ensures ClientWithoutBundle(hooks[i], WithoutBundles(hooks)[i]) {
        HookLosesBundle(hooks[i]);
      }
    case _ =>
  }

  predicate ClientsWithoutBundle(before: seq<Value>, after: seq<Value>) {
    |after| == |before| && forall i | 0 <= i < |before| :: ClientWithoutBundle(before[i], after[i])
  }

  predicate ClientWithoutBundle(before: Value, after: Value) {
    if before.Obj? && "clientConfig" in before.fields && before.fields["clientConfig"].Obj?
    then after == Obj(before.fields["clientConfig" := Obj(before.fields["clientConfig"].fields - {"caBundle"})])
    else after == before
  }

  lemma HookLosesBundle(hook: Value)
    ensures ClientWithoutBundle(hook, WithoutBundle(hook))
  {
    if Carries(hook, "clientConfig") {
      assert hook.fields["clientConfig" := hook.fields["clientConfig"]] == hook.fields;
    }
  }

  /** The other kinds the server allocates to, and where. */
  lemma AllocationsGo(root: Value)
    ensures Kind(root) == "PersistentVolumeClaim" ==> FieldAt(Unallocated(root), ["spec", "volumeName"]).None?
    ensures Kind(root) == "PersistentVolume" ==> FieldAt(Unallocated(root), ["spec", "claimRef", "uid"]).None?
    ensures Kind(root) == "PersistentVolume" ==> FieldAt(Unallocated(root), ["spec", "claimRef", "resourceVersion"]).None?
    ensures Kind(root) == "Service" ==> FieldAt(Unallocated(root), ["spec", "healthCheckNodePort"]).None?
    ensures Kind(root) == "CustomResourceDefinition" ==>
              FieldAt(Unallocated(root), ["spec", "conversion", "webhook", "clientConfig", "caBundle"]).None?
  {
    forall i | 0 <= i < |AllocatedPaths(Kind(root))| { PathsStayGone(root, i); }
    var paths := AllocatedPaths(Kind(root));
    assert paths != [] ==> FieldAt(Unallocated(root), paths[0]).None?;
    assert |paths| > 1 ==> FieldAt(Unallocated(root), paths[1]).None?;
  }

  /** Everything an object of a kind may lose something at. */
  function MayLose(kind: string): set<Path> {
    if kind == "PersistentVolumeClaim" then {["spec", "volumeName"]}
    else if kind == "PersistentVolume" then {["spec", "claimRef", "uid"], ["spec", "claimRef", "resourceVersion"]}
    else if kind == "CustomResourceDefinition" then {["spec", "conversion", "webhook", "clientConfig", "caBundle"]}
    else if kind == "Service" then {["spec", "healthCheckNodePort"], ["spec", "clusterIP"], ["spec", "clusterIPs"], ["spec", "ports"]}
    else if kind == "ValidatingWebhookConfiguration" || kind == "MutatingWebhookConfiguration" then {["webhooks"]}
    else {}
  }

  /** Nothing is allocated anywhere else: every other path keeps its value, in an object of any kind. */
  lemma NothingElseGoes(root: Value, q: Path)
    requires q != [] && forall p | p in MayLose(Kind(root)) :: Diverge(p, q)
    ensures FieldAt(Unallocated(root), q) == FieldAt(root, q)
  {
    forall i | 0 <= i < |AllocatedPaths(Kind(root))| ensures AllocatedPaths(Kind(root))[i] in MayLose(Kind(root)) {}
    KeepsTheRest(root, q);
  }

  /** A service is reported to lose its addresses, or its node ports, exactly when it does. */
  lemma ServiceReportsTrue(root: Value)
    requires Kind(root) == "Service"
    ensures LosesIPs(root) <==>
            FieldAt(Unallocated(root), ADDRESS) != FieldAt(root, ADDRESS) || FieldAt(Unallocated(root), ADDRESSES) != FieldAt(root, ADDRESSES)
    ensures LosesNodePorts(root) <==> FieldAt(Unallocated(root), PORTS) != FieldAt(root, PORTS)
  {
    AddressGoesUnlessHeadless(root);
    AddressesGoUnlessHeadless(root);
    PortsLoseNodePorts(root);
    ServiceIsBare(root);
    var bare, ipless := ServiceSteps(root);
    WithoutClusterIPsElsewhere(bare, PORTS);
    NodePortsAreGone(ipless);
  }

  // ---------------------------------------------------------------------------
  // What is assigned
  // ---------------------------------------------------------------------------

  /** Of the fields at the top only the status goes, and of the metadata exactly these six, the
      uids of owners, and what was last applied. */
  lemma AuthoredFields(root: Value, key: string)
    requires root.Obj?
    ensures FieldAt(Authored(root), ["status"]).None?
    ensures key !in {"status", "metadata"} ==> FieldAt(Authored(root), [key]) == FieldAt(root, [key])
    ensures FieldAt(Authored(root), ["metadata", key]) ==
            if key in {"uid", "resourceVersion", "generation", "creationTimestamp", "managedFields", "selfLink"} then None
            else if key == "annotations" then AnnotationsLeft(root)
            else if key == "ownerReferences" then OwnersLeft(root)
            else FieldAt(root, ["metadata", key])
  {
    OneStep(Authored(root), "status");
    OneStep(Authored(root), key);
    OneStep(root, key);
    TwoSteps(Authored(root), "metadata", key);
    TwoSteps(root, "metadata", key);
    TwoSteps(root, "metadata", "annotations");
    TwoSteps(root, "metadata", "ownerReferences");
    AnnotationsAre(root);
    OwnersAre(root);
  }

  /** The annotations without what was last applied, rewritten as text; none where it was the only
      one; and as they were where it is not among them or one of them is no text. */
  function AnnotationsLeft(root: Value): Option<Value> {
    match FieldAt(root, ["metadata", "annotations"])
    case Some(Obj(held)) =>
      if "kubectl.kubernetes.io/last-applied-configuration" !in held ||
         (exists key | key in held :: !held[key].Str? && !held[key].Null?) then Some(Obj(held))
      else if |held| == 1 then None
      else
        Some(Obj(map key | key in held && key != "kubectl.kubernetes.io/last-applied-configuration" ::
          if held[key].Str? then held[key] else Str("")))
    case other => other
  }

  function OwnersLeft(root: Value): Option<Value> {
    match FieldAt(root, ["metadata", "ownerReferences"])
    case Some(List(owners)) =>
      Some(List(seq(|owners|, i requires 0 <= i < |owners| =>
        if owners[i].Obj? then Obj(owners[i].fields - {"uid"}) else owners[i])))
    case other => other
  }

  lemma AnnotationsAre(root: Value)
    ensures KeptAnnotations(root) == AnnotationsLeft(root)
  {
    match FieldAt(root, ["metadata", "annotations"])
    case Some(Obj(held)) =>
      if Readable(held) && LAST_APPLIED in held {
        assert |held.Keys| == |held|;
        if |held| == 1 {
          OneKey(held.Keys, LAST_APPLIED);
        }
        assert held.Keys == {LAST_APPLIED} ==> |held| == 1;
        var left := map key | key in held && key != LAST_APPLIED :: Str(TextOf(held[key]));
        var told := map key | key in held && key != LAST_APPLIED :: if held[key].Str? then held[key] else Str("");
        assert left == told;
      }
    case _ =>
  }

  lemma OneKey(keys: set<string>, key: string)
    requires |keys| == 1 && key in keys
    ensures keys == {key}
  {
    assert |keys - {key}| == 0;
  }

  lemma OwnersAre(root: Value)
    ensures match FieldAt(root, ["metadata", "ownerReferences"])
            case Some(owners) => OwnersLeft(root) == Some(KeptOwners(owners))
            case None => OwnersLeft(root).None?
  {
    match FieldAt(root, ["metadata", "ownerReferences"])
    case Some(List(owners)) =>
      assert OwnersLeft(root).value.items == EachLacking(owners, "uid");
    case _ =>
  }
}
