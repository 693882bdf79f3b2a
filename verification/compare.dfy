/** Stripping an object down to what somebody wrote (internal/compare/compare.go). */
module Compare {
  // What the server assigned, what it allocated, what was last applied and the uids of owners all
  // go, and what was allocated is named. What stays is first described outright, then shown not to
  // depend on what the server wrote, and at last the steps the program takes on a copy, in place,
  // are shown to give exactly that.

  import opened Options
  import opened Objects
  import opened Order

  type Path = seq<string>

  const SERVICE := "Service"
  const VALIDATING := "ValidatingWebhookConfiguration"
  const MUTATING := "MutatingWebhookConfiguration"

  const ASSIGNED: seq<string> := ["uid", "resourceVersion", "generation", "creationTimestamp", "managedFields", "selfLink"]

  function AllocatedPaths(kind: string): (paths: seq<Path>)
    ensures forall i | 0 <= i < |paths| :: |paths[i]| > 1 && paths[i][0] == "spec"
    ensures forall i, j | 0 <= i < j < |paths| :: Diverge(paths[i], paths[j]) && Diverge(paths[j], paths[i])
  {
    if kind == "PersistentVolumeClaim" then [["spec", "volumeName"]]
    else if kind == "PersistentVolume" then [["spec", "claimRef", "uid"], ["spec", "claimRef", "resourceVersion"]]
    else if kind == SERVICE then [["spec", "healthCheckNodePort"]]
    else if kind == "CustomResourceDefinition" then [["spec", "conversion", "webhook", "clientConfig", "caBundle"]]
    else []
  }

  /** Neither path leads through the end of the other. */
  predicate Diverge(p: Path, q: Path) {
    p != [] && q != [] && (p[0] != q[0] || Diverge(p[1..], q[1..]))
  }

  function Kind(root: Value): string {
    match FieldAt(root, ["kind"])
    case Some(Str(kind)) => kind
    case _ => ""
  }

  // ---------------------------------------------------------------------------
  // What stays of the metadata
  // ---------------------------------------------------------------------------

  /** The annotations once the last applied configuration is gone. They are rewritten, and gone
      altogether when it was the only one, just when it was among them. */
  function Kept(annotations: map<string, Value>): Option<Value> {
    if !Readable(annotations) || LAST_APPLIED !in annotations then Some(Obj(annotations))
    else if annotations.Keys == {LAST_APPLIED} then None
    else Some(Obj(map key | key in annotations && key != LAST_APPLIED :: Str(TextOf(annotations[key]))))
  }

  function KeptAnnotations(root: Value): Option<Value> {
    match FieldAt(root, ["metadata", "annotations"])
    case Some(Obj(annotations)) => Kept(annotations)
    case other => other
  }

  function Lacking(value: Value, key: string): Value {
    if value.Obj? then Obj(value.fields - {key}) else value
  }

  function EachLacking(items: seq<Value>, key: string): (lacking: seq<Value>)
    ensures |lacking| == |items|
    ensures forall i | 0 <= i < |items| :: lacking[i] == Lacking(items[i], key)
  {
    seq(|items|, i requires 0 <= i < |items| => Lacking(items[i], key))
  }

  function KeptOwners(owners: Value): Value {
    if owners.List? then List(EachLacking(owners.items, "uid")) else owners
  }

  function KeptMetadata(root: Value): map<string, Value>
    requires root.Obj? && "metadata" in root.fields && root.fields["metadata"].Obj?
  {
    var metadata := root.fields["metadata"].fields;
    map key | key in metadata && key !in ASSIGNED && (key == "annotations" ==> KeptAnnotations(root).Some?) ::
      if key == "annotations" then KeptAnnotations(root).value
      else if key == "ownerReferences" then KeptOwners(metadata[key])
      else metadata[key]
  }

  predicate HasMetadata(root: Value) {
    root.Obj? && "metadata" in root.fields && root.fields["metadata"].Obj?
  }

  function Authored(root: Value): (clean: Value)
    requires root.Obj?
    ensures clean.Obj?
  {
    if HasMetadata(root) then Obj((root.fields - {"status"})["metadata" := Obj(KeptMetadata(root))])
    else Obj(root.fields - {"status"})
  }

  // ---------------------------------------------------------------------------
  // What stays of what the server allocated
  // ---------------------------------------------------------------------------

  /** An object with another value at a path, where its parents are objects. */
  function Put(value: Value, path: Path, other: Value): Value {
    if path == [] then other
    else if !value.Obj? || path[0] !in value.fields then value
    else Obj(value.fields[path[0] := Put(value.fields[path[0]], path[1..], other)])
  }

  function WithoutAll(root: Value, paths: seq<Path>): Value {
    if paths == [] then root else Without(WithoutAll(root, paths[..|paths| - 1]), paths[|paths| - 1])
  }

  const CLUSTER_IP: Path := ["spec", "clusterIP"]
  const CLUSTER_IPS: Path := ["spec", "clusterIPs"]
  const PORTS: Path := ["spec", "ports"]
  const HOOKS: Path := ["webhooks"]

  predicate HasClusterIP(root: Value) {
    match FieldAt(root, CLUSTER_IP)
    case Some(Str(ip)) => ip != "None"
    case _ => false
  }

  predicate HasClusterIPs(root: Value) {
    match FieldAt(root, CLUSTER_IPS)
    case Some(List(ips)) => (forall i | 0 <= i < |ips| :: ips[i].Str? && ips[i] != Str("None"))
    case _ => false
  }

  function WithoutClusterIPs(root: Value): Value {
    var one := if HasClusterIP(root) then Without(root, CLUSTER_IP) else root;
    if HasClusterIPs(root) then Without(one, CLUSTER_IPS) else one
  }

  predicate Carries(value: Value, key: string) {
    value.Obj? && key in value.fields
  }

  predicate HasNodePorts(root: Value) {
    match FieldAt(root, PORTS)
    case Some(List(ports)) => (exists i | 0 <= i < |ports| :: Carries(ports[i], "nodePort"))
    case _ => false
  }

  function WithoutNodePorts(root: Value): Value {
    match FieldAt(root, PORTS)
    case Some(List(ports)) => Put(root, PORTS, List(EachLacking(ports, "nodePort")))
    case _ => root
  }

  predicate HasBundle(hook: Value) {
    Carries(hook, "clientConfig") && Carries(hook.fields["clientConfig"], "caBundle")
  }

  function WithoutBundle(hook: Value): Value {
    if Carries(hook, "clientConfig") then Obj(hook.fields["clientConfig" := Lacking(hook.fields["clientConfig"], "caBundle")])
    else hook
  }

  function WithoutBundles(hooks: seq<Value>): (bare: seq<Value>)
    ensures |bare| == |hooks|
    ensures forall i | 0 <= i < |hooks| :: bare[i] == WithoutBundle(hooks[i])
  {
    seq(|hooks|, i requires 0 <= i < |hooks| => WithoutBundle(hooks[i]))
  }

  predicate HasCABundles(root: Value) {
    match FieldAt(root, HOOKS)
    case Some(List(hooks)) => (exists i | 0 <= i < |hooks| :: HasBundle(hooks[i]))
    case _ => false
  }

  function WithoutCABundles(root: Value): Value {
    match FieldAt(root, HOOKS)
    case Some(List(hooks)) => Put(root, HOOKS, List(WithoutBundles(hooks)))
    case _ => root
  }

  predicate IsWebhook(kind: string) {
    kind == VALIDATING || kind == MUTATING
  }

  function Unallocated(root: Value): Value {
    var bare := WithoutAll(root, AllocatedPaths(Kind(root)));
    if Kind(root) == SERVICE then WithoutNodePorts(WithoutClusterIPs(bare))
    else if IsWebhook(Kind(root)) then WithoutCABundles(bare)
    else bare
  }

  function Dotted(path: Path): string {
    if path == [] then "" else if |path| == 1 then path[0] else path[0] + "." + Dotted(path[1..])
  }

  predicate ReportsPath(root: Value, what: string) {
    exists i | 0 <= i < |AllocatedPaths(Kind(root))| ::
      what == Dotted(AllocatedPaths(Kind(root))[i]) && FieldAt(root, AllocatedPaths(Kind(root))[i]).Some?
  }

  predicate LosesIPs(root: Value) {
    Kind(root) == SERVICE && (HasClusterIP(root) || HasClusterIPs(root))
  }

  predicate LosesNodePorts(root: Value) {
    Kind(root) == SERVICE && HasNodePorts(root)
  }

  predicate LosesBundles(root: Value) {
    IsWebhook(Kind(root)) && HasCABundles(root)
  }

  /** Whether stripping an object names this among what it took away. */
  predicate Reported(root: Value, what: string) {
    ReportsPath(root, what) ||
    (what == "spec.clusterIP" && LosesIPs(root)) ||
    (what == "spec.ports[].nodePort" && LosesNodePorts(root)) ||
    (what == "webhooks[].clientConfig.caBundle" && LosesBundles(root))
  }

  function Stripped(root: Value): Value
    requires root.Obj?
  {
    Unallocated(Authored(root))
  }

  // ---------------------------------------------------------------------------
  // Paths
  // ---------------------------------------------------------------------------

  lemma {:induction false} WithoutIsGone(value: Value, path: Path)
    requires path != []
    ensures FieldAt(Without(value, path), path).None?
    ensures FieldAt(value, path).None? ==> Without(value, path) == value
    ensures FieldAt(value, path).Some? ==> Without(value, path) != value
  {
    if |path| == 1 {
      assert path[1..] == [];
      if Carries(value, path[0]) {
        assert FieldAt(value.fields[path[0]], path[1..]).Some?;
      }
    } else if value.Obj? && path[0] in value.fields {
      WithoutIsGone(value.fields[path[0]], path[1..]);
      assert value.fields[path[0] := value.fields[path[0]]] == value.fields;
    }
  }

  lemma {:induction false} WithoutElsewhere(value: Value, p: Path, q: Path)
    requires Diverge(p, q)
    ensures FieldAt(Without(value, p), q) == FieldAt(value, q)
  {
    if p[0] == q[0] && value.Obj? && p[0] in value.fields {
      WithoutElsewhere(value.fields[p[0]], p[1..], q[1..]);
    }
  }

  lemma {:induction false} PutElsewhere(value: Value, p: Path, q: Path, other: Value)
    requires Diverge(p, q)
    ensures FieldAt(Put(value, p, other), q) == FieldAt(value, q)
  {
    if p[0] == q[0] && value.Obj? && p[0] in value.fields {
      PutElsewhere(value.fields[p[0]], p[1..], q[1..], other);
    }
  }

  lemma {:induction false} PutIsThere(value: Value, path: Path, other: Value)
    requires FieldAt(value, path).Some?
    ensures FieldAt(Put(value, path, other), path) == Some(other)
    ensures FieldAt(value, path) == Some(other) ==> Put(value, path, other) == value
  {
    if path != [] {
      PutIsThere(value.fields[path[0]], path[1..], other);
      assert value.fields[path[0] := value.fields[path[0]]] == value.fields;
    }
  }

  lemma {:induction false} WithoutAllElsewhere(root: Value, paths: seq<Path>, q: Path)
    requires forall i | 0 <= i < |paths| :: Diverge(paths[i], q)
    ensures FieldAt(WithoutAll(root, paths), q) == FieldAt(root, q)
  {
    if paths != [] {
      var front := paths[..|paths| - 1];
      WithoutAllElsewhere(root, front, q);
      WithoutElsewhere(WithoutAll(root, front), paths[|paths| - 1], q);
    }
  }

  lemma {:induction false} WithoutAllAreGone(root: Value, paths: seq<Path>, i: nat)
    requires forall i, j | 0 <= i < j < |paths| :: Diverge(paths[j], paths[i])
    requires i < |paths| && paths[i] != []
    ensures FieldAt(WithoutAll(root, paths), paths[i]).None?
  {
    var last := |paths| - 1;
    if i == last {
      WithoutIsGone(WithoutAll(root, paths[..last]), paths[last]);
    } else {
      WithoutAllAreGone(root, paths[..last], i);
      WithoutElsewhere(WithoutAll(root, paths[..last]), paths[last], paths[i]);
    }
  }

  lemma {:induction false} WithoutNone(root: Value, paths: seq<Path>)
    requires forall i | 0 <= i < |paths| :: paths[i] != [] && FieldAt(root, paths[i]).None?
    ensures WithoutAll(root, paths) == root
  {
    if paths != [] {
      WithoutNone(root, paths[..|paths| - 1]);
      WithoutIsGone(root, paths[|paths| - 1]);
    }
  }

  // ---------------------------------------------------------------------------
  // A second pass
  // ---------------------------------------------------------------------------

  lemma WithoutClusterIPsElsewhere(root: Value, q: Path)
    requires Diverge(CLUSTER_IP, q) && Diverge(CLUSTER_IPS, q)
    ensures FieldAt(WithoutClusterIPs(root), q) == FieldAt(root, q)
  {
    var one := if HasClusterIP(root) then Without(root, CLUSTER_IP) else root;
    WithoutElsewhere(root, CLUSTER_IP, q);
    WithoutElsewhere(one, CLUSTER_IPS, q);
  }

  lemma ClusterIPsAreGone(root: Value)
    ensures !HasClusterIP(WithoutClusterIPs(root)) && !HasClusterIPs(WithoutClusterIPs(root))
  {
    var one := if HasClusterIP(root) then Without(root, CLUSTER_IP) else root;
    WithoutIsGone(root, CLUSTER_IP);
    WithoutIsGone(one, CLUSTER_IPS);
    WithoutElsewhere(root, CLUSTER_IP, CLUSTER_IPS);
    WithoutElsewhere(one, CLUSTER_IPS, CLUSTER_IP);
  }

  lemma NodePortsAreGone(root: Value)
    ensures !HasNodePorts(WithoutNodePorts(root))
    ensures !HasNodePorts(root) ==> WithoutNodePorts(root) == root
  {
    match FieldAt(root, PORTS)
    case Some(List(ports)) =>
      PutIsThere(root, PORTS, List(EachLacking(ports, "nodePort")));
      if !HasNodePorts(root) {
        forall i | 0 <= i < |ports| ensures Lacking(ports[i], "nodePort") == ports[i] {
          assert !Carries(ports[i], "nodePort");
          LackingNothing(ports[i], "nodePort");
        }
        assert EachLacking(ports, "nodePort") == ports;
      }
    case _ =>
  }

  lemma LackingNothing(value: Value, key: string)
    requires !Carries(value, key)
    ensures Lacking(value, key) == value
  {
    if value.Obj? {
      assert value.fields - {key} == value.fields;
    }
  }

  lemma BundleIsGone(hook: Value)
    ensures !HasBundle(WithoutBundle(hook))
    ensures !HasBundle(hook) ==> WithoutBundle(hook) == hook
  {
    if Carries(hook, "clientConfig") && !HasBundle(hook) {
      LackingNothing(hook.fields["clientConfig"], "caBundle");
      assert hook.fields["clientConfig" := hook.fields["clientConfig"]] == hook.fields;
    }
  }

  lemma CABundlesAreGone(root: Value)
    ensures !HasCABundles(WithoutCABundles(root))
    ensures !HasCABundles(root) ==> WithoutCABundles(root) == root
  {
    match FieldAt(root, HOOKS)
    case Some(List(hooks)) =>
      forall i | 0 <= i < |hooks|
        ensures !HasBundle(WithoutBundle(hooks[i])) && (!HasBundle(hooks[i]) ==> WithoutBundle(hooks[i]) == hooks[i])
      {
        BundleIsGone(hooks[i]);
      }
      PutIsThere(root, HOOKS, List(WithoutBundles(hooks)));
      if !HasCABundles(root) {
        assert WithoutBundles(hooks) == hooks;
      }
    case _ =>
  }

  lemma PathsStayGone(root: Value, i: nat)
    requires i < |AllocatedPaths(Kind(root))|
    ensures FieldAt(Unallocated(root), AllocatedPaths(Kind(root))[i]).None?
  {
    var paths := AllocatedPaths(Kind(root));
    WithoutAllAreGone(root, paths, i);
    var bare := WithoutAll(root, paths);
    if Kind(root) == SERVICE {
      WithoutClusterIPsElsewhere(bare, paths[i]);
      var ipless := WithoutClusterIPs(bare);
      if FieldAt(ipless, PORTS).Some? && FieldAt(ipless, PORTS).value.List? {
        PutElsewhere(ipless, PORTS, paths[i], List(EachLacking(FieldAt(ipless, PORTS).value.items, "nodePort")));
      }
    }
  }

  /** Every path an object of this kind can lose something at. */
  predicate Elsewhere(kind: string, q: Path) {
    (forall i | 0 <= i < |AllocatedPaths(kind)| :: Diverge(AllocatedPaths(kind)[i], q)) &&
    (kind == SERVICE ==> Diverge(CLUSTER_IP, q) && Diverge(CLUSTER_IPS, q) && Diverge(PORTS, q)) &&
    (IsWebhook(kind) ==> Diverge(HOOKS, q))
  }

  /** Everything else stays where it was. */
  lemma KeepsTheRest(root: Value, q: Path)
    requires Elsewhere(Kind(root), q)
    ensures FieldAt(Unallocated(root), q) == FieldAt(root, q)
  {
    var paths := AllocatedPaths(Kind(root));
    WithoutAllElsewhere(root, paths, q);
    var bare := WithoutAll(root, paths);
    if Kind(root) == SERVICE {
      WithoutClusterIPsElsewhere(bare, q);
      var ipless := WithoutClusterIPs(bare);
      if FieldAt(ipless, PORTS).Some? && FieldAt(ipless, PORTS).value.List? {
        PutElsewhere(ipless, PORTS, q, List(EachLacking(FieldAt(ipless, PORTS).value.items, "nodePort")));
      }
    } else if FieldAt(bare, HOOKS).Some? && FieldAt(bare, HOOKS).value.List? && IsWebhook(Kind(root)) {
      PutElsewhere(bare, HOOKS, q, List(WithoutBundles(FieldAt(bare, HOOKS).value.items)));
    }
  }

  lemma ServiceIsBare(root: Value)
    requires Kind(root) == SERVICE
    ensures !HasClusterIP(Unallocated(root)) && !HasClusterIPs(Unallocated(root)) && !HasNodePorts(Unallocated(root))
  {
    var bare := WithoutAll(root, AllocatedPaths(Kind(root)));
    var ipless := WithoutClusterIPs(bare);
    ClusterIPsAreGone(bare);
    NodePortsAreGone(ipless);
    if FieldAt(ipless, PORTS).Some? && FieldAt(ipless, PORTS).value.List? {
      var ports := List(EachLacking(FieldAt(ipless, PORTS).value.items, "nodePort"));
      PutElsewhere(ipless, PORTS, CLUSTER_IP, ports);
      PutElsewhere(ipless, PORTS, CLUSTER_IPS, ports);
    }
  }

  lemma NothingLeftToReport(root: Value, what: string)
    ensures !Reported(Unallocated(root), what)
  {
    var bare := Unallocated(root);
    KeepsTheRest(root, ["kind"]);
    assert Kind(bare) == Kind(root);
    assert !ReportsPath(bare, what) by {
      forall i | 0 <= i < |AllocatedPaths(Kind(root))| { PathsStayGone(root, i); }
    }
    if Kind(root) == SERVICE {
      ServiceIsBare(root);
    }
    CABundlesAreGone(WithoutAll(root, AllocatedPaths(Kind(root))));
  }

  lemma NothingToStrip(root: Value)
    requires forall what :: !Reported(root, what)
    ensures Unallocated(root) == root
  {
    var paths := AllocatedPaths(Kind(root));
    forall i | 0 <= i < |paths| ensures FieldAt(root, paths[i]).None? {
      assert !Reported(root, Dotted(paths[i]));
    }
    assert !LosesIPs(root) by { assert !Reported(root, "spec.clusterIP"); }
    assert !LosesNodePorts(root) by { assert !Reported(root, "spec.ports[].nodePort"); }
    assert !LosesBundles(root) by { assert !Reported(root, "webhooks[].clientConfig.caBundle"); }
    WithoutNone(root, paths);
    NodePortsAreGone(root);
    CABundlesAreGone(root);
  }

  /** Nothing is reported exactly when there was nothing to strip. */
  lemma ReportsWhatItStrips(root: Value)
    ensures (forall what :: !Reported(root, what)) <==> Unallocated(root) == root
  {
    if Unallocated(root) == root {
      forall what ensures !Reported(root, what) { NothingLeftToReport(root, what); }
    } else if forall what :: !Reported(root, what) {
      NothingToStrip(root);
    }
  }

  // ---------------------------------------------------------------------------
  // Authored content
  // ---------------------------------------------------------------------------

  lemma EachLackingTwice(items: seq<Value>, key: string)
    ensures EachLacking(EachLacking(items, key), key) == EachLacking(items, key)
  {
    forall i | 0 <= i < |items| ensures Lacking(Lacking(items[i], key), key) == Lacking(items[i], key) {
      LackingNothing(Lacking(items[i], key), key);
    }
  }

  lemma TwoSteps(value: Value, first: string, second: string)
    ensures FieldAt(value, [first, second]) ==
            if Carries(value, first) && Carries(value.fields[first], second) then Some(value.fields[first].fields[second])
            else None
  {
    assert [first, second][1..] == [second] && [second][1..] == [];
    if Carries(value, first) {
      assert FieldAt(value, [first, second]) == FieldAt(value.fields[first], [second]);
      OneStep(value.fields[first], second);
    }
  }

  lemma KeptAnnotationsTwice(root: Value)
    requires HasMetadata(root)
    ensures KeptAnnotations(Authored(root)) == KeptAnnotations(root)
  {
    var clean := Authored(root);
    TwoSteps(root, "metadata", "annotations");
    TwoSteps(clean, "metadata", "annotations");
    assert FieldAt(clean, ["metadata", "annotations"]) == KeptAnnotations(root);
  }

  lemma AuthoredTwice(root: Value)
    requires root.Obj?
    ensures Authored(Authored(root)) == Authored(root)
  {
    var clean := Authored(root);
    assert clean.fields - {"status"} == clean.fields;
    if HasMetadata(root) {
      KeptAnnotationsTwice(root);
      var metadata := root.fields["metadata"].fields;
      if "ownerReferences" in metadata && metadata["ownerReferences"].List? {
        EachLackingTwice(metadata["ownerReferences"].items, "uid");
      }
      assert KeptMetadata(clean) == KeptMetadata(root);
    }
  }

  lemma AuthoredReadsTwoFields(x: Value, y: Value)
    requires x.Obj? && y.Obj? && Authored(x) == x
    requires FieldAt(y, ["status"]) == FieldAt(x, ["status"]) && FieldAt(y, ["metadata"]) == FieldAt(x, ["metadata"])
    ensures Authored(y) == y
  {
    assert "status" !in x.fields by { assert FieldAt(Authored(x), ["status"]).None?; }
    assert FieldAt(y, ["status"]).None? && "status" !in y.fields;
    assert y.fields - {"status"} == y.fields;
    OneStep(x, "metadata");
    OneStep(y, "metadata");
    if HasMetadata(x) {
      assert x.fields["metadata"] == y.fields["metadata"];
      TwoSteps(x, "metadata", "annotations");
      TwoSteps(y, "metadata", "annotations");
      assert KeptMetadata(y) == KeptMetadata(x);
    }
  }

  lemma OneStep(value: Value, key: string)
    ensures FieldAt(value, [key]) == if Carries(value, key) then Some(value.fields[key]) else None
  {
    assert [key][1..] == [];
  }

  lemma StaysAnObject(root: Value)
    requires root.Obj?
    ensures Unallocated(root).Obj?
  {
    WithoutAllStaysAnObject(root, AllocatedPaths(Kind(root)));
  }

  lemma {:induction false} WithoutAllStaysAnObject(root: Value, paths: seq<Path>)
    requires root.Obj?
    ensures WithoutAll(root, paths).Obj?
  {
    if paths != [] {
      WithoutAllStaysAnObject(root, paths[..|paths| - 1]);
    }
  }

  /** A second pass changes nothing and reports nothing. */
  lemma StripTwice(root: Value)
    requires root.Obj?
    ensures Stripped(root).Obj? && Stripped(Stripped(root)) == Stripped(root)
    ensures forall what :: !Reported(Authored(Stripped(root)), what)
  {
    var clean := Authored(root);
    var bare := Unallocated(clean);
    AuthoredTwice(root);
    StaysAnObject(clean);
    KeepsTheRest(clean, ["status"]);
    KeepsTheRest(clean, ["metadata"]);
    AuthoredReadsTwoFields(clean, bare);
    forall what ensures !Reported(bare, what) { NothingLeftToReport(clean, what); }
    NothingToStrip(bare);
  }

  // ---------------------------------------------------------------------------
  // What the server writes does not show
  // ---------------------------------------------------------------------------

  predicate SameField(x: Value, y: Value, path: Path) {
    FieldAt(x, path) == FieldAt(y, path)
  }

  predicate SameOwners(x: Option<Value>, y: Option<Value>) {
    x == y ||
    (x.Some? && y.Some? && x.value.List? && y.value.List? && |x.value.items| == |y.value.items| &&
     forall i | 0 <= i < |x.value.items| :: Lacking(x.value.items[i], "uid") == Lacking(y.value.items[i], "uid"))
  }

  const OWNERS: Path := ["metadata", "ownerReferences"]

  /** Two objects somebody wrote alike: they differ at most in status, in what the server
      assigns, in the uids of their owners and in what was last applied. */
  ghost predicate WrittenAlike(x: Value, y: Value) {
    (forall key | key != "status" && key != "metadata" :: SameField(x, y, [key])) &&
    (HasMetadata(x) <==> HasMetadata(y)) &&
    if HasMetadata(x) then
      (forall key | key !in ASSIGNED && key != "annotations" && key != "ownerReferences" :: SameField(x, y, ["metadata", key])) &&
      KeptAnnotations(x) == KeptAnnotations(y) &&
      SameOwners(FieldAt(x, OWNERS), FieldAt(y, OWNERS))
    else SameField(x, y, ["metadata"])
  }

  lemma SameOwnersIff(x: Value, y: Value)
    ensures KeptOwners(x) == KeptOwners(y) <==> SameOwners(Some(x), Some(y))
  {
    if x.List? && y.List? && KeptOwners(x) == KeptOwners(y) {
      forall i | 0 <= i < |x.items| ensures Lacking(x.items[i], "uid") == Lacking(y.items[i], "uid") {
        assert EachLacking(x.items, "uid")[i] == EachLacking(y.items, "uid")[i];
      }
    }
  }

  function Get(fields: map<string, Value>, key: string): Option<Value> {
    if key in fields then Some(fields[key]) else None
  }

  lemma KeptField(x: Value, key: string)
    requires HasMetadata(x)
    ensures Get(KeptMetadata(x), key) ==
            if key in ASSIGNED then None
            else if key == "annotations" then KeptAnnotations(x)
            else if key == "ownerReferences" && FieldAt(x, OWNERS).Some? then Some(KeptOwners(FieldAt(x, OWNERS).value))
            else FieldAt(x, ["metadata", key])
  {
    TwoSteps(x, "metadata", key);
  }

  lemma MetadataIff(x: Value, y: Value)
    requires HasMetadata(x) && HasMetadata(y)
    ensures KeptMetadata(x) == KeptMetadata(y) <==>
      ((forall key | key !in ASSIGNED && key != "annotations" && key != "ownerReferences" :: SameField(x, y, ["metadata", key])) &&
       KeptAnnotations(x) == KeptAnnotations(y) &&
       SameOwners(FieldAt(x, OWNERS), FieldAt(y, OWNERS)))
  {
    var a, b := KeptMetadata(x), KeptMetadata(y);
    EqualByKey(a, b);
    forall key
      ensures Get(a, key) == Get(b, key) <==>
              if key in ASSIGNED then true
              else if key == "annotations" then KeptAnnotations(x) == KeptAnnotations(y)
              else if key == "ownerReferences" then SameOwners(FieldAt(x, OWNERS), FieldAt(y, OWNERS))
              else SameField(x, y, ["metadata", key])
    {
      KeptField(x, key);
      KeptField(y, key);
      if FieldAt(x, OWNERS).Some? && FieldAt(y, OWNERS).Some? {
        SameOwnersIff(FieldAt(x, OWNERS).value, FieldAt(y, OWNERS).value);
      }
    }
    assert Get(a, "annotations") == Get(b, "annotations") <==> KeptAnnotations(x) == KeptAnnotations(y);
    assert Get(a, "ownerReferences") == Get(b, "ownerReferences") <==> SameOwners(FieldAt(x, OWNERS), FieldAt(y, OWNERS));
  }

  lemma EqualByKey(a: map<string, Value>, b: map<string, Value>)
    ensures a == b <==> forall key :: Get(a, key) == Get(b, key)
  {
    if forall key :: Get(a, key) == Get(b, key) {
      forall key ensures (key in a <==> key in b) && (key in a ==> a[key] == b[key]) {
        assert Get(a, key) == Get(b, key);
      }
    }
  }

  /** Two objects come out the same exactly when somebody wrote them alike. */
  lemma SameWhenWrittenAlike(x: Value, y: Value)
    requires x.Obj? && y.Obj?
    ensures Authored(x) == Authored(y) <==> WrittenAlike(x, y)
  {
    var a, b := Authored(x).fields, Authored(y).fields;
    EqualByKey(a, b);
    forall key ensures FieldAt(x, [key]) == Get(x.fields, key) && FieldAt(y, [key]) == Get(y.fields, key) {
      OneStep(x, key);
      OneStep(y, key);
    }
    assert Get(a, "status") == Get(b, "status") == None;
    forall key | key != "status" && key != "metadata"
      ensures Get(a, key) == Get(b, key) <==> SameField(x, y, [key])
    {}
    MetadataFieldIff(x, y);
  }

  lemma MetadataFieldIff(x: Value, y: Value)
    requires x.Obj? && y.Obj?
    ensures Get(Authored(x).fields, "metadata") == Get(Authored(y).fields, "metadata") <==>
            ((HasMetadata(x) <==> HasMetadata(y)) &&
             if HasMetadata(x) then
               (forall key | key !in ASSIGNED && key != "annotations" && key != "ownerReferences" :: SameField(x, y, ["metadata", key])) &&
               KeptAnnotations(x) == KeptAnnotations(y) &&
               SameOwners(FieldAt(x, OWNERS), FieldAt(y, OWNERS))
             else SameField(x, y, ["metadata"]))
  {
    OneStep(x, "metadata");
    OneStep(y, "metadata");
    if HasMetadata(x) && HasMetadata(y) {
      MetadataIff(x, y);
    }
  }

  predicate Annotated(root: Value) {
    HasMetadata(root) && Carries(root.fields["metadata"], "annotations")
  }

  predicate CanAnnotate(root: Value) {
    HasMetadata(root) && (Annotated(root) ==> root.fields["metadata"].fields["annotations"].Obj?)
  }

  function AnnotationFields(root: Value): map<string, Value>
    requires CanAnnotate(root)
  {
    if Annotated(root) then root.fields["metadata"].fields["annotations"].fields else map[]
  }

  /** An object as `kubectl apply` leaves it. */
  function Applied(root: Value, text: string): Value
    requires CanAnnotate(root)
  {
    var annotations := Obj(AnnotationFields(root)[LAST_APPLIED := Str(text)]);
    Obj(root.fields["metadata" := Obj(root.fields["metadata"].fields["annotations" := annotations])])
  }

  predicate AllText(fields: map<string, Value>) {
    forall key | key in fields :: fields[key].Str?
  }

  lemma AppliedElsewhere(root: Value, text: string)
    requires CanAnnotate(root)
    ensures Authored(Applied(root, text)) == Authored(root) <==> KeptAnnotations(Applied(root, text)) == KeptAnnotations(root)
  {
    var y := Applied(root, text);
    SameWhenWrittenAlike(y, root);
    forall key | key != "metadata" ensures SameField(y, root, [key]) {
      OneStep(y, key);
      OneStep(root, key);
    }
    forall key | key != "annotations" ensures SameField(y, root, ["metadata", key]) {
      TwoSteps(y, "metadata", key);
      TwoSteps(root, "metadata", key);
    }
    assert SameField(y, root, OWNERS);
  }

  /** Writing this last applied configuration leaves the rest of the annotations as they read. */
  predicate LeavesTheRest(annotations: map<string, Value>, text: string) {
    Get(annotations, LAST_APPLIED) == Some(Str(text)) ||
    (Readable(annotations) && (LAST_APPLIED in annotations || (annotations != map[] && AllText(annotations))))
  }

  lemma KeptIff(annotations: map<string, Value>, text: string)
    ensures Kept(annotations[LAST_APPLIED := Str(text)]) == Kept(annotations) <==> LeavesTheRest(annotations, text)
  {
    var y := annotations[LAST_APPLIED := Str(text)];
    assert LAST_APPLIED in y && y[LAST_APPLIED] == Str(text);
    if Get(annotations, LAST_APPLIED) == Some(Str(text)) {
      assert y == annotations;
    } else if !Readable(annotations) {
      if LAST_APPLIED in annotations && Readable(y) {
        assert Kept(y).None? || LAST_APPLIED !in Kept(y).value.fields;
        assert Kept(annotations) == Some(Obj(annotations));
      } else if LAST_APPLIED !in annotations {
        var key :| key in annotations && !annotations[key].Str? && !annotations[key].Null?;
        assert y[key] == annotations[key];
      }
    } else if LAST_APPLIED in annotations {
      assert Readable(y) && y.Keys == annotations.Keys;
      if y.Keys != {LAST_APPLIED} {
        assert Kept(y).value.fields == Kept(annotations).value.fields;
      }
    } else if annotations == map[] {
      assert y.Keys == {LAST_APPLIED};
    } else {
      NonemptyKept(annotations, y);
    }
  }

  lemma NonemptyKept(annotations: map<string, Value>, y: map<string, Value>)
    requires Readable(annotations) && annotations != map[] && LAST_APPLIED !in annotations
    requires exists text :: y == annotations[LAST_APPLIED := Str(text)]
    ensures Kept(y) == Some(Obj(annotations)) <==> AllText(annotations)
  {
    var some :| some in annotations;
    assert some in y.Keys && some != LAST_APPLIED;
    var kept := map key | key in y && key != LAST_APPLIED :: Str(TextOf(y[key]));
    assert Readable(y) && Kept(y) == Some(Obj(kept));
    assert kept.Keys == annotations.Keys;
    if kept == annotations {
      forall key | key in annotations ensures annotations[key].Str? { assert kept[key] == annotations[key]; }
    }
  }

  /** What was last applied shows only where writing the annotations back changes them: in an
      object whose annotations were an empty object, or held a null or something not text. */
  lemma LastAppliedShowsIff(root: Value, text: string)
    requires CanAnnotate(root)
    ensures Authored(Applied(root, text)) == Authored(root) <==>
            !Annotated(root) || LeavesTheRest(AnnotationFields(root), text)
  {
    var y := Applied(root, text);
    AppliedElsewhere(root, text);
    TwoSteps(root, "metadata", "annotations");
    TwoSteps(y, "metadata", "annotations");
    KeptIff(AnnotationFields(root), text);
    assert KeptAnnotations(y) == Kept(AnnotationFields(root)[LAST_APPLIED := Str(text)]);
    if !Annotated(root) {
      assert map[LAST_APPLIED := Str(text)].Keys == {LAST_APPLIED};
    }
  }

  /** An object whose annotations are an empty object. */
  const BARE := Obj(map["metadata" := Obj(map["annotations" := Obj(map[])])])

  lemma LastAppliedShows(text: string)
    ensures CanAnnotate(BARE) && Authored(Applied(BARE, text)) != Authored(BARE)
  {
    LastAppliedShowsIff(BARE, text);
  }

  // ---------------------------------------------------------------------------
  // Stripping a copy in place
  // ---------------------------------------------------------------------------

  /** An object without its status and with these keys gone from its metadata. */
  function Cleared(item: Value, gone: set<string>): Value
    requires item.Obj?
  {
    if HasMetadata(item) then
      Obj((item.fields - {"status"})["metadata" := Obj(item.fields["metadata"].fields - gone)])
    else Obj(item.fields - {"status"})
  }

  function WithMetadata(root: Value, metadata: map<string, Value>): Value
    requires root.Obj?
  {
    Obj(root.fields["metadata" := Obj(metadata)])
  }

  function WithAnnotations(metadata: map<string, Value>, kept: Option<Value>): map<string, Value> {
    if kept.None? then metadata - {"annotations"} else metadata["annotations" := kept.value]
  }

  function RestAnnotated(metadata: map<string, Value>): map<string, Value> {
    match Get(metadata, "annotations")
    case Some(Obj(annotations)) => WithAnnotations(metadata, Kept(annotations))
    case _ => metadata
  }

  function Disowned(metadata: map<string, Value>): map<string, Value> {
    if "ownerReferences" in metadata then metadata["ownerReferences" := KeptOwners(metadata["ownerReferences"])]
    else metadata
  }

  function WithKeptAnnotations(root: Value): Value {
    if HasMetadata(root) then WithMetadata(root, RestAnnotated(root.fields["metadata"].fields)) else root
  }

  function WithKeptOwners(root: Value): Value {
    if HasMetadata(root) then WithMetadata(root, Disowned(root.fields["metadata"].fields)) else root
  }

  lemma ClearOne(item: Value, gone: set<string>, key: string)
    requires item.Obj?
    ensures Without(Cleared(item, gone), ["metadata", key]) == Cleared(item, gone + {key})
  {
    assert ["metadata", key][1..] == [key];
    if HasMetadata(item) {
      var metadata := item.fields["metadata"].fields;
      assert Without(Obj(metadata - gone), [key]) == Obj(metadata - (gone + {key})) by {
        assert (metadata - gone) - {key} == metadata - (gone + {key});
        if key !in metadata - gone { assert metadata - gone == metadata - (gone + {key}); }
      }
      assert Without(Cleared(item, gone), ["metadata", key]).fields == Cleared(item, gone + {key}).fields;
    }
  }

  lemma PutTwo(root: Value, first: string, second: string, other: Value)
    requires Carries(root, first) && Carries(root.fields[first], second)
    ensures Put(root, [first, second], other) == Obj(root.fields[first := Obj(root.fields[first].fields[second := other])])
  {
    assert [first, second][1..] == [second] && [second][1..] == [];
    assert Put(root.fields[first], [second], other) == Obj(root.fields[first].fields[second := other]);
  }

  lemma MetadataInSteps(item: Value)
    requires HasMetadata(item)
    ensures Disowned(RestAnnotated(item.fields["metadata"].fields - (set key | key in ASSIGNED))) == KeptMetadata(item)
  {
    var metadata := item.fields["metadata"].fields;
    var cleared := metadata - (set key | key in ASSIGNED);
    var done := Disowned(RestAnnotated(cleared));
    TwoSteps(item, "metadata", "annotations");
    TwoSteps(item, "metadata", "ownerReferences");
    forall key ensures Get(done, key) == Get(KeptMetadata(item), key) {
      KeptField(item, key);
      TwoSteps(item, "metadata", key);
      assert Get(cleared, key) == if key in ASSIGNED then None else Get(metadata, key);
    }
    EqualByKey(done, KeptMetadata(item));
  }

  lemma AuthoredInSteps(item: Value)
    requires item.Obj?
    ensures WithKeptOwners(WithKeptAnnotations(Cleared(item, set key | key in ASSIGNED))) == Authored(item)
  {
    if HasMetadata(item) {
      MetadataInSteps(item);
      assert WithKeptOwners(WithKeptAnnotations(Cleared(item, set key | key in ASSIGNED))).fields == Authored(item).fields;
    }
  }

  lemma UnchangedMetadata(root: Value)
    requires HasMetadata(root)
    ensures WithMetadata(root, root.fields["metadata"].fields) == root
  {
    assert root.fields["metadata" := root.fields["metadata"]] == root.fields;
  }

  lemma DottedApart(kind: string)
    ensures var paths := AllocatedPaths(kind);
            (forall i, j | 0 <= i < j < |paths| :: Dotted(paths[i]) != Dotted(paths[j])) &&
            (forall i | 0 <= i < |paths| :: Dotted(paths[i]) != "spec.clusterIP" && Dotted(paths[i])!= "spec.ports[].nodePort" &&
               Dotted(paths[i]) != "webhooks[].clientConfig.caBundle")
  {}

  function Named(found: seq<string>, ips: bool, ports: bool, bundles: bool): seq<string> {
    found +
    (if ips then ["spec.clusterIP"] else []) +
    (if ports then ["spec.ports[].nodePort"] else []) +
    (if bundles then ["webhooks[].clientConfig.caBundle"] else [])
  }

  lemma NamedIsReported(root: Value, found: seq<string>)
    requires Unrepeated(found)
    requires forall what :: what in found <==> ReportsPath(root, what)
    ensures var named := Named(found, LosesIPs(root), LosesNodePorts(root), LosesBundles(root));
            Unrepeated(named) && forall what :: what in named <==> Reported(root, what)
  {
    DottedApart(Kind(root));
    var named := Named(found, LosesIPs(root), LosesNodePorts(root), LosesBundles(root));
    assert forall i | 0 <= i < |found| :: ReportsPath(root, found[i]);
    assert forall i | |found| <= i < |named| :: named[i] !in found;
  }

  lemma LosesAfterPaths(root: Value)
    ensures var bare := WithoutAll(root, AllocatedPaths(Kind(root)));
            (Kind(root) == SERVICE ==>
              (LosesIPs(root) <==> HasClusterIP(bare) || HasClusterIPs(bare)) &&
              (LosesNodePorts(root) <==> HasNodePorts(bare))) &&
            (IsWebhook(Kind(root)) ==> (LosesBundles(root) <==> HasCABundles(bare)))
  {
    var paths := AllocatedPaths(Kind(root));
    if Kind(root) == SERVICE {
      WithoutAllElsewhere(root, paths, CLUSTER_IP);
      WithoutAllElsewhere(root, paths, CLUSTER_IPS);
      WithoutAllElsewhere(root, paths, PORTS);
    } else if IsWebhook(Kind(root)) {
      WithoutAllElsewhere(root, paths, HOOKS);
    }
  }

  /** An object being stripped, a deep copy of the one handed in. */
  class Draft {
    var root: Value

    constructor (item: Value)
      ensures root == item
    {
      root := item;
    }

    method RemoveNestedField(path: Path)
      modifies this
      ensures root == Without(old(root), path)
    {
      root := Without(root, path);
    }

    method DropLastApplied()
      requires root.Obj?
      modifies this
      ensures root == WithKeptAnnotations(old(root))
    {
      TwoSteps(root, "metadata", "annotations");
      if HasMetadata(root) {
        UnchangedMetadata(root);
      }
      var annotations := Annotations(root);
      if Annotated(root) {
        ghost var metadata := root.fields["metadata"].fields;
        assert metadata["annotations" := metadata["annotations"]] == metadata;
      }
      if annotations.None? || LAST_APPLIED !in annotations.value {
        return;
      }
      var rest := annotations.value - {LAST_APPLIED};
      ghost var fields := root.fields["metadata"].fields["annotations"].fields;
      assert annotations.value.Keys == fields.Keys;
      assert rest.Keys == fields.Keys - {LAST_APPLIED};
      if rest == map[] {
        assert fields.Keys == {LAST_APPLIED} + rest.Keys;
        root := WithMetadata(root, WithAnnotations(root.fields["metadata"].fields, None));
        return;
      }
      ghost var some :| some in rest.Keys;
      assert some in fields.Keys && some != LAST_APPLIED;
      var kept := Obj(map key | key in rest :: Str(rest[key]));
      assert kept.fields == Kept(fields).value.fields;
      root := WithMetadata(root, WithAnnotations(root.fields["metadata"].fields, Some(kept)));
    }

    method DropOwnerUIDs()
      modifies this
      ensures root == WithKeptOwners(old(root))
    {
      TwoSteps(root, "metadata", "ownerReferences");
      if HasMetadata(root) {
        UnchangedMetadata(root);
      }
      var found := FieldAt(root, OWNERS);
      if found.None? {
        return;
      }
      PutTwo(root, "metadata", "ownerReferences", KeptOwners(found.value));
      if !found.value.List? {
        PutIsThere(root, OWNERS, found.value);
        return;
      }
      var owners, _ := EachWithout(found.value.items, "uid");
      root := Put(root, OWNERS, List(owners));
    }

    method DropClusterIPs(kind: string) returns (dropped: bool)
      modifies this
      ensures dropped == (kind == SERVICE && (HasClusterIP(old(root)) || HasClusterIPs(old(root))))
      ensures root == if kind == SERVICE then WithoutClusterIPs(old(root)) else old(root)
    {
      if kind != SERVICE {
        return false;
      }
      WithoutElsewhere(root, CLUSTER_IP, CLUSTER_IPS);
      dropped := false;
      var one := FieldAt(root, CLUSTER_IP);
      if one.Some? && one.value.Str? && one.value.text != "None" {
        RemoveNestedField(CLUSTER_IP);
        dropped := true;
      }
      var many := FieldAt(root, CLUSTER_IPS);
      if many.None? || !many.value.List? || !(forall i | 0 <= i < |many.value.items| :: many.value.items[i].Str?) {
        return;
      }
      if Str("None") in many.value.items {
        return;
      }
      RemoveNestedField(CLUSTER_IPS);
      return true;
    }

    method DropNodePorts(kind: string) returns (dropped: bool)
      modifies this
      ensures dropped == (kind == SERVICE && HasNodePorts(old(root)))
      ensures root == if kind == SERVICE then WithoutNodePorts(old(root)) else old(root)
    {
      var ports := FieldAt(root, PORTS);
      if kind != SERVICE || ports.None? || !ports.value.List? {
        return false;
      }
      var left, had := EachWithout(ports.value.items, "nodePort");
      root := Put(root, PORTS, List(left));
      return had;
    }

    method DropCABundles(kind: string) returns (dropped: bool)
      modifies this
      ensures dropped == (IsWebhook(kind) && HasCABundles(old(root)))
      ensures root == if IsWebhook(kind) then WithoutCABundles(old(root)) else old(root)
    {
      var hooks := FieldAt(root, HOOKS);
      if !IsWebhook(kind) || hooks.None? || !hooks.value.List? {
        return false;
      }
      var left, had := DropBundles(hooks.value.items);
      root := Put(root, HOOKS, List(left));
      return had;
    }

    /** What it names is in order and without repeats. */
    method DropAllocations() returns (stripped: seq<string>)
      modifies this
      ensures root == Unallocated(old(root))
      ensures Ascending(stripped)
      ensures forall what :: what in stripped <==> Reported(old(root), what)
    {
      ghost var was := root;
      var kind := Kind(root);
      var found := DropPaths(AllocatedPaths(kind));
      LosesAfterPaths(was);
      WithoutClusterIPsElsewhere(root, PORTS);
      var ips := DropClusterIPs(kind);
      var ports := DropNodePorts(kind);
      var bundles := DropCABundles(kind);
      stripped := Named(found, ips, ports, bundles);
      NamedIsReported(was, found);
      forall what ensures what in Sorted(stripped) <==> what in stripped { SortedHolds(stripped, what); }
      SortedAscending(stripped);
      stripped := Sorted(stripped);
    }

    method DropPaths(paths: seq<Path>) returns (found: seq<string>)
      requires forall i, j | 0 <= i < j < |paths| :: Diverge(paths[i], paths[j])
      requires forall i, j | 0 <= i < j < |paths| :: Dotted(paths[i]) != Dotted(paths[j])
      modifies this
      ensures root == WithoutAll(old(root), paths)
      ensures Unrepeated(found)
      ensures forall what :: what in found <==>
                exists i | 0 <= i < |paths| :: what == Dotted(paths[i]) && FieldAt(old(root), paths[i]).Some?
    {
      ghost var was := root;
      found := [];
      for i := 0 to |paths|
        invariant root == WithoutAll(was, paths[..i])
        invariant Unrepeated(found)
        invariant forall what :: what in found <==>
                    exists j | 0 <= j < i :: what == Dotted(paths[j]) && FieldAt(was, paths[j]).Some?
      {
        assert paths[..i + 1][..i] == paths[..i];
        WithoutAllElsewhere(was, paths[..i], paths[i]);
        if FieldAt(root, paths[i]).Some? {
          assert Dotted(paths[i]) !in found;
          found := found + [Dotted(paths[i])];
        }
        RemoveNestedField(paths[i]);
      }
      assert paths[..|paths|] == paths;
    }
  }

  /** The loop the owner references and the service ports share. */
  method EachWithout(items: seq<Value>, key: string) returns (left: seq<Value>, dropped: bool)
    ensures left == EachLacking(items, key)
    ensures dropped <==> exists i | 0 <= i < |items| :: Carries(items[i], key)
  {
    left, dropped := items, false;
    for i := 0 to |items|
      invariant |left| == |items|
      invariant forall j | 0 <= j < i :: left[j] == Lacking(items[j], key)
      invariant forall j | i <= j < |items| :: left[j] == items[j]
      invariant dropped <==> exists j | 0 <= j < i :: Carries(items[j], key)
    {
      if left[i].Obj? {
        if key in left[i].fields {
          dropped := true;
        }
        left := left[i := Obj(left[i].fields - {key})];
      }
    }
  }

  method DropBundles(hooks: seq<Value>) returns (left: seq<Value>, dropped: bool)
    ensures left == WithoutBundles(hooks)
    ensures dropped <==> exists i | 0 <= i < |hooks| :: HasBundle(hooks[i])
  {
    left, dropped := hooks, false;
    for i := 0 to |hooks|
      invariant |left| == |hooks|
      invariant forall j | 0 <= j < i :: left[j] == WithoutBundle(hooks[j])
      invariant forall j | i <= j < |hooks| :: left[j] == hooks[j]
      invariant dropped <==> exists j | 0 <= j < i :: HasBundle(hooks[j])
    {
      if Carries(left[i], "clientConfig") && left[i].fields["clientConfig"].Obj? {
        var config := left[i].fields["clientConfig"];
        if "caBundle" in config.fields {
          dropped := true;
        }
        left := left[i := Obj(left[i].fields["clientConfig" := Obj(config.fields - {"caBundle"})])];
      } else if Carries(left[i], "clientConfig") {
        assert left[i].fields["clientConfig" := left[i].fields["clientConfig"]] == left[i].fields;
      }
    }
  }

  /** What somebody wrote, in a copy. */
  method DraftOf(item: Value) returns (clean: Draft)
    requires item.Obj?
    ensures fresh(clean) && clean.root == Authored(item)
  {
    clean := new Draft(item);
    clean.RemoveNestedField(["status"]);
    assert item.fields - {"status"} - {} == item.fields - {"status"};
    ghost var gone: set<string> := {};
    StatusFirst(item);
    for i := 0 to |ASSIGNED|
      invariant clean.root == Cleared(item, gone)
      invariant gone == set j | 0 <= j < i :: ASSIGNED[j]
      invariant fresh(clean)
    {
      clean.RemoveNestedField(["metadata", ASSIGNED[i]]);
      ClearOne(item, gone, ASSIGNED[i]);
      gone := gone + {ASSIGNED[i]};
    }
    assert gone == set key | key in ASSIGNED;
    clean.DropLastApplied();
    clean.DropOwnerUIDs();
    AuthoredInSteps(item);
  }

  lemma StatusFirst(item: Value)
    requires item.Obj?
    ensures Without(item, ["status"]) == Cleared(item, {})
  {
    var clean := Without(item, ["status"]);
    assert clean.fields == item.fields - {"status"};
    if HasMetadata(item) {
      assert item.fields["metadata"].fields - {} == item.fields["metadata"].fields;
      assert clean.fields == Cleared(item, {}).fields;
    }
  }

  method Strip(item: Value) returns (clean: Value, stripped: seq<string>)
    requires item.Obj?
    ensures clean == Stripped(item)
    ensures Ascending(stripped)
    ensures forall what :: what in stripped <==> Reported(Authored(item), what)
  {
    var draft := DraftOf(item);
    stripped := draft.DropAllocations();
    clean := draft.root;
  }

  /** Everything either side lost, once, in order; `left` and `right` come from Strip. */
  method Union(left: seq<string>, right: seq<string>) returns (out: seq<string>)
    requires Unrepeated(left)
    ensures Ascending(out)
    ensures forall what :: what in out <==> what in left || what in right
  {
    out := left;
    for i := 0 to |right|
      invariant Unrepeated(out)
      invariant forall what :: what in out <==> what in left || what in right[..i]
    {
      if right[i] !in out {
        out := out + [right[i]];
      }
    }
    SortedAscending(out);
    forall what ensures what in Sorted(out) <==> what in out { SortedHolds(out, what); }
    out := Sorted(out);
  }
}
