# harvester-tink-operator, modelled in Dafny

The operator provisions bare-metal Harvester nodes through the Tinkerbell
provisioning service. It has two reconcilers and one HTTP endpoint.

- **The node reconciler** handles `Register` objects. A new node gets a
  `uuid` label (phase `uidgenerated`). Then a hardware record is pushed to
  the Tinkerbell registrar (phase `hardwarepushed`). The record's metadata
  tells the installer to fetch its configuration from
  `http://<host>:30880/config/<uuid>`. When a node is deleted, its hardware
  record is deleted and its finalizer is released.
- **The cluster reconciler** handles `Cluster` objects. It runs only when the
  operator is not installed inside a Harvester cluster (multi-cluster mode).
  A cluster goes through these phases:
  - `""`: identify the member nodes by their `clusterName` label;
  - `ElectLeader`: keep a leader that has a static address, remove stale
    leader labels, or nominate a candidate;
  - `PatchNodes`: copy the cluster-level settings onto every member, label it
    `ready` and make the cluster its owner and controller;
  - `Nodesubmitted`: watch for members that appear or disappear.
- **The config endpoint** `GET /config/{uuid}` finds the node with that
  `uuid` label. It answers with the installer configuration built from the
  node's spec, or with a JSON information or error envelope.
- **The shared helpers** test whether the operator runs inside Harvester
  (the `settings.harvesterhci.io` CRD is installed) and find the URL of the
  management plane:
  - single-cluster mode reads the `server-url` setting and puts port 6443 in
    place of its port;
  - multi-cluster mode takes the address of the first member of the node's
    cluster that is labelled `leader=true`.

## How the model is built

- **Objects are values.** `Register`, `Cluster` and their specs, statuses and
  metadata are datatypes (`api.dfy`). The Go pattern "get a copy, change it,
  Update it" becomes: read the stored value, build a new value, write it
  back.
- **The API server is a class.** `Store.Client` holds the stored nodes (by
  name, and in List order), the clusters, the installed CRDs and the
  `server-url` setting. It also holds the failures the server may report: a
  CRD list that fails, a List fault, and the names whose Update conflicts.
  An Update that removes the last finalizer from an object being deleted
  takes that object out of the store.
- **The registrar is a class.** `Store.Registrar` holds the hardware records
  by id, plus a transport fault for each of its three calls.
- **Each reconciler is a class** whose methods change this state.
- **The loops are specified by folds.** Each pass of the member loops of
  ElectLeader and PatchNodes is one pure function, `ScanStep` or
  `PatchStep`. The loop is the fold `Scan` or `Patched` of that function
  over the member list, and the method's loop invariant is "the fold over
  the members seen so far equals the current state".

  A second set of lemmas states where the loop stops (`ElectionEnd`,
  `PatchEnd`) and what the fold leaves behind at that point. That is the
  observable behaviour of the source loop.
- **Random and remote inputs are parameters.** The value `uuid.New` returns
  is passed in as `newUID`. url.Parse with its host part is the function
  `parseHost`. The server URL and the Harvester version the endpoint looks
  up are arguments of `GetConfig`.

The model keeps these behaviours of the code as written:

- **IdentifyNodes** returns only the listed nodes not yet recorded as
  members. So in phase `Nodesubmitted`, ReconcileNodes finds every recorded
  member missing and keeps none of them (`ReconcileNodesKeepsNoMember`).
- **ElectLeader** still fails with "Unable to elect a leader" in the pass
  that nominates and labels a new leader. The cluster stays in phase
  `ElectLeader`, and the next pass finds that leader.
- **PatchNodes** writes the phase `NodeSubmitted`, but the dispatch tests
  for `Nodesubmitted`. A patched cluster therefore falls through the default
  case of the dispatch: it is written back unchanged and requeued on every
  pass.
- **A node in an unknown phase** is written back with the zero status.
- **A node whose `uuid` label already exists** has that label adopted into
  its status. Its phase stays `""`.
- **getConfig** first sets the DNS servers to the NTP servers, then
  overwrites them with the DNS servers. The served configuration carries
  the node's own DNS servers.
- **The handler panics** when the server URL contains no `:`. This is the
  `Aborted` response.
- **The nominee is picked nondeterministically.** Go takes the last entry
  of a map iteration. The model picks any candidate (`:|`), and every
  property is proved for every choice.
- **A stale leader is never a candidate.** A node labelled leader without
  a static address loses its label, and it cannot be nominated, because a
  candidate needs an address (the `Address != ""` tests at
  controllers/cluster_controller.go:192-207).

## Model

| member | source | states |
|---|---|---|
| Common.AtoiItoa | pkg/util/util.go:32 | The decimal text that strconv.Itoa gives for any integer, negative ones included, parses back to that integer. |
| Tink.GenerateHWRequest | pkg/tink/client.go:52-105 | A host that does not parse gives a wrapped error. Otherwise the record is keyed by the node's UUID. Its one interface allows PXE. It carries the ISO location exactly when the node has one. Its DHCP entry has the node's MAC address and name. The IP is fixed only when address, gateway and netmask are all set. Its metadata holds the host part before the first `:` and the UUID, in a form that can be read back. |
| Tink.MetaDataRoundTrip | pkg/tink/client.go:107-130 | Reading back the metadata document filled in for a host without `:` gives exactly that host and the node's UUID. |
| Util.DoesSettingExist | pkg/util/util.go:125-138 | Fails exactly when the CRD list fails, with the wrapped error. Otherwise true exactly when `settings.harvesterhci.io` is installed. |
| Util.RewritePortReplacesPort | pkg/util/util.go:94-96 | Single-cluster mode puts 6443 in place of whatever follows the last `:`, and keeps all that comes before. |
| Util.RewritePortWithoutColon | pkg/util/util.go:94-96 | A setting without `:` becomes just `:6443`. |
| Util.MultiClusterURL | pkg/util/util.go:101-122 | Multi-cluster mode succeeds exactly when some member of the node's cluster, in List order, is labelled `leader=true`. The URL is then `https://<address>:6443` of the first such member. |
| Util.FetchServerURL | pkg/util/util.go:68-123 | Returns the resolution `ServerURLFor`, with every error branch: CRD list, missing setting, setting without value, missing `clusterName` label, failing List, no leader. |
| Util.FindLeaderURL | pkg/util/util.go:114-122 | The member loop returns the URL of the first listed node labelled leader, or the "no leader found" error. |
| Util.ReturnHTTPMessage | pkg/util/util.go:27-40 | The envelope's status field is decimal text that parses back to the HTTP code. Its type and message are the ones given. |
| ConfigServer.AssembleOS | pkg/http/server.go:75-124 | The hostname is the node's name. The password is the node's own, or else its name. Keys, NTP servers and environment come from the node. The DNS servers are the node's own DNS servers, whatever the interim write at line 94 put there. Modules, sysctls and wifi stay empty. |
| ConfigServer.AssembleNetwork | pkg/http/server.go:101-116 | One interface with the node's interface name and MAC address, DHCP, default route. |
| ConfigServer.AssembleInstall | pkg/http/server.go:126-149 | Automatic join onto the node's disk, or `/dev/sda` when it has none. The management network is the one above. The ISO is the node's own or the release ISO of the given version. |
| ConfigServer.ConfigServerURLRewrites | pkg/http/server.go:152 | The served URL puts `https` in place of the scheme and 8443 in place of the last segment, and keeps everything in between. |
| ConfigServer.ConfigServerURLOfLeader | pkg/http/server.go:152 | A leader URL `https://<address>:6443` is served as `https://<address>:8443`. |
| ConfigServer.GetConfig | pkg/http/server.go:31-165 | Each outcome with its code and text: no UUID 500, List NotFound 404, other List error 500, not exactly one node 500, node already ready 200, server-URL fetch error 500, version fetch error 500. One unready node with a server URL of at least two `:`-segments and a version is always served, and only then. Its server URL is rewritten and its token, OS and install sections are built from that node. The handler aborts exactly when the URL splits into fewer than two segments. |
| ConfigServer.GetConfigAbortsWithoutColon | pkg/http/server.go:74-152 | The handler aborts exactly when all earlier steps succeed and the server URL contains no `:`. |
| RegisterController.ContainsString | controllers/register_controller.go:119-126 | True exactly when the string is in the slice. |
| RegisterController.AddFinalizer | controllers/register_controller.go:88 | Metadata that already has the finalizer is returned unchanged. Otherwise the finalizer is appended once at the end, and nothing else in the metadata changes. |
| RegisterController.RemoveFinalizer | controllers/register_controller.go:103 | Every occurrence of the finalizer is removed. The rest keep their order, and nothing else changes. |
| RegisterController.RemoveAfterAdd | controllers/register_controller.go:88-103 | Removing a finalizer that was just added back to metadata that lacked it restores the metadata. |
| RegisterController.AddFinalizerIdempotent | controllers/register_controller.go:88 | Adding the finalizer twice is the same as adding it once. |
| RegisterController.GenerateUID | controllers/register_controller.go:129-148 | The `uuid` label ends up equal to the status UUID. Other labels are unchanged. An existing label is adopted and the phase is kept. Otherwise the new UUID is set and the phase becomes `uidgenerated`. |
| RegisterController.GenerateUIDStable | controllers/register_controller.go:129-148 | Once generated, a node's UUID survives any later run with any new random value. |
| RegisterController.RegisterReconciler.HardwareFor | controllers/register_controller.go:153-163 | A server URL error or a URL that does not parse stops before the push, each with its wrapped error. Otherwise the record is the one that GenerateHWRequest builds from the parsed host. |
| RegisterController.RegisterReconciler.GenerateHardware | controllers/register_controller.go:151-178 | On a failure before or at the push, the status and the records are unchanged and the wrapped error is returned. On success, the record is stored under the node's UUID and the phase becomes `hardwarepushed`. |
| RegisterController.RegisterReconciler.DeletionOf | controllers/register_controller.go:180-197 | With a fault-free registrar the record is gone afterwards. A record the registrar does not hold counts as deleted, and so does a lookup failure that mentions "sql: no rows in result set". Any other lookup failure gives the wrapped "error during get hardware". A found record whose Delete fails gives that error. Every failure leaves the records as they were. |
| RegisterController.RegisterReconciler.DeletionFailureKeepsFinalizer | controllers/register_controller.go:95-101 | When a node being deleted has the finalizer and a UUID but its hardware deletion fails, the pass fails with that error before any Update. The finalizer stays and the records are unchanged. |
| RegisterController.RegisterReconciler.DeleteHardware | controllers/register_controller.go:180-197 | Changes the records and returns the error exactly as `DeletionOf` describes. |
| RegisterController.RegisterReconciler.EffectKeepsIdentity | controllers/register_controller.go:72-107 | An object that is written back keeps the node's name, namespace, spec, deletion state, owner and `uuid` label. A live node carries the finalizer afterwards, and a deleted one no longer does. |
| RegisterController.RegisterReconciler.EffectPhases | controllers/register_controller.go:72-93 | A live node stops being reconciled exactly at `hardwarepushed`. Only `uidgenerated` can fail. `""` leads to `uidgenerated`, or stays at `""` when a label is adopted. `uidgenerated` leads to `hardwarepushed`. Any other phase resets the status. Every write-back requeues. |
| RegisterController.RegisterReconciler.PushedRecordNamesNode | controllers/register_controller.go:150-178 | A pushed record is keyed by the node's UUID, and its metadata points back to the config endpoint for that UUID. |
| RegisterController.RegisterReconciler.DeletionReleases | controllers/register_controller.go:94-107 | A node being deleted, with its finalizer as the only one, is released, and its hardware record is gone. |
| RegisterController.RegisterReconciler.WriteNode | controllers/register_controller.go:93-106 | The final Update: a conflict changes nothing. A released object leaves the store and the List order. Otherwise the object is stored under its name. |
| RegisterController.RegisterReconciler.ReconcileLive | controllers/register_controller.go:72-93 | A live node: the store, the registrar, the requeue flag and the error are exactly what that phase's step followed by the Update produces. |
| RegisterController.RegisterReconciler.ReconcileDeleted | controllers/register_controller.go:94-107 | A node being deleted: its hardware record is deleted when it has the finalizer and a UUID, then the finalizer is removed in the Update. A deletion error stops the pass. |
| RegisterController.RegisterReconciler.Reconcile | controllers/register_controller.go:58-110 | A node that is gone is ignored. Otherwise the full outcome is as above, with the store's invariant kept. |
| ClusterController.MapNodeToRequests | controllers/cluster_controller.go:117-133 | A node event wakes at most one cluster: the one its `clusterName` label names, in the node's namespace. Without that label it wakes none. |
| ClusterController.MembersWakeTheirCluster | controllers/cluster_controller.go:117-133 | Every node the cluster's membership List returns wakes that cluster. |
| ClusterController.Identified | controllers/cluster_controller.go:139-173 | Error cases: a name that is not a valid selector value, and a List error other than NotFound. A NotFound List keeps the status. Otherwise the new members are exactly the listed nodes not yet recorded, in List order and without duplicates, and the phase is `ElectLeader`, or `Nodesubmitted` when there are none. |
| ClusterController.Unlabel | controllers/cluster_controller.go:197-199 | The node is no longer labelled leader. Its spec, status and other metadata are kept. |
| ClusterController.Promote | controllers/cluster_controller.go:216-219 | The node is labelled leader. Its spec, status and other metadata are kept. |
| ClusterController.LeaderLabelOnly | controllers/cluster_controller.go:197-219 | Removing or setting the leader label leaves every other label as it was. |
| ClusterController.ElectionEnd | controllers/cluster_controller.go:183-210 | The election stops at the first member that is missing, is a valid leader, or is a stale leader whose unlabelling conflicts. The members before it do none of these. |
| ClusterController.ScanSettled | controllers/cluster_controller.go:183-184 | Once a leader is known or an error is raised, the later members change nothing. |
| ClusterController.ScanStoresByName | controllers/cluster_controller.go:183-210 | The loop keeps the store's nodes under their own names. The leader and the candidates it collects are stored nodes. |
| ClusterController.ScanUpTo | controllers/cluster_controller.go:183-210 | Up to the stop there is neither a leader nor an error. The stale leaders met are unlabelled and the candidates met are collected. |
| ClusterController.ScanResult | controllers/cluster_controller.go:183-210 | What the member loop leaves. Before the stop: stale labels removed and candidates collected. At the stop: NotFound for a missing member, the leader for a valid one, the wrapped Conflict for a stale one. Running through: no error and no leader, and no candidate exactly when no member may be nominated. |
| ClusterController.ScanElectsIff | controllers/cluster_controller.go:183-234 | The loop ends with a leader whose write-back does not conflict exactly when the election stops at a valid leader that can be written. |
| ClusterController.NomineeIsSoleLeader | controllers/cluster_controller.go:212-220 | After a scan that met no leader, the nominee is a member, has a static address, and is the only member labelled leader. |
| ClusterController.ApplyClusterSettingsCopies | controllers/cluster_controller.go:244-268 | A patched node carries every cluster-level setting. It keeps its own MAC, interface, address, netmask, gateway, password, name, namespace, finalizers, deletion state, status and other labels. It is labelled `ready=true` and owned by the cluster. |
| ClusterController.ApplyClusterSettingsIdempotent | controllers/cluster_controller.go:244-268 | Patching a node twice with the same cluster is the same as patching it once. |
| ClusterController.PatchEnd | controllers/cluster_controller.go:239-273 | PatchNodes stops at the first member that is missing, is controlled by another cluster, or has a conflicting Update. The members before it do none of these. |
| ClusterController.PatchedSettled | controllers/cluster_controller.go:239-243 | After the first failure the later members change nothing. |
| ClusterController.PatchedResult | controllers/cluster_controller.go:239-273 | Every member before the stop is patched and every other node is as it was. The pass fails exactly when it stops early, with the error of the member it stops at. |
| ClusterController.PatchedSucceedsIff | controllers/cluster_controller.go:237-278 | PatchNodes succeeds exactly when no member stops it. |
| ClusterController.KeptMembers | controllers/cluster_controller.go:303-313 | The members kept are the recorded ones found again, in their recorded order. |
| ClusterController.ReconcileNodesKeepsNoMember | controllers/cluster_controller.go:289-313 | Because IdentifyNodes leaves out recorded members, ReconcileNodes keeps none of them. |
| ClusterController.RemoveElement | controllers/cluster_controller.go:329-337 | The input with every occurrence of the value removed, in order. |
| ClusterController.HasAdditional | controllers/cluster_controller.go:297-301 | True exactly when some identified member is not recorded. |
| ClusterController.MissingMembers | controllers/cluster_controller.go:303-309 | The recorded members not identified again, in order. The flag is set exactly when there is one. |
| ClusterController.RemoveMembers | controllers/cluster_controller.go:311-313 | The recorded members with all the missing ones removed. |
| ClusterController.ClusterReconciler.IdentifyNodes | controllers/cluster_controller.go:139-173 | Returns exactly `Identified`. |
| ClusterController.ClusterReconciler.VisitMember | controllers/cluster_controller.go:184-208 | One pass of the election loop changes the store and the loop variables as `ScanStep` says. |
| ClusterController.ClusterReconciler.ScanMembers | controllers/cluster_controller.go:183-210 | After the loop, the store, the leader, the candidates and the error are the fold `Scan` over the members. |
| ClusterController.ClusterReconciler.AppointLeader | controllers/cluster_controller.go:212-234 | A leader found is written back, and only a conflict fails. With no leader and no candidate, the "Unable to elect" error. Otherwise some candidate is labelled leader, unless its Update conflicts, and the error is still returned. |
| ClusterController.ClusterReconciler.Nominate | controllers/cluster_controller.go:212-231 | Some collected candidate is labelled leader and written. A conflict leaves the nodes unchanged with that error. Otherwise the "Unable to elect" error is still returned. |
| ClusterController.ClusterReconciler.ElectLeader | controllers/cluster_controller.go:175-235 | The new store and error for each way the loop ends. The phase becomes `PatchNodes` exactly when there is no error, and the store order is kept. |
| ClusterController.ClusterReconciler.PatchMember | controllers/cluster_controller.go:240-272 | One pass of the PatchNodes loop changes the store as `PatchStep` says. |
| ClusterController.ClusterReconciler.PatchNodes | controllers/cluster_controller.go:237-278 | The store and the error are the fold `Patched` over the members. On success the phase written is `NodeSubmitted`. |
| ClusterController.ClusterReconciler.ReconcileNodes | controllers/cluster_controller.go:286-327 | An IdentifyNodes error is returned. With no member new or missing, nothing is written. Otherwise the cluster is written with the kept members, and with phase `""` when some are new. The Update's error is returned. |
| ClusterController.ClusterReconciler.WriteBack | controllers/cluster_controller.go:100-105 | A step error is returned without writing. Otherwise the new status is written, unless it conflicts, and the request is requeued. |
| ClusterController.ClusterReconciler.ElectPhase | controllers/cluster_controller.go:85-105 | The `ElectLeader` case of the dispatch: ElectLeader, then the write-back with phase `PatchNodes`, or its error. |
| ClusterController.ClusterReconciler.PatchPhase | controllers/cluster_controller.go:88-105 | The `PatchNodes` case of the dispatch: the patch loop, then the write-back with phase `NodeSubmitted`, or its error. |
| ClusterController.ClusterReconciler.ReconcilePhase | controllers/cluster_controller.go:77-106 | By phase: `""` writes what IdentifyNodes found. `ElectLeader` requeues exactly when the scan elects a writable leader. `PatchNodes` requeues exactly when every member is patched. `Nodesubmitted` never requeues. Any other phase is written back unchanged and requeued. Only `ElectLeader` and `PatchNodes` touch the nodes. After `ElectLeader`, the nodes and the step error are ElectLeader's outcome (`Elected`) on the member scan: stale labels removed, the leader written back, or the nominee promoted. After `PatchNodes` they are those of the `Patched` member loop. `Nodesubmitted` has the outcome of ReconcileNodes (`NodesReconciled`): the kept members, and the write-back of the cluster with its error. |
| ClusterController.ClusterReconciler.Reconcile | controllers/cluster_controller.go:50-108 | When the CRDs cannot be listed, that error. Inside Harvester, and for a cluster that is gone or being deleted, nothing happens. Otherwise the full phase outcome above, with the node state, the step error and the cluster write-back. |

## Left out

- Logging, the controller manager, the watch wiring and process start-up
  are not modelled. The actual socket writes of the endpoint are not
  modelled either.
- JSON and YAML marshalling and template execution are taken to succeed on
  these types, so their error branches are not modelled.
- The gRPC connection setup of the Tinkerbell client is not modelled.
- url.Parse is the parameter `parseHost`. Its grammar is not modelled.
- The selector check of labels.Parse on `clusterName=<name>` in
  IdentifyNodes is modelled as the 63-character limit on label values.
  Its exact error text is not reproduced.
- The labels.Parse error in getConfig is not modelled. That branch writes an
  error and then goes on anyway.
- In FetchServerURL the selector that labels.Parse builds from the node's
  `clusterName` label is the selector of the List. The code ignores the
  parse error. Parsing cannot fail there, because the value is already
  stored as a label, so the model lists by that label directly.
- A Get that fails transiently is not modelled. Get fails only when the
  object is missing. List failures are modelled, including an unavailable
  server, through `listFault` and `crdListFails`.
- A Go panic on a nil label map is not modelled: labels are always a map.
- getNode with an empty namespace is modelled as a lookup by name.
- SetControllerReference and SetOwnerReference are modelled as the
  recorded owner. The only error modelled is a node already controlled by
  another cluster. Scheme errors are not modelled.
- generateHardware and getConfig call FetchServerURL with one argument,
  while it is declared with two: the client and the node. The model passes
  the node being reconciled. getConfig's URL is a parameter of `GetConfig`.
- The Harvester version lookup (FindHarvesterVersion) is not part of this
  model. Its outcome is a parameter of `GetConfig`.
- The type assertion on the `server-url` value is not modelled: the value
  is a string.
- The requeue and rate-limiting behaviour of controller-runtime is not
  modelled. Reconcile returns a requeue flag and an error, nothing more.
- Go's map iteration order when the nominee is picked is modelled as a
  nondeterministic choice.
- The `leaderExists` flag of ElectLeader is folded into whether a leader
  node is known.
- ReturnHTTPContent and ReturnHTTPRaw, which have no logic, are not
  modelled.
- main.go registers only the node reconciler with the manager. That
  wiring is not modelled: both reconcilers are modelled as written.
