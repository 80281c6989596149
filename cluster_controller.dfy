/** The cluster reconciler (controllers/cluster_controller.go), which runs
    only when the operator is not installed inside a Harvester cluster.  A
    Cluster object moves through the phases "" (identify the member nodes
    by their `clusterName` label), ElectLeader (find or nominate a node with
    a static address as leader), PatchNodes (copy the cluster settings onto
    every member) and Nodesubmitted (watch membership). */
module ClusterController {
  import opened Common
  import opened Api
  import opened Store
  import opened Util
  import RegisterController

  /** A reconcile request for the object `name` in `namespace`. */
  datatype Request = Request(namespace: string, name: string)

  /** The watch mapping: a node event wakes the cluster its `clusterName`
      label names, in the node's namespace. */
  function MapNodeToRequests(node: Register): (r: seq<Request>)
    ensures |r| <= 1
    ensures r != [] <==> ClusterNameLabel in node.meta.labels
    ensures r != [] ==> r[0].name == node.meta.labels[ClusterNameLabel] && r[0].namespace == node.meta.namespace
  {
    var labels := node.meta.labels;
    if ClusterNameLabel in labels then [Request(node.meta.namespace, labels[ClusterNameLabel])] else []
  }

  /** Every node the membership scan of a cluster lists wakes exactly that cluster. */
  lemma MembersWakeTheirCluster(c: Client, clusterName: string, n: string)
    requires c.Valid()
    requires n in c.Selected(ClusterNameLabel, clusterName)
    ensures MapNodeToRequests(c.nodes[n]) == [Request(c.nodes[n].meta.namespace, clusterName)]
  {
  }

  /** labels.Parse of the selector `clusterName=<name>`.  A cluster name is a
      DNS subdomain, so of the checks on a label value only its limit of 63
      characters can fail. */
  predicate SelectorParses(name: string) {
    |name| <= 63
  }

  const SelectorError := Failure("invalid label value: must be no more than 63 characters")

  // ---------------------------------------------------------------------
  // IdentifyNodes
  // ---------------------------------------------------------------------

  /** The outcome of IdentifyNodes: the new status, or the error.  The new
      members are the listed nodes not yet recorded, in List order. */
  function Identified(c: Client, cluster: Cluster): (r: (ClusterStatus, Option<Error>))
    reads c
    requires c.Valid()
    ensures r.1.Some? || !SelectorParses(cluster.meta.name) || c.listFault.Some? ==> r.0 == cluster.status
    ensures !SelectorParses(cluster.meta.name) ==> r.1 == Some(SelectorError)
    ensures SelectorParses(cluster.meta.name) && c.listFault == Some(NotFound) ==> r.1.None?
    ensures SelectorParses(cluster.meta.name) && c.listFault.Some? && c.listFault != Some(NotFound) ==>
      r.1 == Some(Store(c.listFault.value))
    ensures SelectorParses(cluster.meta.name) && c.listFault.None? ==>
      var listed := c.Selected(ClusterNameLabel, cluster.meta.name);
      && r.1.None?
      && (forall n :: n in r.0.members <==> n in listed && n !in cluster.status.members)
      && Subseq(r.0.members, listed) && NoDup(r.0.members)
      && r.0.status == (if r.0.members == [] then NodesubmittedPhase else ElectLeaderPhase)
      && r.0.message == cluster.status.message
  {
    if !SelectorParses(cluster.meta.name) then (cluster.status, Some(SelectorError))
    else
      match c.ListNodes(ClusterNameLabel, cluster.meta.name)
      case Err(NotFound) => (cluster.status, None)
      case Err(e) => (cluster.status, Some(Store(e)))
      case Ok(items) =>
        var members := Minus(Names(items), cluster.status.members);
        (cluster.status.(members := members, status := if members == [] then NodesubmittedPhase else ElectLeaderPhase), None)
  }

  // ---------------------------------------------------------------------
  // ElectLeader
  // ---------------------------------------------------------------------

  /** A leader the election accepts: labelled leader=true with a static address. */
  predicate IsValidLeader(n: Register) {
    IsLeaderLabelled(n) && n.spec.address != ""
  }

  /** A leader label on a node without a static address, which the election removes. */
  predicate IsStaleLeader(n: Register) {
    IsLeaderLabelled(n) && n.spec.address == ""
  }

  /** A node that may be nominated: it has a static address and no leader label. */
  predicate IsCandidate(n: Register) {
    n.spec.address != "" && !IsLeaderLabelled(n)
  }

  function Unlabel(n: Register): (r: Register)
    ensures !IsLeaderLabelled(r) && r.spec == n.spec && r.status == n.status
    ensures r.meta == n.meta.(labels := r.meta.labels)
  {
    n.(meta := n.meta.(labels := n.meta.labels - {LeaderLabel}))
  }

  function Promote(n: Register): (r: Register)
    ensures IsLeaderLabelled(r) && r.spec == n.spec && r.status == n.status
    ensures r.meta == n.meta.(labels := r.meta.labels)
  {
    n.(meta := n.meta.(labels := n.meta.labels[LeaderLabel := "true"]))
  }

  /** Unlabelling and promoting touch the leader label and nothing else. */
  lemma LeaderLabelOnly(n: Register)
    ensures forall k :: k != LeaderLabel ==> (k in Unlabel(n).meta.labels <==> k in n.meta.labels)
    ensures forall k :: k != LeaderLabel && k in Unlabel(n).meta.labels ==> Unlabel(n).meta.labels[k] == n.meta.labels[k]
    ensures forall k :: k != LeaderLabel ==> (k in Promote(n).meta.labels <==> k in n.meta.labels)
    ensures forall k :: k != LeaderLabel && k in Promote(n).meta.labels ==> Promote(n).meta.labels[k] == n.meta.labels[k]
  {
  }

  /** The scan of the members stops at `m`: it is missing, it is a valid
      leader, or it is a stale leader whose unlabelling conflicts. */
  predicate ElectionHalts(m: string, nodes: map<string, Register>, conflicts: set<string>) {
    m !in nodes || IsValidLeader(nodes[m]) || (IsStaleLeader(nodes[m]) && m in conflicts)
  }

  /** Where the scan of the members stops; |members| when it runs through. */
  function ElectionEnd(members: seq<string>, nodes: map<string, Register>, conflicts: set<string>): (k: nat)
    ensures k <= |members|
    ensures forall j :: 0 <= j < k ==> !ElectionHalts(members[j], nodes, conflicts)
    ensures k < |members| ==> ElectionHalts(members[k], nodes, conflicts)
  {
    FirstIndex(members, m => ElectionHalts(m, nodes, conflicts))
  }

  /** The election ends without error: the scan meets a valid leader that can be written back. */
  predicate ElectionSucceeds(members: seq<string>, nodes: map<string, Register>, conflicts: set<string>) {
    var k := ElectionEnd(members, nodes, conflicts);
    k < |members| && members[k] in nodes && IsValidLeader(nodes[members[k]]) && members[k] !in conflicts
  }

  const StaleLeaderContext := "unable to unset leader label from node"

  function NoLeaderError(clusterName: string): Error {
    Failure("Unable to elect a leader for the cluster " + clusterName
            + ". A cluster needs a leader with a static address and label leader=true")
  }

  /** No member found in `nodes` may be nominated. */
  predicate NoCandidate(members: seq<string>, nodes: map<string, Register>) {
    forall m :: m in members && m in nodes ==> !IsCandidate(nodes[m])
  }

  /** What the member loop of ElectLeader carries from one member to the
      next: the nodes as stored, the leader found, the candidates
      collected, and the error it stops with. */
  datatype ScanState = ScanState(
    nodes: map<string, Register>,
    leader: Option<Register>,
    possible: map<string, Register>,
    err: Option<Error>)

  /** One pass of the member loop on `m`, against the nodes as the earlier
      passes left them.  Once a leader is known or an error is raised,
      nothing changes any more. */
  function ScanStep(st: ScanState, m: string, conflicts: set<string>): ScanState {
    if st.err.Some? || st.leader.Some? then st
    else if m !in st.nodes then st.(err := Some(Store(NotFound)))
    else
      var node := st.nodes[m];
      if IsValidLeader(node) then st.(leader := Some(node))
      else if IsStaleLeader(node) then
        if m in conflicts then st.(err := Some(Wrapped(StaleLeaderContext, Store(Conflict))))
        else st.(nodes := st.nodes[m := Unlabel(node)])
      else if node.spec.address != "" then st.(possible := st.possible[m := node])
      else st
  }

  /** The member loop of ElectLeader run over `members`, starting from the nodes `N`. */
  function Scan(N: map<string, Register>, members: seq<string>, conflicts: set<string>): ScanState
  {
    if members == [] then ScanState(N, None, map[], None)
    else ScanStep(Scan(N, members[..|members| - 1], conflicts), members[|members| - 1], conflicts)
  }

  lemma ScanSnoc(N: map<string, Register>, members: seq<string>, conflicts: set<string>, i: nat)
    requires i < |members|
    ensures Scan(N, members[..i + 1], conflicts) == ScanStep(Scan(N, members[..i], conflicts), members[i], conflicts)
  {
    assert members[..i + 1][..i] == members[..i];
  }

  /** Once the loop has found a leader or failed, the later members change nothing. */
  lemma {:induction false} ScanSettled(N: map<string, Register>, members: seq<string>, conflicts: set<string>, i: nat)
    requires i <= |members|
    requires Scan(N, members[..i], conflicts).err.Some? || Scan(N, members[..i], conflicts).leader.Some?
    ensures Scan(N, members, conflicts) == Scan(N, members[..i], conflicts)
    decreases |members|
  {
    if i == |members| {
      assert members[..i] == members;
    } else {
      var front := members[..|members| - 1];
      assert front[..i] == members[..i];
      ScanSettled(N, front, conflicts, i);
    }
  }

  /** The nodes are stored under their own names and none is released. */
  ghost predicate StoredByName(nodes: map<string, Register>) {
    forall n :: n in nodes ==> nodes[n].meta.name == n && !Released(nodes[n].meta)
  }

  /** The loop keeps the nodes stored by name, takes its leader and its
      candidates from them, and none of these is released. */
  lemma {:induction false} ScanStoresByName(N: map<string, Register>, members: seq<string>, conflicts: set<string>)
    requires StoredByName(N)
    ensures var st := Scan(N, members, conflicts);
      && StoredByName(st.nodes)
      && (st.leader.Some? ==> var l := st.leader.value; l.meta.name in st.nodes && st.nodes[l.meta.name] == l)
      && forall m :: m in st.possible ==> m in st.nodes && st.possible[m].meta.name == m && !Released(st.possible[m].meta)
    decreases |members|
  {
    if members != [] {
      ScanStoresByName(N, members[..|members| - 1], conflicts);
      ScanStepStoresByName(Scan(N, members[..|members| - 1], conflicts), members[|members| - 1], conflicts);
    }
  }

  lemma ScanStepStoresByName(st: ScanState, m: string, conflicts: set<string>)
    requires StoredByName(st.nodes)
    requires st.leader.Some? ==> var l := st.leader.value; l.meta.name in st.nodes && st.nodes[l.meta.name] == l
    requires forall n :: n in st.possible ==> n in st.nodes && st.possible[n].meta.name == n && !Released(st.possible[n].meta)
    ensures var st' := ScanStep(st, m, conflicts);
      && StoredByName(st'.nodes)
      && (st'.leader.Some? ==> var l := st'.leader.value; l.meta.name in st'.nodes && st'.nodes[l.meta.name] == l)
      && forall n :: n in st'.possible ==> n in st'.nodes && st'.possible[n].meta.name == n && !Released(st'.possible[n].meta)
  {
    if st.err.None? && st.leader.None? && m in st.nodes {
      var node := st.nodes[m];
      if IsValidLeader(node) {
        assert ScanStep(st, m, conflicts) == st.(leader := Some(node));
      } else if IsStaleLeader(node) && m !in conflicts {
        var nodes' := st.nodes[m := Unlabel(node)];
        assert ScanStep(st, m, conflicts) == st.(nodes := nodes');
        assert StoredByName(nodes');
      } else if !IsStaleLeader(node) && node.spec.address != "" {
        assert ScanStep(st, m, conflicts) == st.(possible := st.possible[m := node]);
      }
    }
  }

  /** The loop met a leader whose write-back does not conflict. */
  predicate ScanElects(st: ScanState, conflicts: set<string>) {
    st.err.None? && st.leader.Some? && st.leader.value.meta.name !in conflicts
  }

  /** The election succeeds exactly when the loop meets a leader whose write-back does not conflict. */
  lemma ScanElectsIff(N: map<string, Register>, members: seq<string>, conflicts: set<string>)
    requires StoredByName(N)
    ensures ElectionSucceeds(members, N, conflicts) <==> ScanElects(Scan(N, members, conflicts), conflicts)
  {
    ScanResult(N, members, conflicts);
  }

  /** The pass on `members[i]` from the state `st` fails: that is where the loop ends. */
  lemma ScanStops(N: map<string, Register>, members: seq<string>, conflicts: set<string>, i: nat, st: ScanState)
    requires i < |members| && Scan(N, members[..i], conflicts) == st
    requires ScanStep(st, members[i], conflicts).err.Some?
    ensures Scan(N, members, conflicts) == ScanStep(st, members[i], conflicts)
  {
    ScanSnoc(N, members, conflicts, i);
    ScanSettled(N, members, conflicts, i + 1);
  }

  /** A member met before the stop of the election scan does not stop it. */
  lemma ElectionBefore(members: seq<string>, N: map<string, Register>, conflicts: set<string>, i: nat, name: string)
    requires i <= ElectionEnd(members, N, conflicts)
    requires name in members[..i]
    ensures !ElectionHalts(name, N, conflicts)
  {
    var j :| 0 <= j < i && members[..i][j] == name;
    assert members[j] == name;
  }

  /** One pass on a member that neither is a valid leader nor fails:
      a stale label is removed, a candidate is collected. */
  lemma ScanStepOnward(st: ScanState, m: string, conflicts: set<string>)
    requires st.err.None? && st.leader.None? && m in st.nodes
    requires !IsValidLeader(st.nodes[m]) && !(IsStaleLeader(st.nodes[m]) && m in conflicts)
    ensures var st' := ScanStep(st, m, conflicts);
      && st'.err.None? && st'.leader.None?
      && st'.nodes == (if IsStaleLeader(st.nodes[m]) then st.nodes[m := Unlabel(st.nodes[m])] else st.nodes)
      && st'.possible == (if IsCandidate(st.nodes[m]) then st.possible[m := st.nodes[m]] else st.possible)
  {
  }

  /** One pass of the loop before the stop keeps the loop's invariant. */
  lemma ScanStepKeeps(st: ScanState, N: map<string, Register>, members: seq<string>, conflicts: set<string>, i: nat)
    requires i < ElectionEnd(members, N, conflicts)
    requires st.err.None? && st.leader.None?
    requires UnlabelledUpTo(st.nodes, N, members, i) && CandidatesUpTo(st.possible, N, members, i)
    ensures var st' := ScanStep(st, members[i], conflicts);
      && st'.err.None? && st'.leader.None?
      && UnlabelledUpTo(st'.nodes, N, members, i + 1)
      && CandidatesUpTo(st'.possible, N, members, i + 1)
  {
    var m := members[i];
    SplitAtEnd(members, i);
    assert !ElectionHalts(m, N, conflicts);
    var node := st.nodes[m];
    assert node == N[m] || (IsStaleLeader(N[m]) && node == Unlabel(N[m]));
    ScanStepOnward(st, m, conflicts);
    var st' := ScanStep(st, m, conflicts);
    if IsStaleLeader(N[m]) {
      assert st'.nodes == st.nodes[m := Unlabel(N[m])];
      UnlabelStep(st.nodes, st'.nodes, N, members, i);
      CandidateStep(st.possible, st'.possible, N, members, i);
    } else {
      assert st'.nodes == st.nodes;
      UnlabelStep(st.nodes, st'.nodes, N, members, i);
      CandidateStep(st.possible, st'.possible, N, members, i);
    }
  }

  lemma UnlabelStep(nodes: map<string, Register>, nodes': map<string, Register>,
                    N: map<string, Register>, members: seq<string>, i: nat)
    requires i < |members| && members[i] in N
    requires members[..i + 1] == members[..i] + [members[i]]
    requires UnlabelledUpTo(nodes, N, members, i)
    requires nodes' == if IsStaleLeader(N[members[i]]) then nodes[members[i] := Unlabel(N[members[i]])] else nodes
    ensures UnlabelledUpTo(nodes', N, members, i + 1)
  {
  }

  lemma CandidateStep(possible: map<string, Register>, possible': map<string, Register>,
                      N: map<string, Register>, members: seq<string>, i: nat)
    requires i < |members| && members[i] in N
    requires members[..i + 1] == members[..i] + [members[i]]
    requires CandidatesUpTo(possible, N, members, i)
    requires possible' == if IsCandidate(N[members[i]]) then possible[members[i] := N[members[i]]] else possible
    ensures CandidatesUpTo(possible', N, members, i + 1)
  {
  }

  /** Up to the stop, the loop has unlabelled the stale leaders it met and
      collected the candidates, and has neither a leader nor an error. */
  lemma {:induction false} ScanUpTo(N: map<string, Register>, members: seq<string>, conflicts: set<string>, i: nat)
    requires i <= ElectionEnd(members, N, conflicts)
    ensures var st := Scan(N, members[..i], conflicts);
      && st.err.None? && st.leader.None?
      && UnlabelledUpTo(st.nodes, N, members, i)
      && CandidatesUpTo(st.possible, N, members, i)
  {
    if i == 0 {
      assert members[..0] == [];
    } else {
      ScanUpTo(N, members, conflicts, i - 1);
      ScanSnoc(N, members, conflicts, i - 1);
      ScanStepKeeps(Scan(N, members[..i - 1], conflicts), N, members, conflicts, i - 1);
    }
  }


  /** What the member loop leaves behind, in terms of where it stops: it
      unlabels the stale leaders and collects the candidates before the
      stop, and there finds the leader or fails. */
  lemma ScanResult(N: map<string, Register>, members: seq<string>, conflicts: set<string>)
    ensures var k := ElectionEnd(members, N, conflicts);
      var st := Scan(N, members, conflicts);
      && UnlabelledUpTo(st.nodes, N, members, k)
      && CandidatesUpTo(st.possible, N, members, k)
      && (k == |members| ==> st.err.None? && st.leader.None? && (st.possible == map[] <==> NoCandidate(members, N)))
      && (k < |members| && members[k] !in N ==> st.err == Some(Store(NotFound)) && st.leader.None?)
      && (k < |members| && members[k] in N && IsValidLeader(N[members[k]]) ==>
            st.err.None? && st.leader == Some(N[members[k]]))
      && (k < |members| && members[k] in N && !IsValidLeader(N[members[k]]) ==>
            st.err == Some(Wrapped(StaleLeaderContext, Store(Conflict))) && st.leader.None?)
  {
    var k := ElectionEnd(members, N, conflicts);
    ScanUpTo(N, members, conflicts, k);
    if k == |members| {
      assert members[..k] == members;
      var st := Scan(N, members, conflicts);
      if st.possible == map[] {
        assert NoCandidate(members, N);
      } else {
        var m :| m in st.possible;
        assert m in members[..k];
      }
    } else {
      var m := members[k];
      if m in members[..k] {
        ElectionBefore(members, N, conflicts, k, m);
      }
      ScanSnoc(N, members, conflicts, k);
      ScanSettled(N, members, conflicts, k + 1);
    }
  }

  /** `nodes` is `N` with the stale leader labels of the members before
      position `s` removed. */
  ghost predicate UnlabelledUpTo(nodes: map<string, Register>, N: map<string, Register>, members: seq<string>, s: nat)
    requires s <= |members|
  {
    && nodes.Keys == N.Keys
    && forall m :: m in N ==> nodes[m] == if m in members[..s] && IsStaleLeader(N[m]) then Unlabel(N[m]) else N[m]
  }

  /** `possible` holds the candidates among the members before position `s`, as found in `N`. */
  ghost predicate CandidatesUpTo(possible: map<string, Register>, N: map<string, Register>, members: seq<string>, s: nat)
    requires s <= |members|
  {
    && (forall m :: m in possible <==> m in members[..s] && m in N && IsCandidate(N[m]))
    && (forall m :: m in possible ==> possible[m] == N[m])
  }

  /** After a scan that meets no leader, a nomination leaves the nominee as
      the only member labelled leader, and it has a static address. */
  lemma NomineeIsSoleLeader(N: map<string, Register>, members: seq<string>, conflicts: set<string>, nominee: string)
    requires ElectionEnd(members, N, conflicts) == |members|
    requires nominee in Scan(N, members, conflicts).possible
    ensures var st := Scan(N, members, conflicts);
      var nodes := st.nodes[nominee := Promote(st.possible[nominee])];
      && nominee in members && IsLeaderLabelled(nodes[nominee]) && nodes[nominee].spec.address != ""
      && forall m :: m in members && m in nodes && IsLeaderLabelled(nodes[m]) ==> m == nominee
  {
    ScanResult(N, members, conflicts);
    var st := Scan(N, members, conflicts);
    NoLeaderLeft(st.nodes, N, members, conflicts);
  }

  /** After a scan that meets no leader, no member is labelled leader. */
  lemma NoLeaderLeft(nodes: map<string, Register>, N: map<string, Register>, members: seq<string>, conflicts: set<string>)
    requires ElectionEnd(members, N, conflicts) == |members|
    requires UnlabelledUpTo(nodes, N, members, |members|)
    ensures forall m :: m in members && m in nodes ==> !IsLeaderLabelled(nodes[m])
  {
    assert members[..|members|] == members;
    forall m | m in members && m in nodes
      ensures !IsLeaderLabelled(nodes[m])
    {
      ElectionBefore(members, N, conflicts, |members|, m);
      assert nodes[m] == if IsStaleLeader(N[m]) then Unlabel(N[m]) else N[m];
    }
  }

  /** The outcome of ElectLeader after the member loop ended in `sc`:
      `nodes` as stored afterwards and the error returned, for the nominee
      `nominee` when one is picked. */
  ghost predicate Elected(sc: ScanState, conflicts: set<string>, clusterName: string, nominee: string,
                          nodes: map<string, Register>, err: Option<Error>)
  {
    // The loop failed: its error, and the labels it removed so far.
    && (sc.err.Some? ==> err == sc.err && nodes == sc.nodes)
    // The loop met a leader, which is written back unchanged.
    && (sc.err.None? && sc.leader.Some? ==>
          nodes == sc.nodes
          && err == if sc.leader.value.meta.name in conflicts then Some(Store(Conflict)) else None)
    // No leader and no candidate.
    && (sc.err.None? && sc.leader.None? && sc.possible == map[] ==>
          nodes == sc.nodes && err == Some(NoLeaderError(clusterName)))
    // No leader: a candidate is labelled leader, and the pass still fails.
    && (sc.err.None? && sc.leader.None? && sc.possible != map[] ==>
          nominee in sc.possible
            && (nominee in conflicts ==> nodes == sc.nodes && err == Some(Store(Conflict)))
            && (nominee !in conflicts ==>
                  nodes == sc.nodes[nominee := Promote(sc.possible[nominee])]
                  && err == Some(NoLeaderError(clusterName))))
  }

  /** A scan that failed is elected as it stands: its error and its nodes. */
  lemma ElectedOnScanError(sc: ScanState, conflicts: set<string>, clusterName: string)
    requires sc.err.Some?
    ensures Elected(sc, conflicts, clusterName, "", sc.nodes, sc.err)
  { }

  // ---------------------------------------------------------------------
  // PatchNodes
  // ---------------------------------------------------------------------

  /** The cluster-level settings PatchNodes copies onto a member, its
      `ready` label, and the cluster as owner and controller. */
  function ApplyClusterSettings(node: Register, cluster: Cluster): Register
  {
    var s := cluster.spec;
    var spec := node.spec.(
      token := s.token, nameservers := s.nameservers, pxeIsoURL := s.pxeIsoURL,
      sshAuthorizedKeys := s.sshAuthorizedKeys, modules := s.modules, sysctls := s.sysctls,
      ntpServers := s.ntpServers, dnsNameservers := s.dnsNameservers, wifi := s.wifi,
      environment := s.environment, disk := s.disk);
    var meta := node.meta.(labels := node.meta.labels[ReadyLabel := "true"], owner := Some(cluster.meta.name));
    node.(spec := spec, meta := meta)
  }

  /** A patched member carries every cluster-level setting, keeps its own
      network identity, password, labels and status, is labelled ready and
      is controlled by the cluster. */
  lemma ApplyClusterSettingsCopies(node: Register, cluster: Cluster)
    ensures var r := ApplyClusterSettings(node, cluster);
      && r.spec.token == cluster.spec.token && r.spec.nameservers == cluster.spec.nameservers
      && r.spec.pxeIsoURL == cluster.spec.pxeIsoURL && r.spec.sshAuthorizedKeys == cluster.spec.sshAuthorizedKeys
      && r.spec.modules == cluster.spec.modules && r.spec.sysctls == cluster.spec.sysctls
      && r.spec.ntpServers == cluster.spec.ntpServers && r.spec.dnsNameservers == cluster.spec.dnsNameservers
      && r.spec.wifi == cluster.spec.wifi && r.spec.environment == cluster.spec.environment
      && r.spec.disk == cluster.spec.disk
      // The node's own network identity and password are kept.
      && r.spec.macAddress == node.spec.macAddress && r.spec.interface == node.spec.interface
      && r.spec.address == node.spec.address && r.spec.netmask == node.spec.netmask
      && r.spec.gateway == node.spec.gateway && r.spec.password == node.spec.password
      && HasLabel(r.meta.labels, ReadyLabel, "true")
      && (forall k :: k != ReadyLabel ==> (k in r.meta.labels <==> k in node.meta.labels))
      && (forall k :: k != ReadyLabel && k in r.meta.labels ==> r.meta.labels[k] == node.meta.labels[k])
      && r.meta.owner == Some(cluster.meta.name)
      && r.meta.name == node.meta.name && r.meta.namespace == node.meta.namespace
      && r.meta.finalizers == node.meta.finalizers && r.meta.deleting == node.meta.deleting
      && r.status == node.status
  {
  }

  /** Patching a node twice with the same cluster is patching it once. */
  lemma ApplyClusterSettingsIdempotent(node: Register, cluster: Cluster)
    ensures ApplyClusterSettings(ApplyClusterSettings(node, cluster), cluster) == ApplyClusterSettings(node, cluster)
  {
  }

  /** SetControllerReference refuses a node another cluster already controls. */
  predicate OwnedElsewhere(node: Register, cluster: Cluster) {
    node.meta.owner.Some? && node.meta.owner.value != cluster.meta.name
  }

  function OwnedError(node: Register): Error
    requires node.meta.owner.Some?
  {
    Failure("Object " + node.meta.namespace + "/" + node.meta.name
            + " is already owned by another Cluster controller " + node.meta.owner.value)
  }

  /** PatchNodes stops at `m`: it is missing, controlled by another cluster, or its Update conflicts. */
  predicate PatchHalts(m: string, nodes: map<string, Register>, conflicts: set<string>, cluster: Cluster) {
    m !in nodes || OwnedElsewhere(nodes[m], cluster) || m in conflicts
  }

  function PatchEnd(members: seq<string>, nodes: map<string, Register>, conflicts: set<string>, cluster: Cluster): (k: nat)
    ensures k <= |members|
    ensures forall j :: 0 <= j < k ==> !PatchHalts(members[j], nodes, conflicts, cluster)
    ensures k < |members| ==> PatchHalts(members[k], nodes, conflicts, cluster)
  {
    FirstIndex(members, m => PatchHalts(m, nodes, conflicts, cluster))
  }

  /** `nodes` is `N` with the members before position `i` patched. */
  ghost predicate PatchedUpTo(nodes: map<string, Register>, N: map<string, Register>, members: seq<string>, i: nat, cluster: Cluster)
    requires i <= |members|
  {
    && nodes.Keys == N.Keys
    && forall m :: m in N ==> nodes[m] == if m in members[..i] then ApplyClusterSettings(N[m], cluster) else N[m]
  }

  /** A member met before the stop of the scan does not stop it. */
  lemma PatchedBefore(members: seq<string>, N: map<string, Register>, conflicts: set<string>, cluster: Cluster, i: nat, name: string)
    requires i <= PatchEnd(members, N, conflicts, cluster)
    requires name in members[..i]
    ensures !PatchHalts(name, N, conflicts, cluster)
  {
    var j :| 0 <= j < i && members[..i][j] == name;
    assert members[j] == name;
  }

  /** What the member loop of PatchNodes carries: the nodes as stored and
      the error it stops with. */
  datatype PatchState = PatchState(nodes: map<string, Register>, err: Option<Error>)

  /** One pass of the PatchNodes loop on `m`; after an error nothing changes. */
  function PatchStep(st: PatchState, m: string, conflicts: set<string>, cluster: Cluster): PatchState {
    if st.err.Some? then st
    else if m !in st.nodes then st.(err := Some(Store(NotFound)))
    else if OwnedElsewhere(st.nodes[m], cluster) then st.(err := Some(OwnedError(st.nodes[m])))
    else if m in conflicts then st.(err := Some(Store(Conflict)))
    else st.(nodes := st.nodes[m := ApplyClusterSettings(st.nodes[m], cluster)])
  }

  /** The PatchNodes loop run over `members`, starting from the nodes `N`. */
  function Patched(N: map<string, Register>, members: seq<string>, conflicts: set<string>, cluster: Cluster): PatchState
  {
    if members == [] then PatchState(N, None)
    else PatchStep(Patched(N, members[..|members| - 1], conflicts, cluster), members[|members| - 1], conflicts, cluster)
  }

  lemma PatchedSnoc(N: map<string, Register>, members: seq<string>, conflicts: set<string>, cluster: Cluster, i: nat)
    requires i < |members|
    ensures Patched(N, members[..i + 1], conflicts, cluster)
         == PatchStep(Patched(N, members[..i], conflicts, cluster), members[i], conflicts, cluster)
  {
    assert members[..i + 1][..i] == members[..i];
  }

  /** After the first failure, the later members change nothing. */
  lemma {:induction false} PatchedSettled(N: map<string, Register>, members: seq<string>, conflicts: set<string>, cluster: Cluster, i: nat)
    requires i <= |members|
    requires Patched(N, members[..i], conflicts, cluster).err.Some?
    ensures Patched(N, members, conflicts, cluster) == Patched(N, members[..i], conflicts, cluster)
    decreases |members|
  {
    if i == |members| {
      assert members[..i] == members;
    } else {
      var front := members[..|members| - 1];
      assert front[..i] == members[..i];
      PatchedSettled(N, front, conflicts, cluster, i);
    }
  }

  /** One pass of the loop before the stop keeps the loop's invariant. */
  lemma PatchStepKeeps(st: PatchState, N: map<string, Register>, members: seq<string>, conflicts: set<string>, cluster: Cluster, i: nat)
    requires i < |members| && !PatchHalts(members[i], N, conflicts, cluster)
    requires st.err.None? && PatchedUpTo(st.nodes, N, members, i, cluster)
    ensures var st' := PatchStep(st, members[i], conflicts, cluster);
      st'.err.None? && PatchedUpTo(st'.nodes, N, members, i + 1, cluster)
  {
    var m := members[i];
    SplitAtEnd(members, i);
    ApplyClusterSettingsIdempotent(N[m], cluster);
    assert PatchStep(st, m, conflicts, cluster) == st.(nodes := st.nodes[m := ApplyClusterSettings(N[m], cluster)]);
  }

  /** Up to the stop, the loop has patched every member it met, without error. */
  lemma {:induction false} PatchedPrefix(N: map<string, Register>, members: seq<string>, conflicts: set<string>, cluster: Cluster, i: nat)
    requires i <= |members|
    requires forall j :: 0 <= j < i ==> !PatchHalts(members[j], N, conflicts, cluster)
    ensures var st := Patched(N, members[..i], conflicts, cluster);
      st.err.None? && PatchedUpTo(st.nodes, N, members, i, cluster)
  {
    if i == 0 {
      assert members[..0] == [];
    } else {
      PatchedPrefix(N, members, conflicts, cluster, i - 1);
      PatchedPrefixStep(N, members, conflicts, cluster, i - 1);
    }
  }

  lemma PatchedPrefixStep(N: map<string, Register>, members: seq<string>, conflicts: set<string>, cluster: Cluster, i: nat)
    requires i < |members| && !PatchHalts(members[i], N, conflicts, cluster)
    requires Patched(N, members[..i], conflicts, cluster).err.None?
    requires PatchedUpTo(Patched(N, members[..i], conflicts, cluster).nodes, N, members, i, cluster)
    ensures var st := Patched(N, members[..i + 1], conflicts, cluster);
      st.err.None? && PatchedUpTo(st.nodes, N, members, i + 1, cluster)
  {
    PatchedSnoc(N, members, conflicts, cluster, i);
    PatchStepKeeps(Patched(N, members[..i], conflicts, cluster), N, members, conflicts, cluster, i);
  }


  /** What the PatchNodes loop leaves behind: every member before the stop
      patched, the rest as they were, and the error of the member it stops at. */
  lemma PatchedResult(N: map<string, Register>, members: seq<string>, conflicts: set<string>, cluster: Cluster)
    ensures var k := PatchEnd(members, N, conflicts, cluster);
      var st := Patched(N, members, conflicts, cluster);
      && PatchedUpTo(st.nodes, N, members, k, cluster)
      && (st.err.None? <==> k == |members|)
      && (k < |members| ==>
            st.err == Some(if members[k] !in N then Store(NotFound)
                           else if OwnedElsewhere(N[members[k]], cluster) then OwnedError(N[members[k]])
                           else Store(Conflict)))
  {
    var k := PatchEnd(members, N, conflicts, cluster);
    PatchedPrefix(N, members, conflicts, cluster, k);
    if k == |members| {
      assert members[..k] == members;
    } else {
      var m := members[k];
      if m in members[..k] {
        PatchedBefore(members, N, conflicts, cluster, k, m);
      }
      PatchedSnoc(N, members, conflicts, cluster, k);
      PatchedSettled(N, members, conflicts, cluster, k + 1);
    }
  }

  /** PatchNodes ends without error exactly when no member stops it. */
  lemma PatchedSucceedsIff(N: map<string, Register>, members: seq<string>, conflicts: set<string>, cluster: Cluster)
    ensures Patched(N, members, conflicts, cluster).err.None? <==> PatchEnd(members, N, conflicts, cluster) == |members|
  {
    PatchedResult(N, members, conflicts, cluster);
  }

  // ---------------------------------------------------------------------
  // ReconcileNodes
  // ---------------------------------------------------------------------

  /** The members ReconcileNodes keeps: the recorded ones still found by
      IdentifyNodes, in their recorded order. */
  function KeptMembers(current: seq<string>, identified: seq<string>): (r: seq<string>)
    ensures forall n :: n in r <==> n in current && n in identified
    ensures Subseq(r, current)
  {
    Minus(current, Minus(current, identified))
  }

  /** IdentifyNodes leaves the recorded members out of what it returns, so
      ReconcileNodes finds every recorded member missing and keeps none. */
  lemma ReconcileNodesKeepsNoMember(current: seq<string>, listed: seq<string>)
    ensures KeptMembers(current, Minus(listed, current)) == []
  {
    var identified := Minus(listed, current);
    MinusDisjoint(current, identified);
    MinusCovered(current, current);
  }

  /** removeElement. */
  method RemoveElement(input: seq<string>, value: string) returns (out: seq<string>)
    ensures out == Without(input, value)
  {
    out := [];
    for i := 0 to |input|
      invariant out == Without(input[..i], value)
    {
      if input[i] != value {
        out := out + [input[i]];
      }
      SplitAtEnd(input, i);
      WithoutSnoc(input[..i], input[i], value);
    }
    assert input[..|input|] == input;
  }

  /** The first loop of ReconcileNodes: whether some identified member is
      not recorded yet. */
  method HasAdditional(identified: seq<string>, current: seq<string>) returns (additional: bool)
    ensures additional <==> exists n :: n in identified && n !in current
  {
    additional := false;
    for i := 0 to |identified|
      invariant additional <==> exists j :: 0 <= j < i && identified[j] !in current
    {
      var known := RegisterController.ContainsString(current, identified[i]);
      if !known {
        additional := true;
      }
    }
  }

  /** The second loop of ReconcileNodes: the recorded members that were not
      identified again, in their recorded order. */
  method MissingMembers(current: seq<string>, identified: seq<string>) returns (missing: bool, missingMembers: seq<string>)
    ensures missingMembers == Minus(current, identified)
    ensures missing <==> exists n :: n in current && n !in identified
  {
    missing := false;
    missingMembers := [];
    for i := 0 to |current|
      invariant missingMembers == Minus(current[..i], identified)
      invariant missing <==> missingMembers != []
    {
      var found := RegisterController.ContainsString(identified, current[i]);
      SplitAtEnd(current, i);
      MinusSnoc(current[..i], current[i], identified);
      if !found {
        missing := true;
        missingMembers := missingMembers + [current[i]];
      }
    }
    assert current[..|current|] == current;
    if missingMembers != [] {
      assert missingMembers[0] in current && missingMembers[0] !in identified;
    }
  }

  /** The third loop of ReconcileNodes: removeElement for each missing member. */
  method RemoveMembers(current: seq<string>, missingMembers: seq<string>) returns (members: seq<string>)
    ensures members == Minus(current, missingMembers)
  {
    members := current;
    MinusDisjoint(current, []);
    for i := 0 to |missingMembers|
      invariant members == Minus(current, missingMembers[..i])
    {
      members := RemoveElement(members, missingMembers[i]);
      SplitAtEnd(missingMembers, i);
      MinusExtend(current, missingMembers[..i], missingMembers[i]);
    }
    assert missingMembers[..|missingMembers|] == missingMembers;
  }

  /** The outcome of ReconcileNodes for the Cluster `cl`: `identified` is
      what IdentifyNodes finds, `C` the stored clusters before and
      `clusters` after, `conflict` whether the write of `cl` conflicts. */
  ghost predicate NodesReconciled(cl: Cluster, identified: (ClusterStatus, Option<Error>), C: map<string, Cluster>,
                                  conflict: bool, err: Option<Error>, clusters: map<string, Cluster>)
  {
    var current := cl.status.members;
    var found := identified.0.members;
    var additional := exists n :: n in found && n !in current;
    var missing := exists n :: n in current && n !in found;
    var written := cl.(status := cl.status.(
      members := KeptMembers(current, found),
      status := if additional then "" else cl.status.status));
    && (identified.1.Some? ==> err == identified.1 && clusters == C)
    && (identified.1.None? && !additional && !missing ==> err.None? && clusters == C)
    && (identified.1.None? && (additional || missing) ==>
          && err == (if conflict then Some(Store(Conflict)) else if cl.meta.name !in C then Some(Store(NotFound)) else None)
          && clusters == if err.None? then C[cl.meta.name := written] else C)
  }

  /** `clusters` with the Cluster `cl` written back with `status`, unless the write conflicts. */
  function WrittenBack(clusters: map<string, Cluster>, cl: Cluster, status: ClusterStatus, conflict: bool): map<string, Cluster>
  {
    if conflict then clusters else clusters[cl.meta.name := cl.(status := status)]
  }

  /** What one Reconcile of the existing, live Cluster `cl` does, by phase:
      `identified` is what IdentifyNodes finds, `N` and `C` the stored nodes
      and clusters before, `nodes` and `clusters` after, `conflict` whether
      the write-back of `cl` conflicts, and `nominee` the candidate an
      election picks. */
  ghost predicate PhaseOutcome(
    cl: Cluster, identified: (ClusterStatus, Option<Error>),
    N: map<string, Register>, C: map<string, Cluster>, nodeConflicts: set<string>, conflict: bool, nominee: string,
    requeue: bool, err: Option<Error>, nodes: map<string, Register>, clusters: map<string, Cluster>)
  {
    var phase := cl.status.status;
    var members := cl.status.members;
    var writeErr := if conflict then Some(Store(Conflict)) else None;
    // The error of the phase step: none when the step succeeded and the status was written back.
    var stepErr := if requeue then None else err;
    && (phase !in {ElectLeaderPhase, PatchNodesPhase} ==> nodes == N)
    // Every other phase, the one PatchNodes writes included, is written back as it is, forever.
    && (phase !in {"", ElectLeaderPhase, PatchNodesPhase, NodesubmittedPhase} ==>
          requeue && err == writeErr && clusters == WrittenBack(C, cl, cl.status, conflict))
    && (phase == "" ==>
          && (identified.1.Some? ==> !requeue && err == identified.1 && clusters == C)
          && (identified.1.None? ==> requeue && err == writeErr && clusters == WrittenBack(C, cl, identified.0, conflict)))
    && (phase == ElectLeaderPhase ==>
          var sc := Scan(N, members, nodeConflicts);
          && (requeue <==> ScanElects(sc, nodeConflicts))
          && Elected(sc, nodeConflicts, cl.meta.name, nominee, nodes, stepErr)
          && (!requeue ==> err.Some? && clusters == C)
          && (requeue ==> err == writeErr && clusters == WrittenBack(C, cl, cl.status.(status := PatchNodesPhase), conflict)))
    && (phase == PatchNodesPhase ==>
          var pt := Patched(N, members, nodeConflicts, cl);
          && (requeue <==> pt.err.None?)
          && nodes == pt.nodes
          && (!requeue ==> err == pt.err && clusters == C)
          && (requeue ==> err == writeErr && clusters == WrittenBack(C, cl, cl.status.(status := NodeSubmittedWritten), conflict)))
    && (phase == NodesubmittedPhase ==>
          !requeue && NodesReconciled(cl, identified, C, conflict, err, clusters))
  }

  // ---------------------------------------------------------------------
  // The reconciler
  // ---------------------------------------------------------------------

  class ClusterReconciler {
    const client: Client

    constructor (client: Client)
      ensures this.client == client
    {
      this.client := client;
    }

    /** IdentifyNodes: lists the nodes labelled with the cluster's name and
        records those not yet members. */
    method IdentifyNodes(cluster: Cluster) returns (status: ClusterStatus, err: Option<Error>)
      requires client.Valid()
      ensures (status, err) == Identified(client, cluster)
    {
      status := cluster.status;
      if !SelectorParses(cluster.meta.name) {
        return status, Some(SelectorError);
      }
      var list := client.ListNodes(ClusterNameLabel, cluster.meta.name);
      if list.Err? {
        if list.error == NotFound {
          return status, None;
        }
        return status, Some(Store(list.error));
      }
      var items := list.value;
      ghost var names := Names(items);
      var memberList: seq<string> := [];
      for i := 0 to |items|
        invariant memberList == Minus(names[..i], status.members)
      {
        var recorded := RegisterController.ContainsString(status.members, items[i].meta.name);
        if !recorded {
          memberList := memberList + [items[i].meta.name];
        }
        SplitAtEnd(names, i);
        MinusSnoc(names[..i], names[i], status.members);
      }
      assert names[..|items|] == names;
      status := status.(members := memberList, status := ElectLeaderPhase);
      if |memberList| == 0 {
        status := status.(status := NodesubmittedPhase);
      }
      return status, None;
    }

    /** The body of the ElectLeader loop for the member `name`: once a
        leader is known nothing happens; before, a valid leader is taken, a
        stale leader label is removed, a candidate is collected. */
    method VisitMember(name: string, known: Option<Register>, possible: map<string, Register>)
      returns (leaderNode: Option<Register>, possible': map<string, Register>, err: Option<Error>)
      requires client.Valid()
      modifies client`nodes, client`order
      ensures client.Valid() && client.order == old(client.order)
      ensures ScanStep(ScanState(old(client.nodes), known, possible, None), name, client.nodeConflicts)
           == ScanState(client.nodes, leaderNode, possible', err)
    {
      leaderNode, possible', err := known, possible, None;
      if known.Some? {
        return;
      }
      if name !in client.nodes {
        return None, possible, Some(Store(NotFound));
      }
      var node := client.nodes[name];
      var leader := LeaderLabel in node.meta.labels && node.meta.labels[LeaderLabel] == "true";
      if leader && node.spec.address != "" {
        leaderNode := Some(node);
      }
      if leader && node.spec.address == "" {
        var unset := client.UpdateNode(Unlabel(node));
        if unset.Some? {
          return None, possible, Some(Wrapped(StaleLeaderContext, Store(unset.value)));
        }
      }
      if leaderNode.None? && node.spec.address != "" {
        possible' := possible[name := node];
      }
    }

    /** The member loop of ElectLeader: scans the members until it meets a
        valid leader, removing stale leader labels on the way and collecting
        the candidates. */
    method ScanMembers(members: seq<string>) returns (leaderNode: Option<Register>, possible: map<string, Register>, err: Option<Error>)
      requires client.Valid()
      modifies client`nodes, client`order
      ensures client.Valid() && client.order == old(client.order)
      ensures Scan(old(client.nodes), members, client.nodeConflicts) == ScanState(client.nodes, leaderNode, possible, err)
    {
      ghost var N := client.nodes;
      ghost var conflicts := client.nodeConflicts;
      leaderNode, possible := None, map[];
      for i := 0 to |members|
        invariant client.Valid() && client.order == old(client.order)
        invariant Scan(N, members[..i], conflicts) == ScanState(client.nodes, leaderNode, possible, None)
      {
        ScanSnoc(N, members, conflicts, i);
        ghost var before := ScanState(client.nodes, leaderNode, possible, None);
        var e;
        leaderNode, possible, e := VisitMember(members[i], leaderNode, possible);
        if e.Some? {
          ScanStops(N, members, conflicts, i, before);
          return leaderNode, possible, e;
        }
      }
      assert members[..|members|] == members;
      return leaderNode, possible, None;
    }

    /** The end of ElectLeader, after the member loop: without a leader, a
        candidate is picked and labelled leader; the leader is written back;
        without a leader at the start the pass still fails. */
    method AppointLeader(leaderNode: Option<Register>, possible: map<string, Register>, clusterName: string)
      returns (err: Option<Error>, ghost nominee: string)
      requires client.Valid()
      requires leaderNode.Some? ==> var l := leaderNode.value; l.meta.name in client.nodes && client.nodes[l.meta.name] == l
      requires forall m :: m in possible ==> m in client.nodes && possible[m].meta.name == m && !Released(possible[m].meta)
      modifies client`nodes, client`order
      ensures client.Valid() && client.order == old(client.order)
      ensures Elected(ScanState(old(client.nodes), leaderNode, possible, None), client.nodeConflicts,
                      clusterName, nominee, client.nodes, err)
    {
      if leaderNode.Some? {
        var updated := client.UpdateNode(leaderNode.value);
        return (if updated.Some? then Some(Store(updated.value)) else None), "";
      }
      if |possible| == 0 {
        assert possible.Keys == {};
        return Some(NoLeaderError(clusterName)), "";
      }
      err, nominee := Nominate(possible, clusterName);
    }

    /** The nomination of ElectLeader: some candidate is labelled leader. */
    method Nominate(possible: map<string, Register>, clusterName: string) returns (err: Option<Error>, ghost nominee: string)
      requires client.Valid() && possible != map[]
      requires forall m :: m in possible ==> m in client.nodes && possible[m].meta.name == m && !Released(possible[m].meta)
      modifies client`nodes, client`order
      ensures client.Valid() && client.order == old(client.order)
      ensures nominee in possible
      ensures nominee in client.nodeConflicts ==> client.nodes == old(client.nodes) && err == Some(Store(Conflict))
      ensures nominee !in client.nodeConflicts ==>
        client.nodes == old(client.nodes)[nominee := Promote(possible[nominee])] && err == Some(NoLeaderError(clusterName))
    {
      assert possible.Keys != {};
      var candidate :| candidate in possible;
      var updated := client.UpdateNode(Promote(possible[candidate]));
      return (if updated.Some? then Some(Store(updated.value)) else Some(NoLeaderError(clusterName))), candidate;
    }

    /** ElectLeader: without a valid leader among the members, one
        candidate is labelled leader, and the pass still reports that no
        leader was found. */
    method ElectLeader(cluster: Cluster) returns (status: ClusterStatus, err: Option<Error>, ghost nominee: string)
      requires client.Valid()
      modifies client`nodes, client`order
      ensures client.Valid() && client.order == old(client.order)
      ensures status == (if err.None? then cluster.status.(status := PatchNodesPhase) else cluster.status)
      ensures Elected(Scan(old(client.nodes), cluster.status.members, client.nodeConflicts), client.nodeConflicts,
                      cluster.meta.name, nominee, client.nodes, err)
    {
      var members := cluster.status.members;
      ghost var conflicts := client.nodeConflicts;
      ghost var sc := Scan(client.nodes, members, conflicts);
      ScanStoresByName(client.nodes, members, client.nodeConflicts);
      var leaderNode, possible, scanErr := ScanMembers(members);
      assert sc == ScanState(client.nodes, leaderNode, possible, scanErr);
      if scanErr.Some? {
        assert client.nodeConflicts == conflicts && sc.nodes == client.nodes;
        ElectedOnScanError(sc, conflicts, cluster.meta.name);
        return cluster.status, scanErr, "";
      }
      ghost var mid := client.nodes;
      err, nominee := AppointLeader(leaderNode, possible, cluster.meta.name);
      assert sc == ScanState(mid, leaderNode, possible, None) && client.nodeConflicts == conflicts;
      status := if err.None? then cluster.status.(status := PatchNodesPhase) else cluster.status;
    }

    /** The body of the PatchNodes loop for the member `name`: fetch it,
        refuse it when another cluster controls it, write it patched. */
    method PatchMember(name: string, cluster: Cluster) returns (err: Option<Error>)
      requires client.Valid()
      modifies client`nodes, client`order
      ensures client.Valid() && client.order == old(client.order)
      ensures PatchStep(PatchState(old(client.nodes), None), name, client.nodeConflicts, cluster) == PatchState(client.nodes, err)
    {
      if name !in client.nodes {
        return Some(Store(NotFound));
      }
      var node := client.nodes[name];
      if node.meta.owner.Some? && node.meta.owner.value != cluster.meta.name {
        return Some(OwnedError(node));
      }
      var updated := client.UpdateNode(ApplyClusterSettings(node, cluster));
      return if updated.Some? then Some(Store(updated.value)) else None;
    }

    /** PatchNodes: copies the cluster settings onto every member in turn,
        stopping at the first failure. */
    method PatchNodes(cluster: Cluster) returns (status: ClusterStatus, err: Option<Error>)
      requires client.Valid()
      modifies client`nodes, client`order
      ensures client.Valid() && client.order == old(client.order)
      ensures Patched(old(client.nodes), cluster.status.members, client.nodeConflicts, cluster) == PatchState(client.nodes, err)
      ensures status == if err.None? then cluster.status.(status := NodeSubmittedWritten) else cluster.status
    {
      var members := cluster.status.members;
      ghost var N := client.nodes;
      ghost var conflicts := client.nodeConflicts;
      status := cluster.status;
      for i := 0 to |members|
        invariant client.Valid() && client.order == old(client.order)
        invariant Patched(N, members[..i], conflicts, cluster) == PatchState(client.nodes, None)
      {
        PatchedSnoc(N, members, conflicts, cluster, i);
        var e := PatchMember(members[i], cluster);
        if e.Some? {
          PatchedSettled(N, members, conflicts, cluster, i + 1);
          return status, e;
        }
      }
      assert members[..|members|] == members;
      return status.(status := NodeSubmittedWritten), None;
    }

    /** ReconcileNodes: re-identifies the members and writes the cluster back
        when some are new or missing; it never asks to be requeued. */
    method ReconcileNodes(cluster: Cluster) returns (err: Option<Error>)
      requires client.Valid()
      modifies client`clusters
      ensures client.Valid()
      ensures NodesReconciled(cluster, old(Identified(client, cluster)), old(client.clusters),
                              cluster.meta.name in client.clusterConflicts, err, client.clusters)
    {
      var current := cluster.status;
      var newStatus, identifyErr := IdentifyNodes(cluster);
      if identifyErr.Some? {
        return identifyErr;
      }
      var additional := HasAdditional(newStatus.members, current.members);
      var missing, missingMembers := MissingMembers(current.members, newStatus.members);
      var members := RemoveMembers(current.members, missingMembers);
      var kept := current.(members := members);
      if additional {
        kept := kept.(status := "");
      }
      if additional || missing {
        var e := client.UpdateCluster(cluster.(status := kept));
        return if e.Some? then Some(Store(e.value)) else None;
      }
      return None;
    }

    /** The end of Reconcile: a failed step is returned as it is; otherwise
        the new status is written back and the request requeued. */
    method WriteBack(cluster: Cluster, newStatus: ClusterStatus, stepErr: Option<Error>) returns (requeue: bool, err: Option<Error>)
      requires client.Valid() && cluster.meta.name in client.clusters
      modifies client`clusters
      ensures client.Valid()
      ensures stepErr.Some? ==> !requeue && err == stepErr && client.clusters == old(client.clusters)
      ensures stepErr.None? ==>
        var conflict := cluster.meta.name in client.clusterConflicts;
        && requeue && err == (if conflict then Some(Store(Conflict)) else None)
        && client.clusters == WrittenBack(old(client.clusters), cluster, newStatus, conflict)
    {
      if stepErr.Some? {
        return false, stepErr;
      }
      var updated := client.UpdateCluster(cluster.(status := newStatus));
      return true, if updated.Some? then Some(Store(updated.value)) else None;
    }

    /** The ElectLeader phase: the election, then the write-back. */
    method ElectPhase(cluster: Cluster) returns (requeue: bool, err: Option<Error>, ghost nominee: string)
      requires client.Valid() && cluster.meta.name in client.clusters
      requires cluster.status.status == ElectLeaderPhase
      modifies client`nodes, client`order, client`clusters
      ensures client.Valid()
      ensures client.order == old(client.order)
      ensures PhaseOutcome(cluster, old(Identified(client, cluster)), old(client.nodes), old(client.clusters),
                           client.nodeConflicts, cluster.meta.name in client.clusterConflicts, nominee,
                           requeue, err, client.nodes, client.clusters)
    {
      var newStatus, stepErr;
      newStatus, stepErr, nominee := ElectLeader(cluster);
      requeue, err := WriteBack(cluster, newStatus, stepErr);
    }

    /** The PatchNodes phase: the patch loop, then the write-back. */
    method PatchPhase(cluster: Cluster) returns (requeue: bool, err: Option<Error>)
      requires client.Valid() && cluster.meta.name in client.clusters
      requires cluster.status.status == PatchNodesPhase
      modifies client`nodes, client`order, client`clusters
      ensures client.Valid()
      ensures client.order == old(client.order)
      ensures PhaseOutcome(cluster, old(Identified(client, cluster)), old(client.nodes), old(client.clusters),
                           client.nodeConflicts, cluster.meta.name in client.clusterConflicts, "",
                           requeue, err, client.nodes, client.clusters)
    {
      var newStatus, stepErr := PatchNodes(cluster);
      requeue, err := WriteBack(cluster, newStatus, stepErr);
    }

    /** The phase dispatch of Reconcile for a Cluster that exists and is not
        being deleted: run the step of its phase, then write the new status
        back and ask to be requeued. */
    method ReconcilePhase(cluster: Cluster) returns (requeue: bool, err: Option<Error>, ghost nominee: string)
      requires client.Valid() && cluster.meta.name in client.clusters
      modifies client`nodes, client`order, client`clusters
      ensures client.Valid()
      ensures client.order == old(client.order)
      ensures PhaseOutcome(cluster, old(Identified(client, cluster)), old(client.nodes), old(client.clusters),
                           client.nodeConflicts, cluster.meta.name in client.clusterConflicts, nominee,
                           requeue, err, client.nodes, client.clusters)
    {
      var phase := cluster.status.status;
      nominee := "";
      if phase == "" {
        var newStatus, stepErr := IdentifyNodes(cluster);
        requeue, err := WriteBack(cluster, newStatus, stepErr);
      } else if phase == ElectLeaderPhase {
        requeue, err, nominee := ElectPhase(cluster);
      } else if phase == PatchNodesPhase {
        requeue, err := PatchPhase(cluster);
      } else if phase == NodesubmittedPhase {
        requeue := false;
        err := ReconcileNodes(cluster);
      } else {
        requeue, err := WriteBack(cluster, cluster.status, None);
      }
    }

    /** Reconcile of the Cluster named `name`. */
    method Reconcile(name: string) returns (requeue: bool, err: Option<Error>, ghost nominee: string)
      requires client.Valid()
      modifies client`nodes, client`order, client`clusters
      ensures client.Valid()
      ensures client.order == old(client.order)
      // Inside a Harvester cluster, or when the CRDs cannot be listed, nothing happens.
      ensures client.crdListFails ==>
        !requeue && err == Some(Wrapped("error listing CRD's", Store(Unavailable)))
        && client.nodes == old(client.nodes) && client.clusters == old(client.clusters)
      ensures !client.crdListFails && SettingsCrd in client.crds ==>
        !requeue && err.None? && client.nodes == old(client.nodes) && client.clusters == old(client.clusters)
      // A Cluster that is gone or being deleted is left alone.
      ensures !client.crdListFails && SettingsCrd !in client.crds
              && (name !in old(client.clusters) || old(client.clusters[name]).meta.deleting) ==>
        !requeue && err.None? && client.nodes == old(client.nodes) && client.clusters == old(client.clusters)
      ensures !client.crdListFails && SettingsCrd !in client.crds
              && name in old(client.clusters) && !old(client.clusters[name]).meta.deleting ==>
        var cl := old(client.clusters[name]);
        PhaseOutcome(cl, old(Identified(client, cl)), old(client.nodes), old(client.clusters),
                     client.nodeConflicts, name in client.clusterConflicts, nominee,
                     requeue, err, client.nodes, client.clusters)
    {
      var inHarvester := DoesSettingExist(client);
      if inHarvester.Err? {
        return false, Some(inHarvester.error), "";
      }
      if inHarvester.value {
        return false, None, "";
      }
      if name !in client.clusters {
        return false, None, "";
      }
      var cluster := client.clusters[name];
      if cluster.meta.deleting {
        return false, None, "";
      }
      requeue, err, nominee := ReconcilePhase(cluster);
    }
  }
}
