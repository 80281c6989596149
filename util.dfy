/** Helpers shared by the reconcilers and the config endpoint
    (pkg/util/util.go): the single-cluster test, the resolution of the URL
    under which the management plane is reached, and the JSON envelope of
    the endpoint's informational and error replies. */
module Util {
  import opened Common
  import opened Api
  import opened Store

  /** The CRD whose presence means the operator runs inside a Harvester cluster. */
  const SettingsCrd := "settings.harvesterhci.io"

  /** DoesSettingExist: scans the installed CRDs for the Harvester settings CRD. */
  method DoesSettingExist(c: Client) returns (r: Result<bool, Error>)
    ensures r.Err? <==> c.crdListFails
    ensures r.Err? ==> r.error == Wrapped("error listing CRD's", Store(Unavailable))
    ensures r.Ok? ==> (r.value <==> SettingsCrd in c.crds)
  {
    if c.crdListFails {
      return Err(Wrapped("error listing CRD's", Store(Unavailable)));
    }
    var ok := false;
    var i := 0;
    while i < |c.crds|
      invariant 0 <= i <= |c.crds|
      invariant ok <==> SettingsCrd in c.crds[..i]
    {
      if c.crds[i] == SettingsCrd {
        ok := true;
      }
      SplitAtEnd(c.crds, i);
      i := i + 1;
    }
    assert c.crds[..i] == c.crds;
    return Ok(ok);
  }

  /** Single-cluster mode: every `:`-separated segment of the setting but the
      last, rejoined, followed by the API port 6443. */
  function RewritePort(value: string): string
  {
    var parts := Split(value, ':');
    Join(parts[..|parts| - 1], ':') + ":6443"
  }

  /** The port rewrite replaces whatever follows the last `:` with 6443 and
      keeps everything before it. */
  lemma RewritePortReplacesPort(head: string, port: string)
    requires ':' !in port
    ensures RewritePort(head + ":" + port) == head + ":6443"
  {
    SplitConcat(head, port, ':');
    SplitPlain(port, ':');
    assert head + ":" + port == head + [':'] + port;
    var parts := Split(head + ":" + port, ':');
    assert parts[..|parts| - 1] == Split(head, ':');
    JoinSplit(head, ':');
  }

  /** A setting without any `:` collapses to the bare port suffix. */
  lemma RewritePortWithoutColon(value: string)
    requires ':' !in value
    ensures RewritePort(value) == ":6443"
  {
    SplitPlain(value, ':');
  }

  predicate IsLeaderLabelled(n: Register) {
    HasLabel(n.meta.labels, LeaderLabel, "true")
  }

  /** What FetchServerURL resolves for `node` against the store `c`. */
  function ServerURLFor(c: Client, node: Register): Result<string, Error>
    reads c
    requires c.Valid()
  {
    if c.crdListFails then Err(Wrapped("error listing CRD's", Store(Unavailable)))
    else if SettingsCrd in c.crds then
      match c.serverUrlSetting
      case None => Err(Wrapped("error fetching server-url", Store(NotFound)))
      case Some(None) => Err(Failure("server-url value is not set"))
      case Some(Some(v)) => Ok(RewritePort(v))
    else if ClusterNameLabel !in node.meta.labels then
      Err(Failure("error querying clusterName label on node"))
    else
      match c.ListNodes(ClusterNameLabel, node.meta.labels[ClusterNameLabel])
      case Err(e) => Err(Wrapped("error fetching cluster member list", Store(e)))
      case Ok(items) => LeaderURL(items)
  }

  /** The URL of the first listed node labelled leader=true. */
  function LeaderURL(items: seq<Register>): Result<string, Error>
  {
    var k := FirstIndex(items, IsLeaderLabelled);
    if k < |items| then Ok("https://" + items[k].spec.address + ":6443")
    else Err(Failure("no leader found in cluster node list"))
  }

  /** Multi-cluster mode: the URL points at the first member of the node's
      cluster, in List order, that carries leader=true, and there is an error
      exactly when no member does. */
  lemma MultiClusterURL(c: Client, node: Register)
    requires c.Valid()
    requires !c.crdListFails && SettingsCrd !in c.crds
    requires ClusterNameLabel in node.meta.labels && c.listFault.None?
    ensures var members := c.Selected(ClusterNameLabel, node.meta.labels[ClusterNameLabel]);
      && (ServerURLFor(c, node).Ok? <==> exists i :: 0 <= i < |members| && IsLeaderLabelled(c.nodes[members[i]]))
      && (ServerURLFor(c, node).Ok? ==>
            exists i :: 0 <= i < |members| && IsLeaderLabelled(c.nodes[members[i]])
              && (forall j :: 0 <= j < i ==> !IsLeaderLabelled(c.nodes[members[j]]))
              && ServerURLFor(c, node).value == "https://" + c.nodes[members[i]].spec.address + ":6443")
  {
    var members := c.Selected(ClusterNameLabel, node.meta.labels[ClusterNameLabel]);
    var items := c.ListNodes(ClusterNameLabel, node.meta.labels[ClusterNameLabel]).value;
    var k := FirstIndex(items, IsLeaderLabelled);
    if k < |items| {
      assert IsLeaderLabelled(c.nodes[members[k]]);
    }
  }

  /** FetchServerURL: single-cluster mode reads the `server-url` setting;
      multi-cluster mode scans the members of the node's cluster for the leader. */
  method FetchServerURL(c: Client, node: Register) returns (r: Result<string, Error>)
    requires c.Valid()
    ensures r == ServerURLFor(c, node)
  {
    var ok := DoesSettingExist(c);
    if ok.Err? {
      return Err(ok.error);
    }
    if ok.value {
      match c.serverUrlSetting
      case None =>
        return Err(Wrapped("error fetching server-url", Store(NotFound)));
      case Some(None) =>
        return Err(Failure("server-url value is not set"));
      case Some(Some(v)) =>
        return Ok(RewritePort(v));
    }
    if ClusterNameLabel !in node.meta.labels {
      return Err(Failure("error querying clusterName label on node"));
    }
    var clusterName := node.meta.labels[ClusterNameLabel];
    var list := c.ListNodes(ClusterNameLabel, clusterName);
    if list.Err? {
      return Err(Wrapped("error fetching cluster member list", Store(list.error)));
    }
    r := FindLeaderURL(list.value);
  }

  /** The member loop of FetchServerURL: the URL of the first node labelled leader. */
  method FindLeaderURL(items: seq<Register>) returns (r: Result<string, Error>)
    ensures r == LeaderURL(items)
  {
    var i := 0;
    while i < |items|
      invariant 0 <= i <= |items|
      invariant forall j :: 0 <= j < i ==> !IsLeaderLabelled(items[j])
    {
      if LeaderLabel in items[i].meta.labels && items[i].meta.labels[LeaderLabel] == "true" {
        assert IsLeaderLabelled(items[i]);
        assert FirstIndex(items, IsLeaderLabelled) == i;
        return Ok("https://" + items[i].spec.address + ":6443");
      }
      i := i + 1;
    }
    return Err(Failure("no leader found in cluster node list"));
  }

  /** The JSON envelope of the config endpoint's information and error replies. */
  datatype HTTPMessage = HTTPMessage(messageType: string, status: string, message: string)

  /** ReturnHTTPMessage, without the response writing: the status field is
      the decimal text of the HTTP code. */
  function ReturnHTTPMessage(httpStatus: int, messageType: string, message: string): (m: HTTPMessage)
    ensures Atoi(m.status) == Some(httpStatus)
    ensures m.messageType == messageType && m.message == message
  {
    AtoiItoa(httpStatus);
    HTTPMessage(messageType, Itoa(httpStatus), message)
  }
}
