/** The two external collaborators of the reconcilers, as in-memory state:
    the resource store (Get, List by label, Update of Register and Cluster
    objects, the list of installed CRDs and the `server-url` setting) and
    the hardware registrar (ByID, Push, Delete of hardware records).  Each
    also holds the failures its environment reports, so that every error
    branch of the controllers can be reached. */
module Store {
  import opened Common
  import opened Api
  import Tink

  /** The names in `names` whose Register carries the label `key=value`, in order. */
  function Select(names: seq<string>, nodes: map<string, Register>, key: string, value: string): (r: seq<string>)
    requires forall i :: 0 <= i < |names| ==> names[i] in nodes
    ensures forall n :: n in r <==> n in names && HasLabel(nodes[n].meta.labels, key, value)
    ensures Subseq(r, names)
    ensures NoDup(names) ==> NoDup(r)
  {
    if names == [] then []
    else
      var rest := Select(names[1..], nodes, key, value);
      if HasLabel(nodes[names[0]].meta.labels, key, value) then
        assert NoDup(names) ==> names[0] !in rest;
        [names[0]] + rest
      else rest
  }

  /** The objects stored under `names`, in order. */
  function ItemsOf(names: seq<string>, nodes: map<string, Register>): (r: seq<Register>)
    requires forall i :: 0 <= i < |names| ==> names[i] in nodes
    ensures |r| == |names|
    ensures forall i :: 0 <= i < |names| ==> r[i] == nodes[names[i]]
  {
    if names == [] then [] else [nodes[names[0]]] + ItemsOf(names[1..], nodes)
  }

  /** The names of listed objects, in order. */
  function Names(items: seq<Register>): (r: seq<string>)
    ensures |r| == |items|
    ensures forall i :: 0 <= i < |items| ==> r[i] == items[i].meta.name
  {
    if items == [] then [] else [items[0].meta.name] + Names(items[1..])
  }

  /** The resource store of the operator's API server. */
  class Client {
    /** Register objects by name. */
    var nodes: map<string, Register>
    /** The order in which List returns Register objects. */
    var order: seq<string>
    /** Cluster objects by name. */
    var clusters: map<string, Cluster>
    /** Names of the installed custom resource definitions. */
    var crds: seq<string>
    /** The `server-url` Setting: None when absent, Some(None) when it has no value. */
    var serverUrlSetting: Option<Option<string>>

    // Failures the API server reports.
    var crdListFails: bool
    var listFault: Option<ApiError>
    var nodeConflicts: set<string>
    var clusterConflicts: set<string>

    ghost predicate Valid()
      reads this
    {
      && NoDup(order)
      && (forall n :: n in order <==> n in nodes)
      && (forall n :: n in nodes ==> nodes[n].meta.name == n && !Released(nodes[n].meta))
      && (forall n :: n in clusters ==> clusters[n].meta.name == n)
    }

    constructor ()
      ensures Valid()
      ensures nodes == map[] && order == [] && clusters == map[] && crds == []
      ensures serverUrlSetting.None? && !crdListFails && listFault.None?
      ensures nodeConflicts == {} && clusterConflicts == {}
    {
      nodes, order, clusters, crds := map[], [], map[], [];
      serverUrlSetting := None;
      crdListFails, listFault := false, None;
      nodeConflicts, clusterConflicts := {}, {};
    }

    /** Names of the Register objects labelled `key=value`, in List order. */
    function Selected(key: string, value: string): (r: seq<string>)
      reads this
      requires Valid()
      ensures forall n :: n in r <==> n in nodes && HasLabel(nodes[n].meta.labels, key, value)
      ensures NoDup(r)
    {
      Select(order, nodes, key, value)
    }

    /** List of Register objects with a label selector `key=value`. */
    function ListNodes(key: string, value: string): (r: Result<seq<Register>, ApiError>)
      reads this
      requires Valid()
      ensures r.Err? <==> listFault.Some?
      ensures r.Ok? ==> Names(r.value) == Selected(key, value)
      ensures r.Ok? ==> forall i :: 0 <= i < |r.value| ==> r.value[i] == nodes[Selected(key, value)[i]]
    {
      if listFault.Some? then Err(listFault.value)
      else
        var items := ItemsOf(Selected(key, value), nodes);
        assert Names(items) == Selected(key, value);
        Ok(items)
    }

    /** Update of a Register object: fails on a version conflict or when the
        object is gone; an object being deleted whose last finalizer is
        removed leaves the store. */
    method UpdateNode(n: Register) returns (err: Option<ApiError>)
      requires Valid()
      modifies this`nodes, this`order
      ensures Valid()
      ensures err == (if n.meta.name in nodeConflicts then Some(Conflict)
                      else if n.meta.name !in old(nodes) then Some(NotFound) else None)
      ensures err.Some? ==> nodes == old(nodes) && order == old(order)
      ensures err.None? && Released(n.meta) ==>
        nodes == old(nodes) - {n.meta.name} && order == Without(old(order), n.meta.name)
      ensures err.None? && !Released(n.meta) ==>
        nodes == old(nodes)[n.meta.name := n] && order == old(order)
    {
      var name := n.meta.name;
      if name in nodeConflicts {
        return Some(Conflict);
      }
      if name !in nodes {
        return Some(NotFound);
      }
      if Released(n.meta) {
        nodes := nodes - {name};
        order := Without(order, name);
      } else {
        nodes := nodes[name := n];
      }
      return None;
    }

    /** Update of a Cluster object. */
    method UpdateCluster(c: Cluster) returns (err: Option<ApiError>)
      requires Valid()
      modifies this`clusters
      ensures Valid()
      ensures err == (if c.meta.name in clusterConflicts then Some(Conflict)
                      else if c.meta.name !in old(clusters) then Some(NotFound) else None)
      ensures clusters == if err.None? then old(clusters)[c.meta.name := c] else old(clusters)
    {
      var name := c.meta.name;
      if name in clusterConflicts {
        return Some(Conflict);
      }
      if name !in clusters {
        return Some(NotFound);
      }
      clusters := clusters[name := c];
      return None;
    }
  }

  /** The text with which the registrar reports a record it does not hold. */
  const NoRows := "sql: no rows in result set"

  /** The remote hardware registrar, keyed by node UUID. */
  class Registrar {
    var records: map<string, Tink.Hardware>
    // Transport failures of the three calls.
    var lookupFault: Option<string>
    var pushFault: Option<string>
    var deleteFault: Option<string>

    constructor ()
      ensures records == map[] && lookupFault.None? && pushFault.None? && deleteFault.None?
    {
      records := map[];
      lookupFault, pushFault, deleteFault := None, None, None;
    }

    function ByID(id: string): (r: Result<Tink.Hardware, string>)
      reads this
      ensures lookupFault.None? ==> (r.Ok? <==> id in records)
      ensures lookupFault.None? && id !in records ==> r == Err(NoRows)
    {
      if lookupFault.Some? then Err(lookupFault.value)
      else if id in records then Ok(records[id])
      else Err(NoRows)
    }

    method Push(hw: Tink.Hardware) returns (err: Option<string>)
      modifies this`records
      ensures err == pushFault
      ensures records == if err.None? then old(records)[hw.id := hw] else old(records)
    {
      if pushFault.Some? {
        return pushFault;
      }
      records := records[hw.id := hw];
      return None;
    }

    method Delete(id: string) returns (err: Option<string>)
      modifies this`records
      ensures err == deleteFault
      ensures records == if err.None? then old(records) - {id} else old(records)
    {
      if deleteFault.Some? {
        return deleteFault;
      }
      records := records - {id};
      return None;
    }
  }
}
