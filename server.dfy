/** The config endpoint `GET /config/{uuid}` (pkg/http/server.go): it finds
    the node carrying the requested UUID label and answers with the
    installer configuration assembled from that node's spec, or with an
    information or error envelope. */
module ConfigServer {
  import opened Common
  import opened Api
  import opened Util

  datatype NetworkInterface = NetworkInterface(name: string, hwAddr: string)

  datatype Network = Network(interfaces: seq<NetworkInterface>, defaultRoute: bool, addressing: string)

  datatype OS = OS(
    sshAuthorizedKeys: seq<string>,
    hostname: string,
    modules: seq<string>,
    sysctls: map<string, string>,
    ntpServers: seq<string>,
    dnsNameservers: seq<string>,
    wifi: seq<Wifi>,
    password: string,
    environment: map<string, string>)

  datatype Install = Install(
    automatic: bool,
    mode: string,
    networks: map<string, Network>,
    device: string,
    isoURL: string)

  datatype HarvesterConfig = HarvesterConfig(serverURL: string, token: string, os: OS, install: Install)

  /** What the handler writes: an envelope with its HTTP code, the
      configuration document, or nothing because the handler panicked. */
  datatype Response =
    | Reply(code: int, body: HTTPMessage)
    | Served(config: HarvesterConfig)
    | Aborted

  const ManagementNetwork := "harvester-mgmt"

  /** The `os` section, assigned field by field as the handler does,
      including the interim write of the NTP servers into the DNS field. */
  function AssembleOS(node: Register): (os: OS)
    ensures os.hostname == node.meta.name
    ensures os.password == if node.spec.password != "" then node.spec.password else node.meta.name
    ensures os.sshAuthorizedKeys == node.spec.sshAuthorizedKeys
    ensures os.ntpServers == node.spec.ntpServers
    ensures os.dnsNameservers == node.spec.dnsNameservers
    ensures os.environment == node.spec.environment
    ensures os.modules == [] && os.sysctls == map[] && os.wifi == []
  {
    var spec := node.spec;
    var os0 := OS([], node.meta.name, [], map[], [], [], [], "", map[]);
    var os1 := if |spec.sshAuthorizedKeys| != 0 then os0.(sshAuthorizedKeys := spec.sshAuthorizedKeys) else os0;
    var os2 := os1.(password := if |spec.password| != 0 then spec.password else node.meta.name);
    var os3 := if |spec.ntpServers| != 0 then os2.(ntpServers := spec.ntpServers) else os2;
    var os4 := if |spec.dnsNameservers| != 0 then os3.(dnsNameservers := spec.ntpServers) else os3;
    var os5 := if |spec.environment| != 0 then os4.(environment := spec.environment) else os4;
    var os6 := if |spec.ntpServers| != 0 then os5.(ntpServers := spec.ntpServers) else os5;
    var os7 := if |spec.dnsNameservers| != 0 then os6.(dnsNameservers := spec.dnsNameservers) else os6;
    assert |spec.environment| == 0 ==> spec.environment.Keys == {};
    os7
  }

  /** The management network: DHCP on the node's interface and MAC address;
      its static address fields are never filled in. */
  function AssembleNetwork(node: Register): (n: Network)
    ensures n.interfaces == [NetworkInterface(node.spec.interface, node.spec.macAddress)]
    ensures n.addressing == "dhcp" && n.defaultRoute
  {
    Network([NetworkInterface(node.spec.interface, node.spec.macAddress)], true, "dhcp")
  }

  function ReleaseISO(version: string): string
  {
    "https://releases.rancher.com/harvester/" + version + "/harvester-" + version + "-amd64.iso"
  }

  /** The `install` section. */
  function AssembleInstall(node: Register, version: string): (i: Install)
    ensures i.device == if node.spec.disk != "" then node.spec.disk else "/dev/sda"
    ensures i.mode == "join" && i.automatic
    ensures i.networks == map[ManagementNetwork := AssembleNetwork(node)]
    ensures i.isoURL == if node.spec.pxeIsoURL != "" then node.spec.pxeIsoURL else ReleaseISO(version)
  {
    var disk := if |node.spec.disk| != 0 then node.spec.disk else "/dev/sda";
    var install := Install(true, "join", map[ManagementNetwork := AssembleNetwork(node)], disk, "");
    if |node.spec.pxeIsoURL| != 0 then install.(isoURL := node.spec.pxeIsoURL)
    else install.(isoURL := ReleaseISO(version))
  }

  /** The ServerURL rewrite: scheme replaced by `https`, the last segment by
      8443; the slice it takes needs at least two `:`-separated segments. */
  function ConfigServerURL(serverURL: string): string
    requires |Split(serverURL, ':')| >= 2
  {
    var arr := Split(serverURL, ':');
    Join(["https"] + arr[1..|arr| - 1], ':') + ":8443"
  }

  /** The rewrite keeps everything between the scheme and the last `:`. */
  lemma ConfigServerURLRewrites(scheme: string, rest: string, port: string)
    requires ':' !in scheme && ':' !in port
    ensures |Split(scheme + ":" + rest + ":" + port, ':')| >= 2
    ensures ConfigServerURL(scheme + ":" + rest + ":" + port) == "https:" + rest + ":8443"
  {
    var url := scheme + ":" + rest + ":" + port;
    SplitsAround(scheme, rest, port);
    var inner := Split(rest, ':');
    ConfigServerURLKeepsMiddle(url, scheme, inner, port);
    JoinAfterScheme(inner);
    JoinSplit(rest, ':');
    assert "https:" == "https" + [':'];
  }

  lemma JoinAfterScheme(inner: seq<string>)
    requires |inner| >= 1
    ensures Join(["https"] + inner, ':') == "https" + [':'] + Join(inner, ':')
  {
    assert (["https"] + inner)[1..] == inner;
  }

  lemma ConfigServerURLKeepsMiddle(url: string, first: string, middle: seq<string>, last: string)
    requires Split(url, ':') == [first] + middle + [last]
    ensures ConfigServerURL(url) == Join(["https"] + middle, ':') + ":8443"
  {
    var arr := Split(url, ':');
    assert arr[1..|arr| - 1] == middle;
  }

  lemma SplitsAround(scheme: string, rest: string, port: string)
    requires ':' !in scheme && ':' !in port
    ensures Split(scheme + ":" + rest + ":" + port, ':') == [scheme] + Split(rest, ':') + [port]
  {
    var tail := rest + [':'] + port;
    assert scheme + ":" + rest + ":" + port == scheme + [':'] + tail;
    SplitConcat(scheme, tail, ':');
    SplitConcat(rest, port, ':');
    SplitPlain(scheme, ':');
    SplitPlain(port, ':');
  }

  /** A URL from the multi-cluster lookup, `https://<address>:6443`, is
      served as `https://<address>:8443`. */
  lemma ConfigServerURLOfLeader(address: string)
    ensures |Split("https://" + address + ":6443", ':')| >= 2
    ensures ConfigServerURL("https://" + address + ":6443") == "https://" + address + ":8443"
  {
    assert "https://" + address + ":6443" == "https" + ":" + ("//" + address) + ":" + "6443";
    ConfigServerURLRewrites("https", "//" + address, "6443");
  }

  /** getConfig. `uuid` is the route variable, `listed` the outcome of the
      List by `uuid=<uuid>`, `serverURL` that of FetchServerURL and
      `version` that of the Harvester version lookup. */
  function GetConfig(
    uuid: Option<string>,
    listed: Result<seq<Register>, ApiError>,
    serverURL: Result<string, Error>,
    version: Result<string, Error>): (r: Response)
    ensures uuid.None? ==> r == Reply(500, ReturnHTTPMessage(500, "error", "no config uuid passed in"))
    ensures uuid.Some? && listed == Err(NotFound) ==> r == Reply(404, ReturnHTTPMessage(404, "error", "no config found"))
    ensures uuid.Some? && listed.Err? && listed.error != NotFound ==>
      r == Reply(500, ReturnHTTPMessage(500, "error", "internal error"))
    ensures uuid.Some? && listed.Ok? && |listed.value| != 1 ==>
      r == Reply(500, ReturnHTTPMessage(500, "error", "object lookup error"))
    ensures uuid.Some? && listed.Ok? && |listed.value| == 1 && NodeReadyLabel in listed.value[0].meta.labels ==>
      r == Reply(200, ReturnHTTPMessage(200, "info", "node already processed"))
    ensures uuid.Some? && listed.Ok? && |listed.value| == 1 && NodeReadyLabel !in listed.value[0].meta.labels
            && serverURL.Err? ==>
      r == Reply(500, ReturnHTTPMessage(500, "error", "server-url fetch error"))
    ensures uuid.Some? && listed.Ok? && |listed.value| == 1 && NodeReadyLabel !in listed.value[0].meta.labels
            && serverURL.Ok? && version.Err? ==>
      r == Reply(500, ReturnHTTPMessage(500, "error", "harvester version fetch error"))
    ensures uuid.Some? && listed.Ok? && |listed.value| == 1 && NodeReadyLabel !in listed.value[0].meta.labels
            && serverURL.Ok? && version.Ok? && |Split(serverURL.value, ':')| >= 2 ==>
      r.Served?
    ensures r.Served? ==>
      && uuid.Some? && listed.Ok? && |listed.value| == 1
      && var node := listed.value[0];
      && NodeReadyLabel !in node.meta.labels
      && serverURL.Ok? && version.Ok? && |Split(serverURL.value, ':')| >= 2
      && r.config.serverURL == ConfigServerURL(serverURL.value)
      && r.config.token == node.spec.token
      && r.config.os == AssembleOS(node)
      && r.config.install == AssembleInstall(node, version.value)
    ensures r.Aborted? <==>
      uuid.Some? && listed.Ok? && |listed.value| == 1 && NodeReadyLabel !in listed.value[0].meta.labels
      && serverURL.Ok? && version.Ok? && |Split(serverURL.value, ':')| < 2
  {
    if uuid.None? then Reply(500, ReturnHTTPMessage(500, "error", "no config uuid passed in"))
    else if listed.Err? then
      if listed.error == NotFound then Reply(404, ReturnHTTPMessage(404, "error", "no config found"))
      else Reply(500, ReturnHTTPMessage(500, "error", "internal error"))
    else if |listed.value| != 1 then Reply(500, ReturnHTTPMessage(500, "error", "object lookup error"))
    else
      var node := listed.value[0];
      if NodeReadyLabel in node.meta.labels then Reply(200, ReturnHTTPMessage(200, "info", "node already processed"))
      else if serverURL.Err? then Reply(500, ReturnHTTPMessage(500, "error", "server-url fetch error"))
      else
        var os := AssembleOS(node);
        if version.Err? then Reply(500, ReturnHTTPMessage(500, "error", "harvester version fetch error"))
        else
          var install := AssembleInstall(node, version.value);
          if |Split(serverURL.value, ':')| < 2 then Aborted
          else Served(HarvesterConfig(ConfigServerURL(serverURL.value), node.spec.token, os, install))
  }

  /** The handler panics exactly when the server URL holds no `:` at all. */
  lemma GetConfigAbortsWithoutColon(
    uuid: Option<string>,
    listed: Result<seq<Register>, ApiError>,
    serverURL: Result<string, Error>,
    version: Result<string, Error>)
    ensures GetConfig(uuid, listed, serverURL, version).Aborted? <==>
      uuid.Some? && listed.Ok? && |listed.value| == 1 && NodeReadyLabel !in listed.value[0].meta.labels
      && serverURL.Ok? && version.Ok? && ':' !in serverURL.value
  {
    if serverURL.Ok? {
      SplitCount(serverURL.value, ':');
    }
  }
}
