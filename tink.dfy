/** The hardware record pushed to the provisioning service for one node
    (pkg/tink/client.go): its DHCP and netboot entries and the metadata
    document whose user-data tells the installer where to fetch its
    configuration. */
module Tink {
  import opened Common
  import opened Api

  datatype Osie = Osie(baseUrl: string)
  datatype Netboot = Netboot(allowPxe: bool, osie: Option<Osie>)
  datatype DhcpIp = DhcpIp(address: string, gateway: string, netmask: string)
  datatype Dhcp = Dhcp(mac: string, ip: DhcpIp, hostname: string)
  datatype NetworkInterface = NetworkInterface(dhcp: Dhcp, netboot: Netboot)
  datatype Hardware = Hardware(id: string, interfaces: seq<NetworkInterface>, metadata: string)

  const MetaDataPrefix := "{\"facility\":{\"facility_code\":\"onprem\"},\"instance\":{\"userdata\":\""
  const UserDataKey := "harvester.install.config_url=http://"
  const ConfigPath := ":" + DefaultConfigURLPort + "/config/"
  const MetaDataSuffix := "\" ,\"operating_system\":{\"slug\":\"harvester_0_2_0\"}}}"

  /** generateMetaData: the metadata template with the server host, the
      config port and the node's UUID filled in. */
  function GenerateMetaData(reg: Register, host: string): string
  {
    MetaDataPrefix + UserDataKey + host + ConfigPath + reg.status.uuid + MetaDataSuffix
  }

  /** Reads host and UUID back out of a metadata document. */
  function ParseMetaData(m: string): Option<(string, string)>
  {
    var lead := MetaDataPrefix + UserDataKey;
    if |m| < |lead| + |MetaDataSuffix| || m[..|lead|] != lead || m[|m| - |MetaDataSuffix|..] != MetaDataSuffix then None
    else
      var body := m[|lead|..|m| - |MetaDataSuffix|];
      var host := Split(body, ':')[0];
      SplitHead(body, ':');
      var tail := body[|host|..];
      if |tail| < |ConfigPath| || tail[..|ConfigPath|] != ConfigPath then None
      else Some((host, tail[|ConfigPath|..]))
  }

  /** The metadata document carries the host and the UUID recoverably, so the
      callback URL names exactly this node's UUID on this host. */
  lemma MetaDataRoundTrip(reg: Register, host: string)
    requires ':' !in host
    ensures ParseMetaData(GenerateMetaData(reg, host)) == Some((host, reg.status.uuid))
  {
    var lead := MetaDataPrefix + UserDataKey;
    var uuid := reg.status.uuid;
    var rest := ConfigPath[1..] + uuid;
    var body := host + (ConfigPath + uuid);
    assert GenerateMetaData(reg, host) == lead + body + MetaDataSuffix;
    Framed(lead, body, MetaDataSuffix);
    assert ConfigPath == [':'] + ConfigPath[1..];
    assert body == host + [':'] + rest;
    SplitConcat(host, rest, ':');
    SplitPlain(host, ':');
    assert Split(body, ':')[0] == host;
  }

  /** The three parts of a concatenation can be cut back out of it. */
  lemma Framed(a: string, b: string, c: string)
    ensures var m := a + b + c;
      && |m| == |a| + |b| + |c|
      && m[..|a|] == a && m[|m| - |c|..] == c && m[|a|..|m| - |c|] == b
  {
  }

  /** GenerateHWRequest.  `host` is the host part of the server URL as
      net/url parses it, or None when the parse fails. */
  function GenerateHWRequest(reg: Register, host: Option<string>): (r: Result<Hardware, Error>)
    ensures host.None? <==> r.Err?
    ensures host.None? ==> r == Err(Wrapped("error parsing server url", Failure("invalid server url")))
    ensures r.Ok? ==>
      var hw := r.value;
      && hw.id == reg.status.uuid
      && |hw.interfaces| == 1
      && var nic := hw.interfaces[0];
      && nic.netboot.allowPxe
      && (nic.netboot.osie.Some? <==> reg.spec.pxeIsoURL != "")
      && (nic.netboot.osie.Some? ==> nic.netboot.osie.value.baseUrl == reg.spec.pxeIsoURL)
      && nic.dhcp.mac == reg.spec.macAddress
      && nic.dhcp.hostname == reg.meta.name
      && var fixedIp := reg.spec.address != "" && reg.spec.gateway != "" && reg.spec.netmask != "";
      && (fixedIp ==> nic.dhcp.ip == DhcpIp(reg.spec.address, reg.spec.gateway, reg.spec.netmask))
      && (!fixedIp ==> nic.dhcp.ip == DhcpIp("", "", ""))
    ensures r.Ok? ==>
      var h := Split(host.value, ':')[0];
      && ':' !in h && h <= host.value
      && (|h| < |host.value| ==> host.value[|h|] == ':')
      && ParseMetaData(r.value.metadata) == Some((h, reg.status.uuid))
  {
    var netboot := Netboot(true, if |reg.spec.pxeIsoURL| != 0 then Some(Osie(reg.spec.pxeIsoURL)) else None);
    var ip :=
      if |reg.spec.address| != 0 && |reg.spec.gateway| != 0 && |reg.spec.netmask| != 0
      then DhcpIp(reg.spec.address, reg.spec.gateway, reg.spec.netmask)
      else DhcpIp("", "", "");
    var nic := NetworkInterface(Dhcp(reg.spec.macAddress, ip, reg.meta.name), netboot);
    match host
    case None => Err(Wrapped("error parsing server url", Failure("invalid server url")))
    case Some(h) =>
      var hostName := Split(h, ':')[0];
      SplitHead(h, ':');
      MetaDataRoundTrip(reg, hostName);
      Ok(Hardware(reg.status.uuid, [nic], GenerateMetaData(reg, hostName)))
  }
}
