/** How a plan becomes the commands that install it and the commands that undo it. */
module RouteCommands {
  import opened Net

  datatype RouteMode = Test(cidrs: seq<IpNet>, captureDns: bool) | Default

  datatype RoutePlan = RoutePlan(
    interface: string,
    mode: RouteMode,
    serverIp: IpAddr,
    originalGateway: IpAddr,
    dnsServers: seq<IpAddr>,
    ipv6Available: bool
  )

  datatype Platform = Linux | MacOs

  /** `/etc/resolv.conf` and the backup beside it. */
  datatype File = ResolvConf | Backup

  datatype RouteCommand =
    | Add(dest: Prefix, hop: NextHop)
    | Del(dest: Prefix, hop: NextHop)
    | DelAny(dest: Prefix)
    | CopyFile(src: File, dst: File)
    | WriteResolvConf(servers: seq<IpAddr>)
    | SetDnsServers(servers: seq<IpAddr>)

  /** The one error the construction can produce: a `/0` prefix in test mode. */
  datatype Commands = Commands(list: seq<RouteCommand>) | FullDefaultPrefix(cidr: IpNet)

  predicate Rejected(cidrs: seq<IpNet>) {
    exists c :: c in cidrs && c.len == 0
  }

  /** The resolvers that no listed prefix already covers, in order. */
  function NeedingHostRoutes(cidrs: seq<IpNet>, dns: seq<IpAddr>): seq<IpAddr> {
    if dns == [] then []
    else
      (if Covered(cidrs, dns[0]) then [] else [dns[0]]) + NeedingHostRoutes(cidrs, dns[1..])
  }

  predicate Covered(cidrs: seq<IpNet>, a: IpAddr) {
    exists c :: c in cidrs && Contains(Network(c), a)
  }

  /** What test mode routes into the interface. */
  function TestDestinations(plan: RoutePlan): seq<Prefix>
    requires plan.mode.Test?
  {
    Networks(plan.mode.cidrs) +
    (if plan.mode.captureDns then HostRoutes(NeedingHostRoutes(plan.mode.cidrs, plan.dnsServers)) else [])
  }

  function Networks(cidrs: seq<IpNet>): seq<Prefix> {
    seq(|cidrs|, i requires 0 <= i < |cidrs| => Network(cidrs[i]))
  }

  function HostRoutes(dns: seq<IpAddr>): seq<Prefix> {
    seq(|dns|, i requires 0 <= i < |dns| => HostRoute(dns[i]))
  }

  function AddAll(dests: seq<Prefix>, hop: NextHop): seq<RouteCommand> {
    seq(|dests|, i requires 0 <= i < |dests| => Add(dests[i], hop))
  }

  function DelAll(dests: seq<Prefix>, hop: NextHop): seq<RouteCommand> {
    seq(|dests|, i requires 0 <= i < |dests| => Del(dests[i], hop))
  }

  function V4Halves(): seq<Prefix> {
    [Half(V4, 0), Half(V4, 1)]
  }

  function V6Halves(plan: RoutePlan): seq<Prefix> {
    if plan.ipv6Available then [Half(V6, 0), Half(V6, 1)] else []
  }

  function PinAdd(plan: RoutePlan): RouteCommand {
    Add(HostRoute(plan.serverIp), Via(plan.originalGateway))
  }

  /** Linux deletes the pin without naming the gateway; macOS names it. */
  function PinDel(platform: Platform, plan: RoutePlan): RouteCommand {
    match platform
    case Linux => DelAny(HostRoute(plan.serverIp))
    case MacOs => Del(HostRoute(plan.serverIp), Via(plan.originalGateway))
  }

  function DnsApply(platform: Platform, plan: RoutePlan): seq<RouteCommand> {
    match platform
    case Linux => [CopyFile(ResolvConf, Backup), WriteResolvConf(plan.dnsServers)]
    case MacOs => [SetDnsServers(plan.dnsServers)]
  }

  function DnsRevert(platform: Platform): seq<RouteCommand> {
    match platform
    case Linux => [CopyFile(Backup, ResolvConf)]
    case MacOs => [SetDnsServers([])]
  }

  function ApplyList(platform: Platform, plan: RoutePlan): seq<RouteCommand> {
    var tun := Dev(plan.interface);
    match plan.mode
    case Test(_, _) => AddAll(TestDestinations(plan), tun)
    case Default =>
      [PinAdd(plan)] + AddAll(V4Halves() + V6Halves(plan), tun) + DnsApply(platform, plan)
  }

  function RevertList(platform: Platform, plan: RoutePlan): seq<RouteCommand> {
    var tun := Dev(plan.interface);
    match plan.mode
    case Test(_, _) => DelAll(TestDestinations(plan), tun)
    case Default =>
      DelAll(V6Halves(plan) + V4Halves(), tun) + [PinDel(platform, plan)] + DnsRevert(platform)
  }

  predicate PlanRejected(plan: RoutePlan) {
    plan.mode.Test? && Rejected(plan.mode.cidrs)
  }

  /** Scans for a zero-length prefix, the first of which is named in the error. */
  method RejectFullDefaultPrefixes(cidrs: seq<IpNet>) returns (bad: Option<IpNet>)
    ensures bad.Some? <==> Rejected(cidrs)
    ensures bad.Some? ==> bad.value in cidrs && bad.value.len == 0
  {
    for i := 0 to |cidrs|
      invariant forall c :: c in cidrs[..i] ==> c.len != 0
    {
      if cidrs[i].len == 0 {
        return Some(cidrs[i]);
      }
    }
    return None;
  }

  method DnsServersNeedingHostRoutes(cidrs: seq<IpNet>, dns: seq<IpAddr>) returns (r: seq<IpAddr>)
    ensures r == NeedingHostRoutes(cidrs, dns)
  {
    r := [];
    for i := 0 to |dns|
      invariant r + NeedingHostRoutes(cidrs, dns[i..]) == NeedingHostRoutes(cidrs, dns)
    {
      ghost var rest := NeedingHostRoutes(cidrs, dns[i + 1..]);
      assert dns[i..][1..] == dns[i + 1..];
      if Covered(cidrs, dns[i]) {
        assert NeedingHostRoutes(cidrs, dns[i..]) == [] + rest == rest;
      } else {
        assert NeedingHostRoutes(cidrs, dns[i..]) == [dns[i]] + rest;
        assert r + ([dns[i]] + rest) == (r + [dns[i]]) + rest;
        r := r + [dns[i]];
      }
    }
    assert r + [] == r;
  }

  /** The platform's `apply_commands`, one push at a time. */
  method ApplyCommands(platform: Platform, plan: RoutePlan) returns (r: Commands)
    ensures r.FullDefaultPrefix? <==> PlanRejected(plan)
    ensures r.Commands? ==> r.list == ApplyList(platform, plan)
  {
    hide NetOf, NeedingHostRoutes, Rejected, HostRoute, Network;
    var tun := Dev(plan.interface);
    var cmds: seq<RouteCommand> := [];
    match plan.mode
    case Test(cidrs, captureDns) =>
      var bad := RejectFullDefaultPrefixes(cidrs);
      if bad.Some? {
        return FullDefaultPrefix(bad.value);
      }
      for i := 0 to |cidrs|
        invariant cmds == AddAll(Networks(cidrs[..i]), tun)
      {
        cmds := cmds + [Add(Network(cidrs[i]), tun)];
      }
      assert cidrs[..|cidrs|] == cidrs;
      if captureDns {
        var hosts := DnsServersNeedingHostRoutes(cidrs, plan.dnsServers);
        for i := 0 to |hosts|
          invariant cmds == AddAll(Networks(cidrs) + HostRoutes(hosts[..i]), tun)
        {
          cmds := cmds + [Add(HostRoute(hosts[i]), tun)];
        }
        assert hosts[..|hosts|] == hosts;
      }
      return Commands(cmds);
    case Default =>
      cmds := cmds + [PinAdd(plan)];
      cmds := cmds + [Add(Half(V4, 0), tun)];
      cmds := cmds + [Add(Half(V4, 1), tun)];
      if plan.ipv6Available {
        cmds := cmds + [Add(Half(V6, 0), tun)];
        cmds := cmds + [Add(Half(V6, 1), tun)];
      }
      match platform {
        case Linux =>
          cmds := cmds + [CopyFile(ResolvConf, Backup)];
          cmds := cmds + [WriteResolvConf(plan.dnsServers)];
        case MacOs =>
          cmds := cmds + [SetDnsServers(plan.dnsServers)];
      }
      return Commands(cmds);
  }

  /** The platform's `revert_commands`. The pin goes after every half. */
  method RevertCommands(platform: Platform, plan: RoutePlan) returns (r: Commands)
    ensures r.FullDefaultPrefix? <==> PlanRejected(plan)
    ensures r.Commands? ==> r.list == RevertList(platform, plan)
  {
    hide NetOf, NeedingHostRoutes, Rejected, HostRoute, Network;
    var tun := Dev(plan.interface);
    var cmds: seq<RouteCommand> := [];
    match plan.mode
    case Test(cidrs, captureDns) =>
      var bad := RejectFullDefaultPrefixes(cidrs);
      if bad.Some? {
        return FullDefaultPrefix(bad.value);
      }
      for i := 0 to |cidrs|
        invariant cmds == DelAll(Networks(cidrs[..i]), tun)
      {
        cmds := cmds + [Del(Network(cidrs[i]), tun)];
      }
      assert cidrs[..|cidrs|] == cidrs;
      if captureDns {
        var hosts := DnsServersNeedingHostRoutes(cidrs, plan.dnsServers);
        for i := 0 to |hosts|
          invariant cmds == DelAll(Networks(cidrs) + HostRoutes(hosts[..i]), tun)
        {
          cmds := cmds + [Del(HostRoute(hosts[i]), tun)];
        }
        assert hosts[..|hosts|] == hosts;
      }
      return Commands(cmds);
    case Default =>
      if plan.ipv6Available {
        cmds := cmds + [Del(Half(V6, 0), tun)];
        cmds := cmds + [Del(Half(V6, 1), tun)];
      }
      cmds := cmds + [Del(Half(V4, 0), tun)];
      cmds := cmds + [Del(Half(V4, 1), tun)];
      cmds := cmds + [PinDel(platform, plan)];
      match platform {
        case Linux =>
          cmds := cmds + [CopyFile(Backup, ResolvConf)];
        case MacOs =>
          cmds := cmds + [SetDnsServers([])];
      }
      return Commands(cmds);
  }
}
