/** The gate every connect request passes before anything privileged happens. */
module Authorize {
  import opened Net
  import opened RouteCommands

  datatype AuthProblem = NotOwner | Unreadable

  datatype SecretRef = EnvVar | SecretFile(contents: string, problem: Option<AuthProblem>)

  datatype ProfileKind = Ssh | Shadowsocks | WireGuard

  datatype Profile = Profile(kind: ProfileKind, secretRefs: seq<SecretRef>)

  /** A connect request. Each text that may not parse is what it parses to, if anything. */
  datatype ConnectParams = ConnectParams(
    profile: Option<Profile>,
    routeMode: string,
    cidrs: seq<Option<IpNet>>,
    captureDns: bool,
    tunAddress: Option<IpAddr>
  )

  datatype StartError =
    | BadProfile
    | BadRouteMode
    | BadTunAddress
    | EnvSecretNotAllowed
    | SecretNotPermitted(problem: AuthProblem)
    | TunnelAuth
    | TunnelConfig
    | TunnelOther

  datatype Authorized = Authorized(profile: Profile, mode: RouteMode, tunAddress: IpAddr, secrets: seq<string>)

  datatype Verdict<+T> = Pass(value: T) | Refuse(error: StartError)

  predicate AllParsed(cidrs: seq<Option<IpNet>>) {
    forall c :: c in cidrs ==> c.Some?
  }

  function Parsed(cidrs: seq<Option<IpNet>>): seq<IpNet>
    requires AllParsed(cidrs)
  {
    seq(|cidrs|, i requires 0 <= i < |cidrs| => assert cidrs[i] in cidrs; cidrs[i].value)
  }

  /** The daemon's `parse_route_mode`. A `/0` is the core's error, a `/1` the daemon's own. */
  function ParseRouteMode(routeMode: string, cidrs: seq<Option<IpNet>>, captureDns: bool): (v: Verdict<RouteMode>) {
    if routeMode == "test" then
      if !AllParsed(cidrs) || cidrs == [] then Refuse(BadRouteMode)
      else if exists c :: c in Parsed(cidrs) && c.len == 0 then Refuse(TunnelConfig)
      else if exists c :: c in Parsed(cidrs) && c.len <= 1 then Refuse(BadRouteMode)
      else Pass(RouteMode.Test(Parsed(cidrs), captureDns))
    else if routeMode == "default" then Pass(Default)
    else Refuse(BadRouteMode)
  }

  /**
   * Test mode is let through exactly with a list of prefixes that all parse, of which there is one and none is of
   * length 0 or 1; and then with those prefixes and the resolver flag as asked.
   */
  lemma TestModePassesExactlyWhen(cidrs: seq<Option<IpNet>>, captureDns: bool)
    ensures var v := ParseRouteMode("test", cidrs, captureDns);
            && (v.Pass? <==> cidrs != [] && forall c :: c in cidrs ==> c.Some? && c.value.len > 1)
            && (v.Pass? ==>
                  && v.value.Test? && v.value.captureDns == captureDns && |v.value.cidrs| == |cidrs|
                  && forall i :: 0 <= i < |cidrs| ==> cidrs[i] == Some(v.value.cidrs[i]))
            && (v == Refuse(TunnelConfig) <==> AllParsed(cidrs) && Some(0) in Lengths(cidrs))
            && (v.Refuse? ==> v.error.TunnelConfig? || v.error.BadRouteMode?)
  {
    if AllParsed(cidrs) {
      ParsedAre(cidrs);
    }
  }

  /** The prefixes of a list that parses, one for each text, in order. */
  lemma ParsedAre(cidrs: seq<Option<IpNet>>)
    requires AllParsed(cidrs)
    ensures var nets := Parsed(cidrs);
            && |nets| == |cidrs| && (forall i :: 0 <= i < |cidrs| ==> cidrs[i] == Some(nets[i]))
            && (forall n :: n in nets <==> Some(n) in cidrs)
            && forall l :: Some(l) in Lengths(cidrs) <==> exists n :: n in nets && n.len == l
  {
    var nets := Parsed(cidrs);
    forall i | 0 <= i < |cidrs|
      ensures cidrs[i] == Some(nets[i]) && Lengths(cidrs)[i] == Some(nets[i].len)
    {
      assert cidrs[i] in cidrs;
    }
    forall n | Some(n) in cidrs
      ensures n in nets
    {
      var i :| 0 <= i < |cidrs| && cidrs[i] == Some(n);
      assert nets[i] == n;
    }
    forall n | n in nets
      ensures Some(n) in cidrs && Some(n.len) in Lengths(cidrs)
    {
      var i :| 0 <= i < |nets| && nets[i] == n;
      assert cidrs[i] == Some(n) && Lengths(cidrs)[i] == Some(n.len);
    }
    forall l | Some(l) in Lengths(cidrs)
      ensures exists n :: n in nets && n.len == l
    {
      var i :| 0 <= i < |cidrs| && Lengths(cidrs)[i] == Some(l);
      assert nets[i] in nets;
    }
  }

  function Lengths(cidrs: seq<Option<IpNet>>): seq<Option<nat>> {
    seq(|cidrs|, i requires 0 <= i < |cidrs| => if cidrs[i].Some? then Some(cidrs[i].value.len) else None)
  }

  /** Default mode asks for no prefixes and looks at none; and there is no third mode. */
  lemma OtherModes(routeMode: string, cidrs: seq<Option<IpNet>>, captureDns: bool)
    requires routeMode != "test"
    ensures ParseRouteMode(routeMode, cidrs, captureDns) ==
            if routeMode == "default" then Pass(RouteMode.Default) else Refuse(BadRouteMode)
  {
  }

  /** Everything but the secrets. */
  predicate ShapeOk(p: ConnectParams) {
    && p.profile.Some?
    && !p.profile.value.kind.WireGuard?
    && ParseRouteMode(p.routeMode, p.cidrs, p.captureDns).Pass?
    && p.tunAddress.Some?
  }

  predicate SecretOk(r: SecretRef) {
    r.SecretFile? && r.problem.None?
  }

  /** Why a secret may not be used. */
  function SecretError(r: SecretRef): StartError
    requires !SecretOk(r)
  {
    match r
    case EnvVar => EnvSecretNotAllowed
    case SecretFile(_, problem) => SecretNotPermitted(problem.value)
  }

  /** The contents of the secrets, or the complaint about the first that may not be used. */
  function ReadSecrets(refs: seq<SecretRef>): Verdict<seq<string>> {
    if refs == [] then Pass([])
    else if !SecretOk(refs[0]) then Refuse(SecretError(refs[0]))
    else
      match ReadSecrets(refs[1..])
      case Refuse(e) => Refuse(e)
      case Pass(rest) => Pass([refs[0].contents] + rest)
  }

  /** What becomes of a request, before anything privileged. */
  function Gate(p: ConnectParams): Verdict<Authorized> {
    if p.profile.None? || p.profile.value.kind.WireGuard? then Refuse(BadProfile)
    else
      match ParseRouteMode(p.routeMode, p.cidrs, p.captureDns)
      case Refuse(e) => Refuse(e)
      case Pass(mode) =>
        if p.tunAddress.None? then Refuse(BadTunAddress)
        else
          match ReadSecrets(p.profile.value.secretRefs)
          case Refuse(e) => Refuse(e)
          case Pass(secrets) => Pass(Authorized(p.profile.value, mode, p.tunAddress.value, secrets))
  }

  /** The gate opens exactly for a well-shaped request all of whose secrets are the caller's, and lets those through. */
  lemma GatePassesExactlyWhen(p: ConnectParams)
    ensures Gate(p).Pass? <==> ShapeOk(p) && forall r :: r in p.profile.value.secretRefs ==> SecretOk(r)
    ensures Gate(p).Pass? ==>
              var a := Gate(p).value;
              && a.profile == p.profile.value
              && a.tunAddress == p.tunAddress.value
              && ParseRouteMode(p.routeMode, p.cidrs, p.captureDns) == Pass(a.mode)
              && |a.secrets| == |p.profile.value.secretRefs|
              && forall i :: 0 <= i < |a.secrets| ==> p.profile.value.secretRefs[i] == SecretFile(a.secrets[i], None)
  {
    if ShapeOk(p) {
      SecretsReadExactlyWhen(p.profile.value.secretRefs);
    }
  }

  lemma {:induction false} SecretsReadExactlyWhen(refs: seq<SecretRef>)
    ensures ReadSecrets(refs).Pass? <==> forall r :: r in refs ==> SecretOk(r)
    ensures ReadSecrets(refs).Pass? ==>
              var secrets := ReadSecrets(refs).value;
              |secrets| == |refs| && forall i :: 0 <= i < |refs| ==> refs[i] == SecretFile(secrets[i], None)
  {
    if refs != [] {
      SecretsReadExactlyWhen(refs[1..]);
    }
  }

  /** A request refused for a secret is refused for the first bad one. */
  lemma {:induction false} FirstBadSecretIsNamed(refs: seq<SecretRef>, i: nat)
    requires i < |refs| && !SecretOk(refs[i])
    requires forall j :: 0 <= j < i ==> SecretOk(refs[j])
    ensures ReadSecrets(refs) == Refuse(SecretError(refs[i]))
  {
    if i > 0 {
      FirstBadSecretIsNamed(refs[1..], i - 1);
    }
  }

  /** Reads each secret under the gate, in order; the first that is not the caller's to use refuses the request. */
  method AuthorizeParams(p: ConnectParams) returns (v: Verdict<Authorized>)
    ensures v == Gate(p)
    ensures v.Refuse? && ShapeOk(p) ==> exists i ::
              && 0 <= i < |p.profile.value.secretRefs|
              && (forall j :: 0 <= j < i ==> SecretOk(p.profile.value.secretRefs[j]))
              && !SecretOk(p.profile.value.secretRefs[i])
              && v.error == SecretError(p.profile.value.secretRefs[i])
  {
    if p.profile.None? {
      return Refuse(BadProfile);
    }
    var profile := p.profile.value;
    if profile.kind.WireGuard? {
      return Refuse(BadProfile);
    }
    var mode := ParseRouteMode(p.routeMode, p.cidrs, p.captureDns);
    if mode.Refuse? {
      return Refuse(mode.error);
    }
    if p.tunAddress.None? {
      return Refuse(BadTunAddress);
    }
    var refs := profile.secretRefs;
    var secrets: seq<string> := [];
    for i := 0 to |refs|
      invariant |secrets| == i
      invariant forall j :: 0 <= j < i ==> refs[j] == SecretFile(secrets[j], None)
    {
      match refs[i] {
        case EnvVar =>
          FirstBadSecretIsNamed(refs, i);
          return Refuse(EnvSecretNotAllowed);
        case SecretFile(contents, problem) =>
          if problem.Some? {
            FirstBadSecretIsNamed(refs, i);
            return Refuse(SecretNotPermitted(problem.value));
          }
          secrets := secrets + [contents];
      }
    }
    SecretsReadExactlyWhen(refs);
    assert ReadSecrets(refs).value == secrets;
    return Pass(Authorized(profile, mode.value, p.tunAddress.value, secrets));
  }

  lemma FourQuarters()
    ensures Pow2(Width(V4)) == 4 * Pow2(30) == Pow2(32)
  {
    Fourfold(30);
  }

  lemma Fourfold(n: nat)
    ensures Pow2(n + 2) == 4 * Pow2(n)
  {
    assert Pow2(n + 2) == 2 * Pow2(n + 1);
  }

  /** The `q`-th quarter of the IPv4 address space. */
  function Quarter(q: nat): IpNet
    requires q < 4
  {
    FourQuarters();
    hide Pow2;
    Net(Addr(V4, q * Pow2(30)), 2)
  }

  lemma QuarterHolds(a: IpAddr, q: nat)
    requires a.family.V4?
    requires q == a.bits / Pow2(30)
    ensures q < 4 && Contains(Network(Quarter(q)), a)
  {
    hide Pow2;
    FourQuarters();
    FirstTwoBits(a.bits, Pow2(30));
  }

  lemma FirstTwoBits(bits: nat, unit: nat)
    requires unit >= 1 && bits < 4 * unit
    ensures bits / unit < 4
    ensures (bits / unit) * unit / unit == bits / unit
  {
    var q, r := bits / unit, bits % unit;
    assert bits == q * unit + r;
    if q >= 4 {
      Multiplies(q, 4, unit);
      assert false;
    }
    if q == 0 {
      assert q * unit == 0;
    } else if q == 1 {
      assert q * unit == unit;
    } else if q == 2 {
      assert q * unit == 2 * unit;
    } else {
      assert q * unit == 3 * unit;
    }
  }

  lemma Multiplies(q: nat, n: nat, unit: nat)
    requires q >= n
    ensures q * unit >= n * unit
  {
  }

  /** The gate turns away halves, not quarters: four prefixes it accepts hold every IPv4 address, the server's too. */
  lemma GateAcceptsTheWholeAddressSpace(a: IpAddr)
    requires a.family.V4?
    ensures var cidrs := seq(4, i requires 0 <= i < 4 => Some(Quarter(i)));
            && ParseRouteMode("test", cidrs, false).Pass?
            && Covered(ParseRouteMode("test", cidrs, false).value.cidrs, a)
  {
    var cidrs: seq<Option<IpNet>> := seq(4, i requires 0 <= i < 4 => Some(Quarter(i)));
    var nets := Parsed(cidrs);
    var q := a.bits / Pow2(30);
    QuarterHolds(a, q);
    assert nets[q] == Quarter(q);
    assert forall c :: c in nets ==> c.len == 2;
  }
}
