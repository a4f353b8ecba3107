/** Validation of the multi-tunnel configuration
    (internal/tunnelconfig/config.go). */
module TunnelConfig {
  import opened Bytes

  datatype Relay = Relay(addr: string, priority: int)

  /** The `type`, `mode` and `protocol` texts of a tunnel, absent and unknown values
      included.  Validation refuses an unknown type or mode; an unknown protocol
      stays in tunnels that do not forward and keeps its text. */
  datatype Kind = Forward | Socks | Pty | Exec | NoKind | OtherKind
  datatype Mode = Server | Client | NoMode | OtherMode
  datatype Protocol = Tcp | Udp | OtherProtocol(text: string)

  datatype Tunnel = Tunnel(
    name: string, kind: Kind, mode: Mode, logicalPort: nat, protocol: Protocol,
    target: string, listen: string, peer: string, exec: string,
    tokenFile: string, allowUnauthenticated: bool)

  datatype Config = Config(relays: seq<Relay>, upstreamSocks: string, tunnels: seq<Tunnel>)

  /** The text helpers of Go's standard library that validation calls: whether a
      string is blank after trimming, net.SplitHostPort and strconv.Atoi. */
  datatype Text = Text(
    blank: string -> bool,
    splitHostPort: string -> Option<(string, string)>,
    atoi: string -> Option<int>)

  datatype TunnelError =
    | TypeRequired | UnknownType | ModeRequired | UnknownMode | PortRequired | ServerOnly | PeerRequired
    | BadProtocol | TargetRequired | BadTarget | BadTargetPort | ListenRequired | BadListen | BadListenPort
    | ExecRequired | TokenRequired

  datatype ConfigError =
    | NoTunnels | BadUpstream | RelayAddrRequired(index: nat)
    | BadTunnel(index: nat, reason: TunnelError) | NameRequired(index: nat)
    | DuplicateName(index: nat, previous: nat) | DuplicatePort(index: nat, owner: string)

  predicate ValidPort(text: Text, s: string)
  {
    var value := text.atoi(s);
    value.Some? && 1 <= value.value <= 65535
  }

  predicate Endpoint(text: Text, s: string)
  {
    !text.blank(s) && text.splitHostPort(s).Some? && ValidPort(text, text.splitHostPort(s).value.1)
  }

  /** What a tunnel must satisfy on its own. */
  predicate TunnelOk(text: Text, t: Tunnel)
  {
    && !t.kind.NoKind? && !t.kind.OtherKind?
    && (t.mode.Server? || t.mode.Client?)
    && t.logicalPort != 0
    && (t.mode.Client? ==> t.kind.Forward? && !text.blank(t.peer))
    && (t.kind.Forward? ==>
          && !t.protocol.OtherProtocol?
          && Endpoint(text, if t.mode.Server? then t.target else t.listen))
    && (t.kind.Exec? ==> !text.blank(t.exec))
    && (t.mode.Server? && !t.kind.Forward? ==> t.allowUnauthenticated || !text.blank(t.tokenFile))
  }

  function CheckEndpoint(text: Text, s: string, required: TunnelError, bad: TunnelError, badPort: TunnelError)
    : (r: Option<TunnelError>)
    ensures r.None? <==> Endpoint(text, s)
  {
    if text.blank(s) then Some(required)
    else if text.splitHostPort(s).None? then Some(bad)
    else if !ValidPort(text, text.splitHostPort(s).value.1) then Some(badPort)
    else None
  }

  function CheckForward(text: Text, t: Tunnel): (r: Option<TunnelError>)
    ensures r.None? <==>
              !t.protocol.OtherProtocol? && Endpoint(text, if t.mode.Server? then t.target else t.listen)
  {
    if t.protocol.OtherProtocol? then Some(BadProtocol)
    else if t.mode.Server? then CheckEndpoint(text, t.target, TargetRequired, BadTarget, BadTargetPort)
    else CheckEndpoint(text, t.listen, ListenRequired, BadListen, BadListenPort)
  }

  /** Tunnel.validate: it accepts exactly the tunnels that are fine on their own. */
  function CheckTunnel(text: Text, t: Tunnel): (r: Option<TunnelError>)
    ensures r.None? <==> TunnelOk(text, t)
  {
    if t.kind.NoKind? then Some(TypeRequired)
    else if t.kind.OtherKind? then Some(UnknownType)
    else if t.mode.NoMode? then Some(ModeRequired)
    else if t.mode.OtherMode? then Some(UnknownMode)
    else if t.logicalPort == 0 then Some(PortRequired)
    else if t.mode.Client? && (t.kind.Socks? || t.kind.Pty? || t.kind.Exec?) then Some(ServerOnly)
    else if t.mode.Client? && text.blank(t.peer) then Some(PeerRequired)
    else if t.kind.Forward? && CheckForward(text, t).Some? then CheckForward(text, t)
    else if t.kind.Exec? && text.blank(t.exec) then Some(ExecRequired)
    else if t.mode.Server? && !t.kind.Forward? && !t.allowUnauthenticated && text.blank(t.tokenFile)
    then Some(TokenRequired)
    else None
  }

  /** The defect an error speaks of. */
  predicate Defect(text: Text, t: Tunnel, e: TunnelError)
  {
    match e
    case TypeRequired => t.kind.NoKind?
    case UnknownType => t.kind.OtherKind?
    case ModeRequired => t.mode.NoMode?
    case UnknownMode => t.mode.OtherMode?
    case PortRequired => t.logicalPort == 0
    case ServerOnly => t.mode.Client? && !t.kind.Forward?
    case PeerRequired => t.mode.Client? && text.blank(t.peer)
    case BadProtocol => t.kind.Forward? && t.protocol.OtherProtocol?
    case TargetRequired => t.kind.Forward? && t.mode.Server? && text.blank(t.target)
    case BadTarget => t.kind.Forward? && t.mode.Server? && text.splitHostPort(t.target).None?
    case BadTargetPort =>
      t.kind.Forward? && t.mode.Server? && text.splitHostPort(t.target).Some? && !Endpoint(text, t.target)
    case ListenRequired => t.kind.Forward? && t.mode.Client? && text.blank(t.listen)
    case BadListen => t.kind.Forward? && t.mode.Client? && text.splitHostPort(t.listen).None?
    case BadListenPort =>
      t.kind.Forward? && t.mode.Client? && text.splitHostPort(t.listen).Some? && !Endpoint(text, t.listen)
    case ExecRequired => t.kind.Exec? && text.blank(t.exec)
    case TokenRequired => t.mode.Server? && !t.kind.Forward? && !t.allowUnauthenticated && text.blank(t.tokenFile)
  }

  /** The error of a refused tunnel speaks of a defect the tunnel has. */
  lemma {:induction false} ErrorsAreReal(text: Text, t: Tunnel)
    ensures CheckTunnel(text, t).Some? ==> Defect(text, t, CheckTunnel(text, t).value)
  {
  }

  predicate Clash(t: Tunnel, u: Tunnel)
  {
    t.name == u.name || (t.mode.Server? && u.mode.Server? && t.logicalPort == u.logicalPort)
  }

  /** The first `n` tunnels are fine together: each on its own, with distinct names
      and, among the servers, distinct logical ports. */
  predicate FirstOk(text: Text, ts: seq<Tunnel>, n: nat)
    requires n <= |ts|
  {
    && (forall i | 0 <= i < n :: TunnelOk(text, ts[i]) && ts[i].name != "")
    && (forall i, j | 0 <= i < j < n :: !Clash(ts[i], ts[j]))
  }

  predicate TunnelsOk(text: Text, ts: seq<Tunnel>) { FirstOk(text, ts, |ts|) }

  predicate RelaysOk(text: Text, relays: seq<Relay>)
  {
    forall i | 0 <= i < |relays| :: !text.blank(relays[i].addr)
  }

  predicate ConfigOk(text: Text, c: Config)
  {
    && c.tunnels != []
    && (c.upstreamSocks == "" || text.splitHostPort(c.upstreamSocks).Some?)
    && RelaysOk(text, c.relays)
    && TunnelsOk(text, c.tunnels)
  }

  /** Config.Validate: no error exactly for a good configuration, and a tunnel
      error names the first tunnel that spoils the list. */
  method Validate(text: Text, c: Config) returns (err: Option<ConfigError>)
    ensures err.None? <==> ConfigOk(text, c)
    ensures err.Some? && (err.value.BadTunnel? || err.value.NameRequired? || err.value.DuplicateName? ||
                          err.value.DuplicatePort?) ==>
              && err.value.index < |c.tunnels|
              && FirstOk(text, c.tunnels, err.value.index)
              && !FirstOk(text, c.tunnels, err.value.index + 1)
    ensures err.Some? && err.value.DuplicateName? ==>
              err.value.previous < err.value.index < |c.tunnels| &&
              c.tunnels[err.value.previous].name == c.tunnels[err.value.index].name
    ensures err.Some? && err.value.BadTunnel? ==>
              err.value.index < |c.tunnels| && Defect(text, c.tunnels[err.value.index], err.value.reason)
    ensures err == Some(NoTunnels) <==> c.tunnels == []
    ensures err == Some(BadUpstream) <==>
              c.tunnels != [] && c.upstreamSocks != "" && text.splitHostPort(c.upstreamSocks).None?
    ensures err.Some? && err.value.RelayAddrRequired? ==>
              err.value.index < |c.relays| && text.blank(c.relays[err.value.index].addr)
  {
    if |c.tunnels| == 0 {
      return Some(NoTunnels);
    }
    if c.upstreamSocks != "" {
      if text.splitHostPort(c.upstreamSocks).None? {
        return Some(BadUpstream);
      }
    }
    for i := 0 to |c.relays|
      invariant RelaysOk(text, c.relays[..i])
    {
      if text.blank(c.relays[i].addr) {
        return Some(RelayAddrRequired(i));
      }
    }
    assert c.relays[..|c.relays|] == c.relays;
    err := CheckAll(text, c.tunnels);
  }

  /** The loop over the tunnels, with its `names` and `serverPorts` maps. */
  method CheckAll(text: Text, ts: seq<Tunnel>) returns (err: Option<ConfigError>)
    ensures err.None? <==> TunnelsOk(text, ts)
    ensures err.Some? ==>
              && (err.value.BadTunnel? || err.value.NameRequired? || err.value.DuplicateName? ||
                  err.value.DuplicatePort?)
              && err.value.index < |ts|
              && FirstOk(text, ts, err.value.index)
              && !FirstOk(text, ts, err.value.index + 1)
    ensures err.Some? && err.value.DuplicateName? ==>
              err.value.previous < err.value.index && ts[err.value.previous].name == ts[err.value.index].name
    ensures err.Some? && err.value.BadTunnel? ==> Defect(text, ts[err.value.index], err.value.reason)
    ensures err.Some? && err.value.NameRequired? ==> ts[err.value.index].name == ""
  {
    var names: map<string, nat> := map[];
    var serverPorts: map<nat, nat> := map[];
    for i := 0 to |ts|
      invariant FirstOk(text, ts, i) && Indexed(ts, i, names, serverPorts)
    {
      var bad := CheckTunnel(text, ts[i]);
      if bad.Some? {
        ErrorsAreReal(text, ts[i]);
        return Some(BadTunnel(i, bad.value));
      }
      if ts[i].name == "" {
        return Some(NameRequired(i));
      }
      err, names, serverPorts := Register(text, ts, i, names, serverPorts);
      if err.Some? {
        return;
      }
    }
    return None;
  }

  /** Enters tunnel `i` in both maps, or reports the tunnel it clashes with. */
  method Register(ghost text: Text, ts: seq<Tunnel>, i: nat, names: map<string, nat>, serverPorts: map<nat, nat>)
    returns (err: Option<ConfigError>, names': map<string, nat>, serverPorts': map<nat, nat>)
    requires i < |ts| && FirstOk(text, ts, i) && Indexed(ts, i, names, serverPorts)
    requires TunnelOk(text, ts[i]) && ts[i].name != ""
    ensures err.None? ==> FirstOk(text, ts, i + 1) && Indexed(ts, i + 1, names', serverPorts')
    ensures err.Some? ==> !FirstOk(text, ts, i + 1) && (err.value.DuplicateName? || err.value.DuplicatePort?) &&
                          err.value.index == i
    ensures err.Some? && err.value.DuplicateName? ==>
              err.value.previous < i && ts[err.value.previous].name == ts[i].name
  {
    var t := ts[i];
    IndexedClash(ts, i, names, serverPorts);
    names', serverPorts' := names, serverPorts;
    if t.name in names {
      return Some(DuplicateName(i, names[t.name])), names, serverPorts;
    }
    names' := names[t.name := i];
    if t.mode.Server? {
      if t.logicalPort in serverPorts {
        return Some(DuplicatePort(i, ts[serverPorts[t.logicalPort]].name)), names, serverPorts;
      }
      serverPorts' := serverPorts[t.logicalPort := i];
    }
    assert FirstOk(text, ts, i + 1);
    IndexedStep(ts, i, names, serverPorts);
    err := None;
  }

  lemma IndexedStep(ts: seq<Tunnel>, i: nat, names: map<string, nat>, serverPorts: map<nat, nat>)
    requires i < |ts| && Indexed(ts, i, names, serverPorts)
    ensures Indexed(ts, i + 1, names[ts[i].name := i],
                    if ts[i].mode.Server? then serverPorts[ts[i].logicalPort := i] else serverPorts)
  {
  }

  /** Tunnel `i` clashes with an earlier one exactly when a map knows its name or
      its port. */
  lemma {:induction false} IndexedClash(ts: seq<Tunnel>, i: nat, names: map<string, nat>, serverPorts: map<nat, nat>)
    requires i < |ts| && Indexed(ts, i, names, serverPorts)
    ensures (forall k | 0 <= k < i :: !Clash(ts[k], ts[i])) <==>
            ts[i].name !in names && (ts[i].mode.Server? ==> ts[i].logicalPort !in serverPorts)
  {
  }

  /** `names` and `serverPorts` index the first `n` tunnels. */
  predicate Indexed(ts: seq<Tunnel>, n: nat, names: map<string, nat>, serverPorts: map<nat, nat>)
    requires n <= |ts|
  {
    && (forall s | s in names :: names[s] < n && ts[names[s]].name == s)
    && (forall p | p in serverPorts ::
          serverPorts[p] < n && ts[serverPorts[p]].mode.Server? && ts[serverPorts[p]].logicalPort == p)
    && (forall k | 0 <= k < n :: ts[k].name in names && (ts[k].mode.Server? ==> ts[k].logicalPort in serverPorts))
  }
}
