/** Address resolution, the decision part of `Bus::for_address`: adopting or
    attaching the session guid, turning a Unix sub-mode into a concrete socket
    address (`unix_addr`), refusing `nonce-tcp`, rewriting the advertised
    address and choosing the authentication mechanism. */
module Resolver {
  import opened Wrappers
  import opened Addresses

  /** A value drawn by `fastrand::u32(1_000_000..u32::MAX)`. */
  type DirSuffix = n: nat | 1_000_000 <= n < 0xFFFF_FFFF witness 1_000_000

  /** The socket file synthesised inside a directory hint: `dir/dbus-<n>`. */
  function DirSocketPath(dir: Path, n: DirSuffix): (p: Path)
    ensures |p| >= |dir| && p[..|dir|] == dir
    ensures p == DirPrefix(dir) + "dbus-" + Decimal(n)
  {
    Join(dir, "dbus-" + Decimal(n))
  }

  /** Two different draws give two different socket files in the same
      directory. */
  lemma DirSocketPathsDistinct(dir: Path, m: DirSuffix, n: DirSuffix)
    requires m != n
    ensures DirSocketPath(dir, m) != DirSocketPath(dir, n)
  {
    if DirSocketPath(dir, m) == DirSocketPath(dir, n) {
      var k := |DirPrefix(dir) + "dbus-"|;
      assert DirSocketPath(dir, m)[k..] == Decimal(m);
      assert DirSocketPath(dir, n)[k..] == Decimal(n);
      DecimalInjective(m, n);
    }
  }

  /** The socket address built from a path, or the constructor's error. */
  function PathnameAddr(path: Path, sockAddrOk: SocketAddr -> bool): (r: Result<SocketAddr, Error>)
    ensures r.Success? <==> sockAddrOk(Pathname(path))
    ensures r.Success? ==> r.value == Pathname(path)
    ensures r.Failure? ==> r.error == InvalidSocketAddr
  {
    if sockAddrOk(Pathname(path)) then Success(Pathname(path)) else Failure(InvalidSocketAddr)
  }

  /** `unix_addr`: the socket address a Unix transport listens on. An
      explicit path or abstract name is used verbatim, a directory hint gets a
      fresh `dbus-<n>` file, anything else is refused. Abstract names exist
      only on Linux. */
  function UnixAddr(socket: UnixSocket, target: Target, suffix: DirSuffix, sockAddrOk: SocketAddr -> bool)
    : (r: Result<SocketAddr, Error>)
    ensures socket.File? ==> r == PathnameAddr(socket.path, sockAddrOk)
    ensures socket.Dir? ==> r == PathnameAddr(DirSocketPath(socket.dir, suffix), sockAddrOk)
    ensures socket.TmpDir? ==> r == PathnameAddr(DirSocketPath(socket.tmpDir, suffix), sockAddrOk)
    ensures socket.Abstract? && target.Linux? ==>
      (r.Success? <==> sockAddrOk(AbstractName(socket.name))) &&
      (r.Success? ==> r.value == AbstractName(socket.name)) &&
      (r.Failure? ==> r.error == InvalidSocketAddr)
    ensures (socket.Abstract? && !target.Linux?) || socket.OtherSocket? ==> r == Failure(UnsupportedUnixSocket)
    ensures r.Success? ==> (r.value.AbstractName? <==> socket.Abstract?)
  {
    match socket
    case Abstract(name) =>
      if !target.Linux? then Failure(UnsupportedUnixSocket)
      else if sockAddrOk(AbstractName(name)) then Success(AbstractName(name))
      else Failure(InvalidSocketAddr)
    case File(path) => PathnameAddr(path, sockAddrOk)
    case Dir(dir) => PathnameAddr(DirSocketPath(dir, suffix), sockAddrOk)
    case TmpDir(dir) => PathnameAddr(DirSocketPath(dir, suffix), sockAddrOk)
    case OtherSocket(_) => Failure(UnsupportedUnixSocket)
  }

  /** The check `tcp_stream` makes before binding: `nonce-tcp` is refused,
      otherwise the listener goes on the given host and port. */
  function TcpEndpointFor(tcp: TcpParams): (r: Result<Endpoint, Error>)
    ensures r.Success? <==> tcp.nonceFile.None?
    ensures r.Success? ==> r.value == TcpEndpoint(tcp.host, tcp.port)
    ensures r.Failure? ==> r.error == NonceTcpUnsupported
  {
    if tcp.nonceFile.Some? then Failure(NonceTcpUnsupported) else Success(TcpEndpoint(tcp.host, tcp.port))
  }

  /** What resolution decides: the address advertised to clients, the
      session guid, what to bind the listener to and how peers authenticate. */
  datatype Resolution = Resolution(advertised: Address, guid: Guid, endpoint: Endpoint, auth: AuthMechanism)

  predicate IsUnixFile(address: Address) {
    address.transport.Unix? && address.transport.socket.File?
  }

  /** Lines 49-76 of `for_address` on an already parsed address. */
  function Resolve(address: Address, target: Target, generated: Guid, suffix: DirSuffix, sockAddrOk: SocketAddr -> bool)
    : (r: Result<Resolution, Error>)
    // the guid is adopted when present, otherwise the generated one is attached
    ensures r.Success? ==> r.value.guid == (if address.guid.Some? then address.guid.value else generated)
    ensures r.Success? ==> r.value.advertised.guid == Some(r.value.guid)
    // Unix: a concrete socket file, external authentication
    ensures address.transport.Unix? && r.Success? ==>
      IsUnixFile(r.value.advertised) &&
      r.value.endpoint == UnixEndpoint(Pathname(r.value.advertised.transport.socket.path)) &&
      r.value.auth == External
    ensures address.transport.Unix? && address.transport.socket.File? ==>
      (r.Success? <==> sockAddrOk(Pathname(address.transport.socket.path))) &&
      (r.Success? ==> r.value.advertised.transport.socket.path == address.transport.socket.path)
    ensures address.transport.Unix? && address.transport.socket.Dir? ==>
      (r.Success? <==> sockAddrOk(Pathname(DirSocketPath(address.transport.socket.dir, suffix)))) &&
      (r.Success? ==> r.value.advertised.transport.socket.path == DirSocketPath(address.transport.socket.dir, suffix))
    ensures address.transport.Unix? && address.transport.socket.TmpDir? ==>
      (r.Success? <==> sockAddrOk(Pathname(DirSocketPath(address.transport.socket.tmpDir, suffix)))) &&
      (r.Success? ==> r.value.advertised.transport.socket.path == DirSocketPath(address.transport.socket.tmpDir, suffix))
    // an abstract name never resolves: it is refused, or the `expect` panics
    ensures address.transport.Unix? && address.transport.socket.Abstract? ==>
      r.Failure? && (target.Linux? && sockAddrOk(AbstractName(address.transport.socket.name)) ==> r.error == MissingPathname)
    ensures address.transport.Unix? && address.transport.socket.OtherSocket? ==> r == Failure(UnsupportedUnixSocket)
    ensures address.transport.Unix? && UnixAddr(address.transport.socket, target, suffix, sockAddrOk).Failure? ==>
      r == Failure(UnixAddr(address.transport.socket, target, suffix, sockAddrOk).error)
    // TCP: the address is kept, nonce-tcp refused, anonymous authentication
    ensures address.transport.Tcp? ==>
      (r.Success? <==> address.transport.tcp.nonceFile.None?) &&
      (r.Failure? ==> r.error == NonceTcpUnsupported)
    ensures address.transport.Tcp? && r.Success? ==>
      r.value.advertised.transport == address.transport &&
      r.value.endpoint == TcpEndpoint(address.transport.tcp.host, address.transport.tcp.port) &&
      r.value.auth == Anonymous
    ensures address.transport.Other? ==> r == Failure(UnsupportedTransport)
  {
    var guid := if address.guid.Some? then address.guid.value else generated;
    var withGuid := address.(guid := Some(guid));
    match withGuid.transport
    case Unix(socket) =>
      (match UnixAddr(socket, target, suffix, sockAddrOk)
       case Failure(e) => Failure(e)
       case Success(addr) =>
         match addr.AsPathname()
         case None => Failure(MissingPathname)
         case Some(path) => Success(Resolution(Address(Unix(File(path)), Some(guid)), guid, UnixEndpoint(addr), External)))
    case Tcp(tcp) =>
      (match TcpEndpointFor(tcp)
       case Failure(e) => Failure(e)
       case Success(endpoint) => Success(Resolution(withGuid, guid, endpoint, Anonymous)))
    case Other(_) => Failure(UnsupportedTransport)
  }

  /** The advertised address is a fixed point of resolution: resolving it again,
      whatever guid or suffix would be drawn, gives back the same resolution. */
  lemma ResolveIsStable(address: Address, target: Target, generated: Guid, suffix: DirSuffix,
                        sockAddrOk: SocketAddr -> bool, generated': Guid, suffix': DirSuffix)
    requires Resolve(address, target, generated, suffix, sockAddrOk).Success?
    ensures var res := Resolve(address, target, generated, suffix, sockAddrOk).value;
      Resolve(res.advertised, target, generated', suffix', sockAddrOk) == Success(res)
  {
  }

  /** Resolution of `unix:dir=/tmp/testbus` with no guid. */
  lemma DirHintExample(target: Target, generated: Guid, suffix: DirSuffix, sockAddrOk: SocketAddr -> bool)
    requires sockAddrOk(Pathname("/tmp/testbus/dbus-" + Decimal(suffix)))
    ensures Resolve(Address(Unix(Dir("/tmp/testbus")), None), target, generated, suffix, sockAddrOk)
      == Success(Resolution(
           Address(Unix(File("/tmp/testbus/dbus-" + Decimal(suffix))), Some(generated)),
           generated,
           UnixEndpoint(Pathname("/tmp/testbus/dbus-" + Decimal(suffix))),
           External))
  {
    assert "/tmp/testbus"[|"/tmp/testbus"| - 1] == 's';
    assert DirSocketPath("/tmp/testbus", suffix) == "/tmp/testbus/dbus-" + Decimal(suffix);
  }

  /** The inputs `for_address` takes from its surroundings: the address
      parser, the platform, the generator, the environment, the socket-address
      constructor and the outcomes of I/O. */
  datatype Environment = Environment(
    parse: string -> Result<Address, Error>,   // Address::from_str
    target: Target,
    runtimeDir: Option<string>,                 // XDG_RUNTIME_DIR
    uid: U32,                                   // getuid()
    generatedGuid: Guid,                        // Guid::generate()
    suffix: DirSuffix,                          // fastrand::u32(1_000_000..u32::MAX)
    sockAddrOk: SocketAddr -> bool,             // SocketAddr::from_pathname / from_abstract_name
    bindOk: Endpoint -> bool,                   // binding the listener
    selfDialOk: bool)                           // building the self-dial connection pair

  /** The address text `for_address` parses. */
  function AddressText(spec: Option<string>, env: Environment): (text: string)
    ensures spec.Some? ==> text == spec.value
    ensures spec.None? ==> text == DefaultAddress(env.target, env.runtimeDir, env.uid)
  {
    if spec.Some? then spec.value else DefaultAddress(env.target, env.runtimeDir, env.uid)
  }

  /** All of `for_address`: parse, resolve, bind, build the self-connection.
      Every failure is fatal; on success the running bus has this resolution. */
  function Bootstrap(spec: Option<string>, env: Environment): (r: Result<Resolution, Error>)
    ensures env.parse(AddressText(spec, env)).Failure? ==> r == Failure(env.parse(AddressText(spec, env)).error)
    ensures r.Success? ==>
      env.parse(AddressText(spec, env)).Success? &&
      Resolve(env.parse(AddressText(spec, env)).value, env.target, env.generatedGuid, env.suffix, env.sockAddrOk) == r &&
      env.bindOk(r.value.endpoint) && env.selfDialOk
    ensures env.parse(AddressText(spec, env)).Success? ==>
      var res := Resolve(env.parse(AddressText(spec, env)).value, env.target, env.generatedGuid, env.suffix, env.sockAddrOk);
      (res.Failure? ==> r == Failure(res.error)) &&
      (res.Success? && !env.bindOk(res.value.endpoint) ==> r == Failure(BindFailed)) &&
      (res.Success? && env.bindOk(res.value.endpoint) && !env.selfDialOk ==> r == Failure(SelfDialFailed)) &&
      (res.Success? && env.bindOk(res.value.endpoint) && env.selfDialOk ==> r == res)
  {
    match env.parse(AddressText(spec, env))
    case Failure(e) => Failure(e)
    case Success(address) =>
      match Resolve(address, env.target, env.generatedGuid, env.suffix, env.sockAddrOk)
      case Failure(e) => Failure(e)
      case Success(res) =>
        if !env.bindOk(res.endpoint) then Failure(BindFailed)
        else if !env.selfDialOk then Failure(SelfDialFailed)
        else Success(res)
  }
}
