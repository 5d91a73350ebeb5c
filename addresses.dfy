/** The bus address as the broker sees it once the address library has
    parsed it, the socket addresses and listening endpoints the broker derives
    from it, and the text the broker synthesises when no address is given. */
module Addresses {
  import opened Wrappers

  type Path = string
  type U16 = n: nat | n < 0x1_0000
  type U32 = n: nat | n < 0x1_0000_0000

  /** A bus session identifier. Generating and formatting it is done by the
      address library, so it is opaque here. */
  datatype Guid = Guid(text: string)

  /** The addressing sub-modes of a `unix:` transport. The library's enum is
      non-exhaustive, hence `OtherSocket`. */
  datatype UnixSocket =
    | File(path: Path)
    | Abstract(name: string)
    | Dir(dir: Path)
    | TmpDir(tmpDir: Path)
    | OtherSocket(kind: string)

  datatype TcpParams = TcpParams(host: string, port: U16, nonceFile: Option<Path>)

  /** `Unix` and `Tcp` are the transports the broker serves; every other
      transport the library knows (launchd, unixexec, vsock, ...) is `Other`. */
  datatype Transport =
    | Unix(socket: UnixSocket)
    | Tcp(tcp: TcpParams)
    | Other(kind: string)

  datatype Address = Address(transport: Transport, guid: Option<Guid>)

  /** A Unix socket address: a file-system path or a Linux abstract name. */
  datatype SocketAddr = Pathname(path: Path) | AbstractName(name: string) {
    /** `SocketAddr::as_pathname`. */
    function AsPathname(): (p: Option<Path>)
      ensures p.Some? <==> Pathname?
      ensures p.Some? ==> p.value == path
    {
      if Pathname? then Some(path) else None
    }
  }

  /** What a listener gets bound to. */
  datatype Endpoint = UnixEndpoint(addr: SocketAddr) | TcpEndpoint(host: string, port: U16)

  datatype AuthMechanism = External | Anonymous

  /** The platform the broker is built for (`cfg(target_os = "linux")`,
      `cfg(unix)`). */
  datatype Target = Linux | OtherUnix | NonUnix

  datatype Error =
    | AddressInvalid(reason: string)   // reported by the address parser
    | UnsupportedTransport            // no listener for this transport
    | UnsupportedUnixSocket           // a Unix sub-mode unix_addr cannot serve
    | NonceTcpUnsupported             // `nonce-tcp` is refused
    | InvalidSocketAddr               // the SocketAddr constructor refused the name
    | MissingPathname                 // the `expect` on `as_pathname` panics
    | BindFailed                      // binding the listener failed
    | SelfDialFailed                  // building the self-connection failed
    | Io(reason: string)              // accept or remove-file failure

  // ---------------------------------------------------------------------
  // Decimal formatting (`format!("{}", n)`) and its inverse

  predicate IsDigit(c: char) { '0' <= c <= '9' }

  predicate AllDigits(s: string) { forall i | 0 <= i < |s| :: IsDigit(s[i]) }

  function DigitChar(d: nat): (c: char)
    requires d < 10
    ensures IsDigit(c)
  {
    ('0' as int + d) as char
  }

  function DigitValue(c: char): nat
    requires IsDigit(c)
  {
    c as int - '0' as int
  }

  /** The decimal text of `n`, most significant digit first. */
  function Decimal(n: nat): (s: string)
    ensures |s| >= 1 && AllDigits(s)
    ensures s[0] == '0' ==> n == 0 && s == "0"
  {
    if n < 10 then [DigitChar(n)] else Decimal(n / 10) + [DigitChar(n % 10)]
  }

  /** The number a string of decimal digits denotes. */
  function DecimalValue(s: string): nat
    requires AllDigits(s)
  {
    if s == [] then 0 else 10 * DecimalValue(s[..|s| - 1]) + DigitValue(s[|s| - 1])
  }

  lemma {:induction false} DecimalRoundTrip(n: nat)
    ensures DecimalValue(Decimal(n)) == n
  {
    if n >= 10 {
      var s := Decimal(n);
      assert s[..|s| - 1] == Decimal(n / 10);
      DecimalRoundTrip(n / 10);
    }
  }

  lemma DecimalInjective(m: nat, n: nat)
    requires Decimal(m) == Decimal(n)
    ensures m == n
  {
    DecimalRoundTrip(m);
    DecimalRoundTrip(n);
  }

  // ---------------------------------------------------------------------
  // Paths

  predicate IsRelativeName(name: Path) { name != [] && name[0] != '/' }

  /** `dir` as `PathBuf::push` extends it: a separator is added unless `dir`
      is empty or already ends in one. */
  function DirPrefix(dir: Path): (p: Path)
    ensures |p| >= |dir| && p[..|dir|] == dir
  {
    if dir == [] || dir[|dir| - 1] == '/' then dir else dir + "/"
  }

  /** `Path::join` with a relative component. */
  function Join(dir: Path, name: Path): (p: Path)
    requires IsRelativeName(name)
    ensures |p| >= |dir| + |name| && p[..|dir|] == dir && p[|p| - |name|..] == name
    ensures dir != [] && dir[|dir| - 1] != '/' ==> p == dir + "/" + name
    ensures dir == [] || dir[|dir| - 1] == '/' ==> p == dir + name
  {
    DirPrefix(dir) + name
  }

  // ---------------------------------------------------------------------
  // default_address

  const DEFAULT_TCP_ADDRESS := "tcp:host=127.0.0.1,port=4242"
  const UNIX_DIR_PREFIX := "unix:dir="

  /** The runtime directory: `XDG_RUNTIME_DIR` when it is set (and valid
      Unicode), otherwise `/run/user/<uid>`. */
  function RuntimeDir(runtimeDir: Option<string>, uid: U32): (d: Path)
    ensures runtimeDir.Some? ==> d == runtimeDir.value
    ensures runtimeDir.None? ==> d == "/run/user/" + Decimal(uid)
  {
    match runtimeDir
    case Some(dir) => dir
    case None =>
      var runUser := Join("/run", "user");
      assert "/run"[3] == 'n';
      assert runUser == "/run/user";
      assert runUser[8] == 'r';
      Join(runUser, Decimal(uid))
  }

  /** `default_address`: a directory hint rooted at the runtime directory on
      Unix targets, a fixed loopback TCP address elsewhere. */
  function DefaultAddress(target: Target, runtimeDir: Option<string>, uid: U32): (s: string)
    ensures target.NonUnix? ==> s == DEFAULT_TCP_ADDRESS
    ensures !target.NonUnix? ==> s == UNIX_DIR_PREFIX + RuntimeDir(runtimeDir, uid)
  {
    if target.NonUnix? then DEFAULT_TCP_ADDRESS else UNIX_DIR_PREFIX + RuntimeDir(runtimeDir, uid)
  }

  /** Without `XDG_RUNTIME_DIR` the default address names the uid it was
      built from: the digits after `unix:dir=/run/user/` give the uid back. */
  lemma DefaultAddressEncodesUid(target: Target, uid: U32)
    requires !target.NonUnix?
    ensures var s := DefaultAddress(target, None, uid);
      |s| > 19 && s[..19] == "unix:dir=/run/user/" && AllDigits(s[19..]) && DecimalValue(s[19..]) == uid
  {
    var s := DefaultAddress(target, None, uid);
    var dir := RuntimeDir(None, uid);
    assert dir == "/run/user/" + Decimal(uid);
    assert s == UNIX_DIR_PREFIX + dir;
    assert UNIX_DIR_PREFIX + "/run/user/" == "unix:dir=/run/user/";
    assert s == "unix:dir=/run/user/" + Decimal(uid);
    assert s[19..] == Decimal(uid);
    DecimalRoundTrip(uid);
  }

  /** Different users get different default addresses. */
  lemma DefaultAddressDistinctUids(target: Target, uid1: U32, uid2: U32)
    requires !target.NonUnix?
    requires DefaultAddress(target, None, uid1) == DefaultAddress(target, None, uid2)
    ensures uid1 == uid2
  {
    DefaultAddressEncodesUid(target, uid1);
    DefaultAddressEncodesUid(target, uid2);
  }
}
