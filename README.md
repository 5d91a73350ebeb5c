# Listener bootstrap and connection admission of the busd bus broker

This project models the decision logic of `src/bus/mod.rs` in busd, a D-Bus
broker written in Rust. The model covers four things:

- **Address resolution** (`Bus::for_address`, `unix_addr`, the nonce check of
  `tcp_stream`). The broker takes an address that the address library has
  already parsed. It keeps the address's guid, or attaches a freshly generated
  one. A `dir=`/`tmpdir=` hint becomes a concrete `dir/dbus-<n>` socket file.
  The advertised address is rewritten to `unix:path=<file>` carrying the guid.
  The authentication mechanism follows from the transport: `External` for
  Unix, `Anonymous` for TCP. Unsupported transports and `nonce-tcp` are
  refused.
- **Peer ids** (`next_id`, `accept_next`, `run`). The counter starts at 0.
  Each accepted connection gets the incremented value and is handed to the
  peer registry. Admission failures never reach the loop. Only an accept
  error ends `run`.
- **Cleanup**. Only a `unix:path=` address causes a file removal, of exactly
  that path. Every other address is a no-op success.
- **Default address synthesis** (`default_address`). Unix targets get
  `unix:dir=` followed by `$XDG_RUNTIME_DIR`, or `/run/user/<uid>` when the
  variable is unset. Other targets get `tcp:host=127.0.0.1,port=4242`.

Everything the broker gets from outside is an input of the model, gathered in
`Resolver.Environment`:

- the address parser;
- the platform;
- the generated guid;
- the random file-name suffix;
- `XDG_RUNTIME_DIR` and the uid;
- whether the socket-address constructor accepts a name;
- whether binding succeeds;
- whether the self-connection can be built.

The accept loop is driven by a sequence of accept events. Each event carries
the outcome that the spawned admission task for that connection reports.

Modules, leaves first:

- `Wrappers` holds `Option`, `Result` and `Outcome`.
- `Addresses` holds the parsed-address data model, decimal formatting, path
  joining and `default_address`.
- `Resolver` holds `unix_addr`, the TCP check, `Resolve` (lines 49-76 of
  `for_address` as a function) and `Bootstrap` (all of `for_address`).
- `Broker` holds the `Bus` class with its counter, its accept loop and its
  cleanup.

Two source behaviours a reader of the code might not expect:

- **Abstract names panic.** An abstract socket name (`unix:abstract=`) passes
  `unix_addr` on Linux. But `for_address` then calls
  `as_pathname().expect(...)` on it (lines 62-66), which panics. An abstract
  address therefore never yields a bus. The model reports this as the error
  `MissingPathname` (see `Resolve`). Abstract names are not advertised
  verbatim.
- **No resolved address is abstract.** Every resolved Unix address is a
  `unix:path=` address. So `cleanup` (lines 126-134) always has a file to
  remove for a Unix bus. Its no-op branch is reached only for TCP.

## Model

| member | source | states |
|---|---|---|
| `Addresses.Decimal` | src/bus/mod.rs:162 | the decimal text of a number is non-empty and all digits, and starts with `0` only when it is exactly `0` (the text of 0) |
| `Addresses.DecimalRoundTrip` | src/bus/mod.rs:162 | reading the decimal text of `n` gives back `n` |
| `Addresses.DecimalInjective` | src/bus/mod.rs:162 | distinct numbers have distinct decimal texts (from `DecimalRoundTrip`) |
| `Addresses.Join` | src/bus/mod.rs:162 | joining a relative name onto a directory yields a path that starts with the directory and ends with the name, with a `/` between them unless the directory already ends in one |
| `Addresses.SocketAddr.AsPathname` | src/bus/mod.rs:63 | `Some(path)` exactly for a pathname address, `None` for an abstract name |
| `Addresses.RuntimeDir` | src/bus/mod.rs:251-259 | the runtime directory is `XDG_RUNTIME_DIR` when set, else exactly `/run/user/<uid>` |
| `Addresses.DefaultAddress` | src/bus/mod.rs:250-267 | Unix targets get `unix:dir=` + runtime directory; other targets get `tcp:host=127.0.0.1,port=4242`; what it implies about the uid is in `DefaultAddressEncodesUid` and `DefaultAddressDistinctUids` |
| `Addresses.DefaultAddressEncodesUid` | src/bus/mod.rs:255-261 | without the variable, the text after `unix:dir=/run/user/` is all digits and denotes the uid |
| `Addresses.DefaultAddressDistinctUids` | src/bus/mod.rs:255-261 | without the variable, two uids with the same default address are the same uid |
| `Resolver.DirSocketPath` | src/bus/mod.rs:161-162 | the synthesised socket file lies in the hinted directory and is named `dbus-` + the decimal suffix |
| `Resolver.DirSocketPathsDistinct` | src/bus/mod.rs:161-162 | two different random suffixes give two different socket files in the same directory |
| `Resolver.PathnameAddr` | src/bus/mod.rs:152-153 | a path becomes a pathname socket address exactly when the constructor accepts it, else `InvalidSocketAddr`; used by `Resolve`, whose stability is `ResolveIsStable` |
| `Resolver.UnixAddr` | src/bus/mod.rs:136-173 | `File` is kept verbatim; `Dir`/`TmpDir` become `dir/dbus-<n>`; `Abstract` is kept on Linux and refused elsewhere; other kinds are refused; only `Abstract` yields an abstract address |
| `Resolver.TcpEndpointFor` | src/bus/mod.rs:189-194 | a nonce file is refused with `NonceTcpUnsupported`; otherwise the listener goes on the given host and port; re-resolving a TCP address is covered by `ResolveIsStable` |
| `Resolver.Resolve` | src/bus/mod.rs:49-76 | the guid is adopted if present, else the generated one is attached, and the advertised address carries it. A successful Unix resolution advertises `unix:path=` for the bound file with `External` auth (verbatim for `File`, `dir/dbus-<n>` for hints). Abstract names always fail. A Unix sub-mode that `unix_addr` refuses fails with `unix_addr`'s own error (`InvalidSocketAddr` or `UnsupportedUnixSocket`). TCP keeps the address, refuses nonce, uses `Anonymous`. Other transports fail with `UnsupportedTransport` |
| `Resolver.ResolveIsStable` | src/bus/mod.rs:58-67 | resolving the advertised address again, with any new guid or suffix, gives the same resolution: the advertised address is a fixed point of resolution (for a Unix address, the socket file it names is the one bound) |
| `Resolver.DirHintExample` | src/bus/mod.rs:59-67 | `unix:dir=/tmp/testbus` without a guid resolves to `unix:path=/tmp/testbus/dbus-<n>` carrying the generated guid, bound there with `External` |
| `Resolver.AddressText` | src/bus/mod.rs:45-47 | the text parsed is the given address, or the default address when none is given; `Bus.ForAddress` is proved to agree with `Bootstrap` on it |
| `Resolver.Bootstrap` | src/bus/mod.rs:44-113 | a parse error is returned as is. On success the parse succeeded, the resolution is `Resolve`'s, binding succeeded and the self-connection was built. Otherwise the first failing step's error is returned, in the source order: resolve, bind, self-dial; `Bus.ForAddress` is proved equal to it and `CleanupRemovesListenerFile` builds on it |
| `Broker.AcceptedPrefix` | src/bus/mod.rs:119-123 | the loop consumes the accepted connections before the first accept error and stops at that error, if there is one |
| `Broker.HandoffsOf` | src/bus/mod.rs:202-216 | the i-th connection accepted after the counter stood at `m` is handed off with id `m + i + 1`, its socket, the bus guid and auth mechanism |
| `Broker.AdmissionOutcomesIgnored` | src/bus/mod.rs:207-218 | changing any admission outcome changes neither where `run` stops nor its error |
| `Broker.SocketFile` | src/bus/mod.rs:126-134 | the file cleanup removes exists exactly for a `unix:path=` address and is that path; `CleanupRemovesListenerFile` ties it to the bound listener |
| `Broker.CleanupRemovesListenerFile` | src/bus/mod.rs:58-74 | after bootstrap, cleanup removes exactly the path the Unix listener was bound to, and nothing for a TCP listener |
| `Broker.Bus.constructor` | src/bus/mod.rs:102-112 | a new bus holds the resolved address, guid, listener and auth, with the counter at 0 and nothing handed off |
| `Broker.Bus.ForAddress` | src/bus/mod.rs:44-113 | succeeds exactly when `Bootstrap` does, with its error otherwise. A fresh bus satisfies the id invariant, its counter is 0 and its fields are the resolution's |
| `Broker.Bus.NextId` | src/bus/mod.rs:243-247 | the counter grows by exactly 1 and the new value is returned; only `AcceptNext` calls it, and that call restores the id invariant |
| `Broker.Bus.AcceptNext` | src/bus/mod.rs:202-219 | an accept error is returned with nothing changed. An accepted connection gets the next id, is appended to the handoffs with the bus guid and auth, and the call succeeds whatever its admission reports. The ids stay 1..k in order |
| `Broker.Bus.Run` | src/bus/mod.rs:119-123 | returns the first accept error, if any. The counter grows by the number of connections accepted before it. Those connections are handed off with consecutive ids in acceptance order |
| `Broker.Bus.Cleanup` | src/bus/mod.rs:126-134 | removes the socket file of a `unix:path=` address and passes on the removal's outcome; any other address succeeds with nothing removed |

## Left out

- Tokio listeners, `bind`, `accept`, `spawn_blocking`, `set_nonblocking` and `remove_file` are OS I/O. Binding is the `bindOk` input. Accepting is the event sequence given to `Run`. File removal is the `removeFile` input of `Cleanup`.
- The `spawn` of admission tasks models concurrency. Each handoff records the outcome its task reports, and the loop never looks at it. Nothing is said about the order in which admissions complete.
- `Address::from_str` is the `parse` input, and `Guid::generate` is the `generatedGuid` input. Both are library code not shown here.
- The checks made by `SocketAddr::from_pathname` and `from_abstract_name` (interior NUL bytes, length limits) are library code. They are the `sockAddrOk` input.
- `set_guid` (lines 53 and 67) is modelled as infallible, since it is given a guid that is already valid.
- The self-connection (`Channel::pair`, the connection builders, `serve_at`, `Peers::add_us`) and the `DBus` and `Monitoring` services are external collaborators. Building them is the `selfDialOk` outcome.
- The `Peers` registry is not modelled. Its admission entry point `Peers::add` appears only as the ghost handoff log.
- `fastrand`, `XDG_RUNTIME_DIR` and `getuid` are inputs. `env::var` fails both when the variable is unset and when it is not Unicode; both cases are `None`.
- `tracing` logging is not modelled.
- Bus.NextId: does not model the wrap-around of the `usize` counter after 2^64 connections. That count is unreachable in practice, and the ids are unbounded naturals here.
- Bus.Run: `run` loops until an accept error and never returns `Ok`. The model runs over a finite sequence of accept events, and `None` means the events ran out while the loop was still running.
- If the self-connection fails after a Unix listener was bound, the socket file stays on disk. The file system is not modelled.
- Paths are sequences of characters, each standing for one byte of the `OsStr`. Windows path prefixes in `Path::join` are not modelled.
- `Target.NonUnix` affects only `default_address`, and models the evident intent of lines 264-267 rather than a configuration that builds. Line 250 has no `#[cfg(unix)]`, and `unix_addr` and `unix_stream` use `std::os::unix` without a cfg gate. So on a non-Unix target the file defines `default_address` twice and does not compile.
- The accessors `address`, `guid` and `auth_mechanism` are the `Bus` fields themselves. The `peers` accessor is not modelled, since the registry is not.
- A TCP address is advertised as given: line 74 does not rewrite it to the port actually bound. With `port=0` the OS picks an ephemeral port, and the advertised `port=0` cannot be dialed. The model does not track the bound port.
- The std socket-address type also has an unnamed form. `SocketAddr::from_pathname("")` gives one, and its `as_pathname()` is `None`, so an empty `unix:path=` would hit the same `expect` (line 64) as an abstract name. The model has no unnamed form and assumes `sockAddrOk` refuses `Pathname("")`.
