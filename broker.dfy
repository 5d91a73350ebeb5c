/** The running bus: its state after bootstrap, the peer-id counter and the
    accept loop that hands each connection to the peer registry, and cleanup
    of the socket file on shutdown. */
module Broker {
  import opened Wrappers
  import opened Addresses
  import opened Resolver

  /** An accepted raw connection; opaque. */
  datatype Socket = Socket(handle: nat)

  /** One result of waiting on the listener. `admission` is what the peer
      registry's admission task for that connection eventually reports. */
  datatype AcceptEvent =
    | Accepted(socket: Socket, admission: Outcome<Error>)
    | AcceptFailed(error: Error)

  /** A connection handed to the peer registry's admission entry point
      (`Peers::add`), with the outcome its spawned task reported. */
  datatype Handoff = Handoff(id: nat, socket: Socket, guid: Guid, auth: AuthMechanism, admission: Outcome<Error>)

  /** How many events the accept loop consumes before an accept error stops
      it: every event before it is an accepted connection, and the one at it,
      if any, is the error. */
  function AcceptedPrefix(events: seq<AcceptEvent>): (k: nat)
    ensures k <= |events|
    ensures forall i | 0 <= i < k :: events[i].Accepted?
    ensures k < |events| ==> events[k].AcceptFailed?
  {
    if events == [] || events[0].AcceptFailed? then 0 else 1 + AcceptedPrefix(events[1..])
  }

  /** The handoffs the loop makes for a run of accepted connections when the
      counter stood at `lastId`: the i-th connection gets id `lastId + i + 1`. */
  function HandoffsOf(lastId: nat, accepted: seq<AcceptEvent>, guid: Guid, auth: AuthMechanism): (hs: seq<Handoff>)
    requires forall i | 0 <= i < |accepted| :: accepted[i].Accepted?
    ensures |hs| == |accepted|
    ensures forall i | 0 <= i < |hs| ::
      hs[i] == Handoff(lastId + i + 1, accepted[i].socket, guid, auth, accepted[i].admission)
  {
    if accepted == [] then []
    else
      var last := accepted[|accepted| - 1];
      HandoffsOf(lastId, accepted[..|accepted| - 1], guid, auth)
        + [Handoff(lastId + |accepted|, last.socket, guid, auth, last.admission)]
  }

  /** Two event sequences that differ at most in what admission reported. */
  predicate SameAccepts(events: seq<AcceptEvent>, events': seq<AcceptEvent>) {
    |events| == |events'| &&
    forall i | 0 <= i < |events| ::
      events[i].AcceptFailed? == events'[i].AcceptFailed? &&
      (events[i].AcceptFailed? ==> events[i].error == events'[i].error) &&
      (events[i].Accepted? ==> events[i].socket == events'[i].socket)
  }

  /** Admission failures never reach the loop: when and with which error
      `run` stops, and how many connections it takes first, do not depend on
      any admission outcome. */
  lemma AdmissionOutcomesIgnored(events: seq<AcceptEvent>, events': seq<AcceptEvent>)
    requires SameAccepts(events, events')
    ensures AcceptedPrefix(events) == AcceptedPrefix(events')
    ensures AcceptedPrefix(events) < |events| ==>
      events[AcceptedPrefix(events)].error == events'[AcceptedPrefix(events')].error
  {
  }

  /** The file `cleanup` removes: the socket file of a `unix:path=` address;
      nothing for any other address. */
  function SocketFile(address: Address): (f: Option<Path>)
    ensures f.Some? <==> IsUnixFile(address)
    ensures f.Some? ==> f.value == address.transport.socket.path
  {
    match address.transport
    case Unix(File(path)) => Some(path)
    case _ => None
  }

  /** Cleanup removes exactly the file the Unix listener was bound to, and
      nothing for a TCP listener. */
  lemma CleanupRemovesListenerFile(spec: Option<string>, env: Environment)
    requires Bootstrap(spec, env).Success?
    ensures var res := Bootstrap(spec, env).value;
      (res.endpoint.UnixEndpoint? ==> res.endpoint.addr.Pathname? && SocketFile(res.advertised) == Some(res.endpoint.addr.path)) &&
      (res.endpoint.TcpEndpoint? ==> SocketFile(res.advertised) == None)
  {
  }

  class Bus {
    const address: Address
    const guid: Guid
    const listener: Endpoint
    const authMechanism: AuthMechanism
    var nextId: nat
    /** Every connection handed to the peer registry so far, in order. */
    ghost var handoffs: seq<Handoff>

    /** Ids are handed out as 1, 2, 3, ... in acceptance order, each with the
        bus's guid and authentication mechanism; the counter holds the last. */
    ghost predicate Valid()
      reads this
    {
      nextId == |handoffs| &&
      forall i | 0 <= i < |handoffs| ::
        handoffs[i].id == i + 1 && handoffs[i].guid == guid && handoffs[i].auth == authMechanism
    }

    constructor (address: Address, guid: Guid, listener: Endpoint, authMechanism: AuthMechanism)
      ensures Valid()
      ensures this.address == address && this.guid == guid && this.listener == listener
      ensures this.authMechanism == authMechanism
      ensures nextId == 0 && handoffs == []
    {
      this.address := address;
      this.guid := guid;
      this.listener := listener;
      this.authMechanism := authMechanism;
      nextId := 0;
      handoffs := [];
    }

    /** `Bus::for_address`: parse the given address (or the default one),
        settle the guid, resolve a Unix sub-mode into a socket file and rewrite
        the advertised address to it, bind, and build the self-connection. */
    static method ForAddress(spec: Option<string>, env: Environment) returns (r: Result<Bus, Error>)
      ensures r.Success? <==> Bootstrap(spec, env).Success?
      ensures r.Failure? ==> r.error == Bootstrap(spec, env).error
      ensures r.Success? ==>
        var res := Bootstrap(spec, env).value;
        fresh(r.value) && r.value.Valid() && r.value.nextId == 0 &&
        r.value.address == res.advertised && r.value.guid == res.guid &&
        r.value.listener == res.endpoint && r.value.authMechanism == res.auth
    {
      var parsed := env.parse(AddressText(spec, env));
      if parsed.Failure? {
        return Failure(parsed.error);
      }
      var address := parsed.value;
      var guid: Guid;
      if address.guid.Some? {
        guid := address.guid.value;
      } else {
        guid := env.generatedGuid;
        address := address.(guid := Some(guid));
      }
      var endpoint: Endpoint;
      var auth: AuthMechanism;
      match address.transport {
        case Unix(socket) =>
          var addr := UnixAddr(socket, env.target, env.suffix, env.sockAddrOk);
          if addr.Failure? {
            return Failure(addr.error);
          }
          var path := addr.value.AsPathname();
          if path.None? {
            return Failure(MissingPathname);
          }
          address := Address(Unix(File(path.value)), None).(guid := Some(guid));
          endpoint, auth := UnixEndpoint(addr.value), External;
        case Tcp(tcp) =>
          var tcpEndpoint := TcpEndpointFor(tcp);
          if tcpEndpoint.Failure? {
            return Failure(tcpEndpoint.error);
          }
          endpoint, auth := tcpEndpoint.value, Anonymous;
        case Other(_) =>
          return Failure(UnsupportedTransport);
      }
      if !env.bindOk(endpoint) {
        return Failure(BindFailed);
      }
      if !env.selfDialOk {
        return Failure(SelfDialFailed);
      }
      var bus := new Bus(address, guid, endpoint, auth);
      r := Success(bus);
    }

    /** `next_id`: bump the counter and return its new value. Like the
        private `next_id`, it is called only from inside `AcceptNext`, which
        records the handoff that restores `Valid()`. */
    method NextId() returns (id: nat)
      modifies this`nextId
      ensures nextId == old(nextId) + 1 && id == nextId
    {
      nextId := nextId + 1;
      id := nextId;
    }

    /** `accept_next`: an accept error is returned; an accepted connection
        gets the next id and is handed off, and whatever its admission
        reports, the call succeeds. */
    method AcceptNext(event: AcceptEvent) returns (r: Outcome<Error>)
      requires Valid()
      modifies this`nextId, this`handoffs
      ensures Valid()
      ensures event.AcceptFailed? ==>
        r == Fail(event.error) && nextId == old(nextId) && handoffs == old(handoffs)
      ensures event.Accepted? ==>
        r == Pass && nextId == old(nextId) + 1 &&
        handoffs == old(handoffs) + [Handoff(nextId, event.socket, guid, authMechanism, event.admission)]
    {
      match event
      case AcceptFailed(e) =>
        return Fail(e);
      case Accepted(socket, admission) =>
        var id := NextId();
        handoffs := handoffs + [Handoff(id, socket, guid, authMechanism, admission)];
        return Pass;
    }

    /** `run` over the connections the listener yields: it keeps accepting
        until the first accept error, which it returns; `None` means every
        event was consumed and the loop is still running. */
    method Run(events: seq<AcceptEvent>) returns (r: Option<Error>)
      requires Valid()
      modifies this`nextId, this`handoffs
      ensures Valid()
      ensures var k := AcceptedPrefix(events);
        r == (if k < |events| then Some(events[k].error) else None) &&
        nextId == old(nextId) + k &&
        handoffs == old(handoffs) + HandoffsOf(old(nextId), events[..k], guid, authMechanism)
    {
      var i := 0;
      while i < |events|
        invariant 0 <= i <= |events|
        invariant forall j | 0 <= j < i :: events[j].Accepted?
        invariant Valid()
        invariant nextId == old(nextId) + i
        invariant handoffs == old(handoffs) + HandoffsOf(old(nextId), events[..i], guid, authMechanism)
      {
        var outcome := AcceptNext(events[i]);
        if outcome.Fail? {
          return Some(outcome.error);
        }
        assert events[..i + 1][..i] == events[..i];
        i := i + 1;
      }
      assert events[..i] == events;
      return None;
    }

    /** `cleanup`: remove the socket file of a `unix:path=` address, passing
        on the removal's outcome; succeed without removing anything
        otherwise. */
    method Cleanup(removeFile: Path -> Outcome<Error>) returns (removed: Option<Path>, r: Outcome<Error>)
      ensures removed == SocketFile(address)
      ensures removed.None? ==> r == Pass
      ensures removed.Some? ==> r == removeFile(removed.value)
    {
      match address.transport {
        case Unix(socket) =>
          match socket {
            case File(path) =>
              removed := Some(path);
              r := removeFile(path);
            case _ =>
              removed, r := None, Pass;
          }
        case _ =>
          removed, r := None, Pass;
      }
    }
  }
}
