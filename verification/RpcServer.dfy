/** The RPC server's lifecycle: registering, starting, rolling back and stopping. */
module Rpc {
  import opened Wrappers

  /** The dynamic type of a service. */
  type Kind = nat

  datatype Failure =
    | NodeRunning
    | NodeStopped
    | BadConstructor
    | DuplicateService(kind: Kind)
    | EndpointFailed
    | ServiceStopFailed(kind: Kind)
    | StopFailed(kinds: set<Kind>)

  /** Which of the endpoints have an address to listen at. */
  datatype Config = Config(ipc: bool, http: bool, ws: bool)

  /** The listening sockets of the process; every one ever opened has its own number. */
  datatype Net = Net(sockets: set<nat>, next: nat)

  datatype Endpoint = Endpoint(listener: Option<nat>, handler: bool)

  const CLOSED := Endpoint(None, false)

  /** `made` stop channels were ever made; `closings` are those closed, in order. */
  datatype Server = Server(config: Config, started: bool, constructors: seq<nat>, services: set<Kind>, inproc: bool,
                           ipc: Endpoint, http: Endpoint, ws: Endpoint, net: Net,
                           stop: Option<nat>, made: nat, closings: seq<nat>)

  /** Whether closing each listener succeeds. */
  datatype Closes = Closes(ipc: bool, http: bool, ws: bool)

  /** What the surroundings answer during one Start. */
  datatype StartEnv = StartEnv(build: nat -> Option<Kind>, inproc: bool, ipc: bool, http: bool, ws: bool,
                               closes: Closes, stopFails: set<Kind>)

  function Initial(config: Config): Server {
    Server(config, false, [], {}, false, CLOSED, CLOSED, CLOSED, Net({}, 0), None, 0, [])
  }

  // ----- endpoints -----

  function Listen(net: Net): (Endpoint, Net) {
    (Endpoint(Some(net.next), true), Net(net.sockets + {net.next}, net.next + 1))
  }

  function CloseListener(net: Net, listener: nat, closes: bool): Net {
    if closes then net.(sockets := net.sockets - {listener}) else net
  }

  /** stopHTTP and stopWS let go of the listener whether or not it closes. */
  function Shut(e: Endpoint, net: Net, closes: bool): (Endpoint, Net) {
    (CLOSED, if e.listener.Some? then CloseListener(net, e.listener.value, closes) else net)
  }

  /** stopIPC keeps a listener that does not close, and its handler with it. */
  function ShutIPC(e: Endpoint, net: Net, closes: bool): (Endpoint, Net) {
    if e.listener.Some? && !closes then (e, CloseListener(net, e.listener.value, false)) else Shut(e, net, closes)
  }

  function StopIPC(s: Server, closes: Closes): Server {
    var (e, net) := ShutIPC(s.ipc, s.net, closes.ipc);
    s.(ipc := e, net := net)
  }

  function StopHTTP(s: Server, closes: Closes): Server {
    var (e, net) := Shut(s.http, s.net, closes.http);
    s.(http := e, net := net)
  }

  function StopWS(s: Server, closes: Closes): Server {
    var (e, net) := Shut(s.ws, s.net, closes.ws);
    s.(ws := e, net := net)
  }

  function StopInProc(s: Server): Server {
    s.(inproc := false)
  }

  function StartIPC(s: Server): Server {
    if s.config.ipc then var (e, net) := Listen(s.net); s.(ipc := e, net := net) else s
  }

  function StartHTTP(s: Server): Server {
    if s.config.http then var (e, net) := Listen(s.net); s.(http := e, net := net) else s
  }

  function StartWS(s: Server): Server {
    if s.config.ws then var (e, net) := Listen(s.net); s.(ws := e, net := net) else s
  }

  /** startRPC: the endpoints in order, and what was opened taken down again after a failure. */
  function StartRPC(s: Server, env: StartEnv): (Server, bool) {
    if !env.inproc then (s, false)
    else
      var s1 := s.(inproc := true);
      if s.config.ipc && !env.ipc then (StopInProc(s1), false)
      else
        var s2 := StartIPC(s1);
        if s.config.http && !env.http then (StopInProc(StopIPC(s2, env.closes)), false)
        else
          var s3 := StartHTTP(s2);
          if s.config.ws && !env.ws then (StopInProc(StopIPC(StopHTTP(s3, env.closes), env.closes)), false)
          else (StartWS(s3), true)
  }

  // ----- services -----

  datatype Built = Kinds(kinds: set<Kind>) | NotBuilt(failure: Failure)

  function Build(constructors: seq<nat>, build: nat -> Option<Kind>): Built {
    if constructors == [] then Kinds({})
    else
      match Build(constructors[..|constructors| - 1], build)
      case NotBuilt(failure) => NotBuilt(failure)
      case Kinds(kinds) =>
        match build(constructors[|constructors| - 1])
        case None => NotBuilt(BadConstructor)
        case Some(kind) => if kind in kinds then NotBuilt(DuplicateService(kind)) else Kinds(kinds + {kind})
  }

  lemma {:induction false} BuildFailsEarly(constructors: seq<nat>, build: nat -> Option<Kind>, i: nat)
    requires i <= |constructors| && Build(constructors[..i], build).NotBuilt?
    ensures Build(constructors, build) == Build(constructors[..i], build)
  {
    if i == |constructors| {
      assert constructors[..i] == constructors;
    } else {
      assert constructors[..|constructors| - 1][..i] == constructors[..i];
      BuildFailsEarly(constructors[..|constructors| - 1], build, i);
    }
  }

  // ----- the three operations -----

  datatype Event = Register(build: nat) | Start(env: StartEnv) | Stop(closes: Closes, stopFails: set<Kind>)

  function Started(s: Server, env: StartEnv): Server {
    if s.started then s
    else
      match Build(s.constructors, env.build)
      case NotBuilt(_) => s
      case Kinds(kinds) =>
        var (s', ok) := StartRPC(s, env);
        if ok then s'.(services := kinds, started := true, stop := Some(s.made), made := s.made + 1) else s'
  }

  function Stopped(s: Server, closes: Closes): Server {
    if !s.started then s
    else
      var s' := StopIPC(StopHTTP(StopWS(s, closes), closes), closes);
      s'.(started := false, services := {}, closings := s.closings + if s.stop.Some? then [s.stop.value] else [])
  }

  function Step(s: Server, e: Event): Server {
    match e
    case Register(c) => if s.started then s else s.(constructors := s.constructors + [c])
    case Start(env) => Started(s, env)
    case Stop(closes, _) => Stopped(s, closes)
  }

  function Run(s: Server, events: seq<Event>): Server {
    if events == [] then s else Step(Run(s, events[..|events| - 1]), events[|events| - 1])
  }

  // ----- what Start returns -----

  /** The rollback loop: its last successful Stop erases the error it started from. */
  predicate RollbackReturns(kinds: set<Kind>, stopFails: set<Kind>, err: Option<Failure>) {
    if kinds == {} then err == Some(EndpointFailed)
    else if kinds !! stopFails then err == None
    else err.Some? && err.value.ServiceStopFailed? && err.value.kind in kinds * stopFails
  }

  predicate StartReturns(s: Server, env: StartEnv, err: Option<Failure>) {
    if s.started then err == Some(NodeRunning)
    else
      match Build(s.constructors, env.build)
      case NotBuilt(failure) => err == Some(failure)
      case Kinds(kinds) => if StartRPC(s, env).1 then err == None else RollbackReturns(kinds, env.stopFails, err)
  }

  /** A success leaves the server started, but so may a nil error not: exactly when the rollback swallowed one. */
  lemma NilErrorButNotStartedIff(s: Server, env: StartEnv, err: Option<Failure>)
    requires StartReturns(s, env, err)
    ensures Started(s, env).started && !s.started ==> err == None
    ensures
      err == None && !Started(s, env).started
      <==> (&& !s.started
            && Build(s.constructors, env.build).Kinds?
            && Build(s.constructors, env.build).kinds != {}
            && Build(s.constructors, env.build).kinds !! env.stopFails
            && !StartRPC(s, env).1)
  {
  }

  // ----- the lifecycle invariant -----

  function Upto(n: nat): seq<nat> {
    seq(n, i => i)
  }

  /** Every stop channel ever made was closed once, in order, but for the one in use. */
  ghost predicate ChannelsInv(s: Server) {
    if s.started then s.made > 0 && s.stop == Some(s.made - 1) && s.closings == Upto(s.made - 1)
    else s.closings == Upto(s.made)
  }

  predicate Serves(e: Endpoint, configured: bool) {
    e.listener.Some? == configured && e.handler == configured
  }

  function Listeners(s: Server): set<nat> {
    (if s.ipc.listener.Some? then {s.ipc.listener.value} else {})
    + (if s.http.listener.Some? then {s.http.listener.value} else {})
    + (if s.ws.listener.Some? then {s.ws.listener.value} else {})
  }

  predicate AllDifferent(s: Server) {
    && (s.ipc.listener.Some? ==> s.ipc.listener != s.http.listener && s.ipc.listener != s.ws.listener)
    && (s.http.listener.Some? ==> s.http.listener != s.ws.listener)
  }

  /**
   The configured endpoints are held while started. While not, HTTP and WebSocket are not; IPC may be, if its
   listener once did not close.
   */
  ghost predicate EndpointsInv(s: Server) {
    && (!s.config.ipc ==> s.ipc == CLOSED)
    && s.ipc.listener.Some? == s.ipc.handler
    && if s.started then
         s.inproc && Serves(s.ipc, s.config.ipc) && Serves(s.http, s.config.http) && Serves(s.ws, s.config.ws)
       else s.services == {} && s.http == CLOSED && s.ws == CLOSED
  }

  /** With every close succeeding: the sockets open are exactly those of the configured endpoints. */
  ghost predicate SocketsInv(s: Server) {
    && (forall n | n in s.net.sockets :: n < s.net.next)
    && s.net.sockets == Listeners(s)
    && AllDifferent(s)
    && if s.started then Serves(s.ipc, s.config.ipc) else s.ipc == CLOSED
  }

  predicate ClosesAll(closes: Closes) {
    closes.ipc && closes.http && closes.ws
  }

  predicate NothingSticks(e: Event) {
    match e
    case Register(_) => true
    case Start(env) => ClosesAll(env.closes)
    case Stop(closes, _) => ClosesAll(closes)
  }

  lemma EndpointsOnly(s: Server, env: StartEnv)
    requires EndpointsInv(s) && !s.started
    ensures
      var (s', ok) := StartRPC(s, env);
      && s' == s.(inproc := s'.inproc, ipc := s'.ipc, http := s'.http, ws := s'.ws, net := s'.net)
      && (!s.config.ipc ==> s'.ipc == CLOSED)
      && s'.ipc.listener.Some? == s'.ipc.handler
      && if ok then
           s'.inproc && Serves(s'.ipc, s.config.ipc) && Serves(s'.http, s.config.http) && Serves(s'.ws, s.config.ws)
         else s'.http == CLOSED && s'.ws == CLOSED
  {
  }

  lemma StartKeepsLifecycle(s: Server, env: StartEnv)
    requires ChannelsInv(s) && EndpointsInv(s)
    ensures ChannelsInv(Started(s, env)) && EndpointsInv(Started(s, env))
  {
    if !s.started {
      EndpointsOnly(s, env);
    }
  }

  lemma StopKeepsLifecycle(s: Server, closes: Closes)
    requires ChannelsInv(s) && EndpointsInv(s)
    ensures ChannelsInv(Stopped(s, closes)) && EndpointsInv(Stopped(s, closes))
  {
    if s.started {
      assert Upto(s.made) == Upto(s.made - 1) + [s.made - 1];
    }
  }

  lemma StepKeepsLifecycle(s: Server, e: Event)
    requires ChannelsInv(s) && EndpointsInv(s)
    ensures ChannelsInv(Step(s, e)) && EndpointsInv(Step(s, e))
  {
    match e {
      case Register(_) =>
      case Start(env) => StartKeepsLifecycle(s, env);
      case Stop(closes, _) => StopKeepsLifecycle(s, closes);
    }
  }

  lemma StartKeepsSockets(s: Server, env: StartEnv)
    requires EndpointsInv(s) && SocketsInv(s) && ClosesAll(env.closes)
    ensures SocketsInv(Started(s, env))
  {
  }

  lemma StopKeepsSockets(s: Server, closes: Closes)
    requires EndpointsInv(s) && SocketsInv(s) && ClosesAll(closes)
    ensures SocketsInv(Stopped(s, closes))
  {
  }

  lemma StepKeepsSockets(s: Server, e: Event)
    requires EndpointsInv(s) && SocketsInv(s) && NothingSticks(e)
    ensures SocketsInv(Step(s, e))
  {
    match e {
      case Register(_) =>
      case Start(env) => StartKeepsSockets(s, env);
      case Stop(closes, _) => StopKeepsSockets(s, closes);
    }
  }

  /** Whatever fails to open, close or stop: channels and endpoints follow the lifecycle. */
  lemma {:induction false} EveryRunKeepsLifecycle(config: Config, events: seq<Event>)
    ensures ChannelsInv(Run(Initial(config), events)) && EndpointsInv(Run(Initial(config), events))
    ensures Run(Initial(config), events).config == config
  {
    if events != [] {
      EveryRunKeepsLifecycle(config, events[..|events| - 1]);
      StepKeepsLifecycle(Run(Initial(config), events[..|events| - 1]), events[|events| - 1]);
    } else {
      assert Upto(0) == [];
    }
  }

  lemma {:induction false} EveryRunKeepsSockets(config: Config, events: seq<Event>)
    requires forall e | e in events :: NothingSticks(e)
    ensures SocketsInv(Run(Initial(config), events))
  {
    if events != [] {
      EveryRunKeepsSockets(config, events[..|events| - 1]);
      EveryRunKeepsLifecycle(config, events[..|events| - 1]);
      StepKeepsSockets(Run(Initial(config), events[..|events| - 1]), events[|events| - 1]);
    }
  }

  function Count(b: bool): nat {
    if b then 1 else 0
  }

  predicate Holds(e: Endpoint, sockets: set<nat>) {
    e.listener.Some? && e.listener.value in sockets
  }

  /**
   Over any sequence of operations in which every close succeeds: no socket is open while the server
   is not started, and exactly the configured endpoints' sockets are open while it is.
   */
  lemma OpenExactlyWhileStarted(config: Config, events: seq<Event>)
    requires forall e | e in events :: NothingSticks(e)
    ensures
      var s := Run(Initial(config), events);
      && (!s.started ==> s.net.sockets == {})
      && (s.started ==>
            && |s.net.sockets| == Count(config.ipc) + Count(config.http) + Count(config.ws)
            && (Holds(s.ipc, s.net.sockets) <==> config.ipc)
            && (Holds(s.http, s.net.sockets) <==> config.http)
            && (Holds(s.ws, s.net.sockets) <==> config.ws))
  {
    EveryRunKeepsLifecycle(config, events);
    EveryRunKeepsSockets(config, events);
  }

  // ----- which sockets leak -----

  /** The open sockets are those the server holds, all different, and those of `lost`. */
  ghost predicate Books(s: Server, lost: set<nat>) {
    && s.net.sockets == Listeners(s) + lost
    && Listeners(s) !! lost
    && AllDifferent(s)
    && forall n | n in s.net.sockets :: n < s.net.next
  }

  /** A listener let go of although it did not close. */
  function Dropped(e: Endpoint, closes: bool): set<nat> {
    if e.listener.Some? && !closes then {e.listener.value} else {}
  }

  /** What opening the endpoints leaks: a stuck IPC listener replaced, an HTTP one that the rollback drops. */
  function OpeningLeaks(s: Server, env: StartEnv): set<nat> {
    if !env.inproc || (s.config.ipc && !env.ipc) then {}
    else
      Dropped(s.ipc, !s.config.ipc) + RestLeaks(StartIPC(s.(inproc := true)), env)
  }

  /** An HTTP endpoint just opened is dropped again when WebSocket fails. */
  function RestLeaks(s: Server, env: StartEnv): set<nat> {
    if (s.config.http ==> env.http) && s.config.ws && !env.ws then Dropped(StartHTTP(s).http, env.closes.http) else {}
  }

  /** The sockets that an operation leaves open with nobody to close them. */
  function Leaks(s: Server, e: Event): set<nat> {
    match e
    case Register(_) => {}
    case Stop(closes, _) => if s.started then Dropped(s.http, closes.http) + Dropped(s.ws, closes.ws) else {}
    case Start(env) =>
      if s.started || Build(s.constructors, env.build).NotBuilt? then {} else OpeningLeaks(s, env)
  }

  function Lost(config: Config, events: seq<Event>): set<nat> {
    if events == [] then {}
    else
      var before := events[..|events| - 1];
      Lost(config, before) + Leaks(Run(Initial(config), before), events[|events| - 1])
  }

  lemma StartIPCBooks(s: Server, lost: set<nat>)
    requires Books(s, lost)
    ensures Books(StartIPC(s), lost + Dropped(s.ipc, !s.config.ipc))
  {
  }

  lemma StartHTTPBooks(s: Server, lost: set<nat>)
    requires Books(s, lost) && s.http == CLOSED
    ensures Books(StartHTTP(s), lost)
  {
  }

  lemma StartWSBooks(s: Server, lost: set<nat>)
    requires Books(s, lost) && s.ws == CLOSED
    ensures Books(StartWS(s), lost)
  {
  }

  lemma StopIPCBooks(s: Server, lost: set<nat>, closes: Closes)
    requires Books(s, lost)
    ensures Books(StopIPC(s, closes), lost)
  {
  }

  lemma StopHTTPBooks(s: Server, lost: set<nat>, closes: Closes)
    requires Books(s, lost)
    ensures Books(StopHTTP(s, closes), lost + Dropped(s.http, closes.http))
  {
  }

  lemma StopWSBooks(s: Server, lost: set<nat>, closes: Closes)
    requires Books(s, lost)
    ensures Books(StopWS(s, closes), lost + Dropped(s.ws, closes.ws))
  {
  }

  /** The books depend on the endpoints and the sockets alone. */
  lemma SameBooks(s: Server, s': Server, lost: set<nat>, lost': set<nat>)
    requires Books(s, lost) && lost == lost'
    requires s'.ipc == s.ipc && s'.http == s.http && s'.ws == s.ws && s'.net == s.net
    ensures Books(s', lost')
  {
  }

  lemma OpeningIsRest(s: Server, env: StartEnv)
    requires env.inproc && (s.config.ipc ==> env.ipc)
    ensures StartRPC(s, env).0 == OpenRest(StartIPC(s.(inproc := true)), env)
  {
  }

  lemma OpeningBooks(s: Server, lost: set<nat>, env: StartEnv)
    requires Books(s, lost) && s.http == CLOSED && s.ws == CLOSED
    ensures Books(StartRPC(s, env).0, lost + OpeningLeaks(s, env))
  {
    if !env.inproc || (s.config.ipc && !env.ipc) {
      SameBooks(s, StartRPC(s, env).0, lost, lost + {});
    } else {
      var s1 := s.(inproc := true);
      var lost1 := lost + Dropped(s.ipc, !s.config.ipc);
      SameBooks(s, s1, lost, lost);
      StartIPCBooks(s1, lost);
      OpeningRest(StartIPC(s1), lost1, env);
      OpeningIsRest(s, env);
      assert lost1 + RestLeaks(StartIPC(s1), env) == lost + OpeningLeaks(s, env);
    }
  }

  /** startRPC from the point where IPC is up. */
  function OpenRest(s: Server, env: StartEnv): Server {
    if s.config.http && !env.http then StopInProc(StopIPC(s, env.closes))
    else if s.config.ws && !env.ws then StopInProc(StopIPC(StopHTTP(StartHTTP(s), env.closes), env.closes))
    else StartWS(StartHTTP(s))
  }

  lemma OpeningRest(s: Server, lost: set<nat>, env: StartEnv)
    requires Books(s, lost) && s.http == CLOSED && s.ws == CLOSED
    ensures Books(OpenRest(s, env), lost + RestLeaks(s, env))
  {
    if s.config.http && !env.http {
      StopIPCBooks(s, lost, env.closes);
      SameBooks(StopIPC(s, env.closes), OpenRest(s, env), lost, lost + {});
    } else {
      var s3 := StartHTTP(s);
      StartHTTPBooks(s, lost);
      if s.config.ws && !env.ws {
        StopHTTPBooks(s3, lost, env.closes);
        StopIPCBooks(StopHTTP(s3, env.closes), lost + Dropped(s3.http, env.closes.http), env.closes);
      } else {
        StartWSBooks(s3, lost);
        SameBooks(StartWS(s3), OpenRest(s, env), lost, lost + {});
      }
    }
  }

  lemma StopBooks(s: Server, lost: set<nat>, closes: Closes)
    requires Books(s, lost)
    ensures Books(StopIPC(StopHTTP(StopWS(s, closes), closes), closes), lost + (Dropped(s.http, closes.http) + Dropped(s.ws, closes.ws)))
  {
    var s1, lost1 := StopWS(s, closes), lost + Dropped(s.ws, closes.ws);
    var s2, lost2 := StopHTTP(s1, closes), lost1 + Dropped(s1.http, closes.http);
    StopWSBooks(s, lost, closes);
    StopHTTPBooks(s1, lost1, closes);
    StopIPCBooks(s2, lost2, closes);
    assert lost2 == lost + (Dropped(s.http, closes.http) + Dropped(s.ws, closes.ws));
  }

  lemma StepBooks(s: Server, lost: set<nat>, e: Event)
    requires Books(s, lost) && EndpointsInv(s)
    ensures Books(Step(s, e), lost + Leaks(s, e))
  {
    match e {
      case Register(_) => SameBooks(s, Step(s, e), lost, lost + {});
      case Stop(closes, _) =>
        if s.started {
          StopBooks(s, lost, closes);
          SameBooks(StopIPC(StopHTTP(StopWS(s, closes), closes), closes), Step(s, e), lost + Leaks(s, e), lost + Leaks(s, e));
        } else {
          SameBooks(s, s, lost, lost + {});
        }
      case Start(env) =>
        if s.started || Build(s.constructors, env.build).NotBuilt? {
          SameBooks(s, s, lost, lost + {});
        } else {
          OpeningBooks(s, lost, env);
          SameBooks(StartRPC(s, env).0, Step(s, e), lost + Leaks(s, e), lost + Leaks(s, e));
        }
    }
  }

  /**
   Whatever fails: the open sockets are those the server holds and those lost, one by one, to closes that
   failed: HTTP's and WebSocket's at once, IPC's when a later start opens another in its place.
   */
  lemma {:induction false} OpenAreHeldOrLost(config: Config, events: seq<Event>)
    ensures Books(Run(Initial(config), events), Lost(config, events))
  {
    if events != [] {
      var before := events[..|events| - 1];
      OpenAreHeldOrLost(config, before);
      EveryRunKeepsLifecycle(config, before);
      StepBooks(Run(Initial(config), before), Lost(config, before), events[|events| - 1]);
    }
  }

  /** Stop frees every socket exactly when every configured endpoint closes. */
  lemma StopFreesSocketsIff(s: Server, closes: Closes)
    requires EndpointsInv(s) && SocketsInv(s) && s.started
    ensures
      var s' := Stopped(s, closes);
      && (s'.net.sockets == {}
          <==> (s.config.ipc ==> closes.ipc) && (s.config.http ==> closes.http) && (s.config.ws ==> closes.ws))
      && (s'.ipc == CLOSED <==> (s.config.ipc ==> closes.ipc))
      && s'.inproc
  {
  }

  /** No stop channel is ever closed twice: closing a closed channel would panic. */
  lemma NoChannelIsClosedTwice(config: Config, events: seq<Event>)
    ensures
      var closings := Run(Initial(config), events).closings;
      forall i, j | 0 <= i < j < |closings| :: closings[i] != closings[j]
  {
    EveryRunKeepsLifecycle(config, events);
  }

  ghost predicate Stops(events: seq<Event>) {
    exists e :: e in events && e.Stop?
  }

  /** Only a Stop closes a channel, and none is ever opened again. */
  lemma StepCloses(s: Server, e: Event)
    ensures s.closings <= Step(s, e).closings
    ensures s.started && !e.Stop? ==> Step(s, e).started && Step(s, e).stop == s.stop && Step(s, e).closings == s.closings
    ensures s.started && e.Stop? && s.stop.Some? ==> Step(s, e).closings == s.closings + [s.stop.value]
  {
  }

  /** Whoever waits on the current stop channel is released by the first Stop, and by nothing else. */
  lemma {:induction false} WaitEndsWithTheNextStop(s: Server, events: seq<Event>)
    requires ChannelsInv(s) && s.started
    ensures s.stop.value in Run(s, events).closings <==> Stops(events)
    ensures !Stops(events) ==>
              Run(s, events).started && Run(s, events).stop == s.stop && Run(s, events).closings == s.closings
  {
    if events != [] {
      var before, last := events[..|events| - 1], events[|events| - 1];
      WaitEndsWithTheNextStop(s, before);
      StepCloses(Run(s, before), last);
      StopsExtends(before, last);
      assert events == before + [last];
    }
  }

  lemma StopsExtends(before: seq<Event>, last: Event)
    ensures Stops(before + [last]) <==> Stops(before) || last.Stop?
  {
    assert last in before + [last];
    assert forall e | e in before :: e in before + [last];
  }

  // ----- the object -----

  /** The part of the surroundings that outlives a server: its sockets and its channels. */
  class Host {
    var net: Net
    var made: nat
    var closings: seq<nat>

    constructor ()
      ensures net == Net({}, 0) && made == 0 && closings == []
    {
      net, made, closings := Net({}, 0), 0, [];
    }

    method Open() returns (listener: nat)
      modifies this`net
      ensures listener == old(net.next) && net == Listen(old(net)).1
    {
      listener := net.next;
      net := Net(net.sockets + {net.next}, net.next + 1);
    }

    method Close(listener: nat, closes: bool) returns (ok: bool)
      modifies this`net
      ensures ok == closes && net == CloseListener(old(net), listener, closes)
    {
      if closes {
        net := net.(sockets := net.sockets - {listener});
      }
      ok := closes;
    }

    method MakeChannel() returns (c: nat)
      modifies this`made
      ensures c == old(made) && made == c + 1
    {
      c := made;
      made := made + 1;
    }

    method CloseChannel(c: nat)
      requires c < made && c !in closings
      modifies this`closings
      ensures closings == old(closings) + [c]
    {
      closings := closings + [c];
    }
  }

  class RpcServer {
    const config: Config
    const host: Host
    var started: bool
    var serviceFuncs: seq<nat>
    var services: set<Kind>
    var inprocHandler: bool
    var ipcListener: Option<nat>
    var ipcHandler: bool
    var httpListener: Option<nat>
    var httpHandler: bool
    var wsListener: Option<nat>
    var wsHandler: bool
    var stop: Option<nat>

    constructor (config: Config)
      ensures fresh(host) && Valid() && Model() == Initial(config)
    {
      this.config := config;
      host := new Host();
      started, serviceFuncs, services, inprocHandler := false, [], {}, false;
      ipcListener, ipcHandler, httpListener, httpHandler, wsListener, wsHandler := None, false, None, false, None, false;
      stop := None;
      new;
      assert Upto(0) == [];
    }

    ghost function Model(): Server
      reads this, host
    {
      Server(config, started, serviceFuncs, services, inprocHandler, Endpoint(ipcListener, ipcHandler),
             Endpoint(httpListener, httpHandler), Endpoint(wsListener, wsHandler), host.net, stop, host.made, host.closings)
    }

    ghost predicate Valid()
      reads this, host
    {
      ChannelsInv(Model()) && EndpointsInv(Model())
    }

    method Register(build: nat) returns (err: Option<Failure>)
      requires Valid()
      modifies this
      ensures Valid() && Model() == Step(old(Model()), Event.Register(build))
      ensures err == if old(started) then Some(NodeRunning) else None
    {
      StepKeepsLifecycle(Model(), Event.Register(build));
      if started {
        return Some(NodeRunning);
      }
      serviceFuncs := serviceFuncs + [build];
      err := None;
    }

    /** Construct every registered service, or report the first that cannot be. */
    method Construct(build: nat -> Option<Kind>) returns (built: Built)
      ensures built == Build(serviceFuncs, build)
    {
      var kinds: set<Kind> := {};
      for i := 0 to |serviceFuncs|
        invariant Build(serviceFuncs[..i], build) == Kinds(kinds)
      {
        assert serviceFuncs[..i + 1][..i] == serviceFuncs[..i];
        match build(serviceFuncs[i]) {
          case None =>
            BuildFailsEarly(serviceFuncs, build, i + 1);
            return NotBuilt(BadConstructor);
          case Some(kind) =>
            if kind in kinds {
              BuildFailsEarly(serviceFuncs, build, i + 1);
              return NotBuilt(DuplicateService(kind));
            }
            kinds := kinds + {kind};
        }
      }
      assert serviceFuncs[..|serviceFuncs|] == serviceFuncs;
      built := Kinds(kinds);
    }

    /** The rollback of Start, over the services in any order. */
    method StopEach(kinds: set<Kind>, stopFails: set<Kind>) returns (err: Option<Failure>)
      ensures RollbackReturns(kinds, stopFails, err)
    {
      var pending := kinds;
      err := Some(EndpointFailed);
      while pending != {}
        invariant pending <= kinds && kinds - pending !! stopFails
        invariant err == if pending == kinds then Some(EndpointFailed) else None
        decreases |pending|
      {
        var kind :| kind in pending;
        pending := pending - {kind};
        if kind in stopFails {
          return Some(ServiceStopFailed(kind));
        }
        err := None;
      }
    }

    method Start(env: StartEnv) returns (err: Option<Failure>)
      requires Valid()
      modifies this, host
      ensures Valid() && Model() == Step(old(Model()), Event.Start(env))
      ensures StartReturns(old(Model()), env, err)
    {
      ghost var s := Model();
      StepKeepsLifecycle(s, Event.Start(env));
      if started {
        return Some(NodeRunning);
      }
      var built := Construct(env.build);
      if built.NotBuilt? {
        return Some(built.failure);
      }
      var ok := OpenEndpoints(env);
      if !ok {
        err := StopEach(built.kinds, env.stopFails);
        return;
      }
      FinishStart(built.kinds);
      err := None;
    }

    method FinishStart(kinds: set<Kind>)
      modifies this`services, this`started, this`stop, host`made
      ensures
        var s := old(Model());
        Model() == s.(services := kinds, started := true, stop := Some(s.made), made := s.made + 1)
    {
      services := kinds;
      started := true;
      var c := host.MakeChannel();
      stop := Some(c);
    }

    method OpenEndpoints(env: StartEnv) returns (ok: bool)
      modifies this`inprocHandler, this`ipcListener, this`ipcHandler, this`httpListener, this`httpHandler, this`wsListener,
               this`wsHandler, host`net
      ensures (Model(), ok) == StartRPC(old(Model()), env)
    {
      if !env.inproc {
        return false;
      }
      inprocHandler := true;
      ok := OpenIPC(env.ipc);
      if !ok {
        CloseInProc();
        return;
      }
      ok := OpenHTTP(env.http);
      if !ok {
        CloseIPC(env.closes);
        CloseInProc();
        return;
      }
      ok := OpenWS(env.ws);
      if !ok {
        CloseHTTP(env.closes);
        CloseIPC(env.closes);
        CloseInProc();
        return;
      }
    }

    method CloseInProc()
      modifies this`inprocHandler
      ensures Model() == StopInProc(old(Model()))
    {
      inprocHandler := false;
    }

    method OpenIPC(opens: bool) returns (ok: bool)
      modifies this`ipcListener, this`ipcHandler, host`net
      ensures ok <==> !config.ipc || opens
      ensures Model() == if ok then StartIPC(old(Model())) else old(Model())
    {
      if !config.ipc {
        return true;
      }
      if !opens {
        return false;
      }
      var listener := host.Open();
      ipcListener, ipcHandler := Some(listener), true;
      ok := true;
    }

    method CloseIPC(closes: Closes)
      modifies this`ipcListener, this`ipcHandler, host`net
      ensures Model() == StopIPC(old(Model()), closes)
    {
      if ipcListener.Some? {
        var ok := host.Close(ipcListener.value, closes.ipc);
        if !ok {
          return;
        }
        ipcListener := None;
      }
      ipcHandler := false;
    }

    method OpenHTTP(opens: bool) returns (ok: bool)
      modifies this`httpListener, this`httpHandler, host`net
      ensures ok <==> !config.http || opens
      ensures Model() == if ok then StartHTTP(old(Model())) else old(Model())
    {
      if !config.http {
        return true;
      }
      if !opens {
        return false;
      }
      var listener := host.Open();
      httpListener, httpHandler := Some(listener), true;
      ok := true;
    }

    method CloseHTTP(closes: Closes)
      modifies this`httpListener, this`httpHandler, host`net
      ensures Model() == StopHTTP(old(Model()), closes)
    {
      if httpListener.Some? {
        var _ := host.Close(httpListener.value, closes.http);
        httpListener := None;
      }
      httpHandler := false;
    }

    method OpenWS(opens: bool) returns (ok: bool)
      modifies this`wsListener, this`wsHandler, host`net
      ensures ok <==> !config.ws || opens
      ensures Model() == if ok then StartWS(old(Model())) else old(Model())
    {
      if !config.ws {
        return true;
      }
      if !opens {
        return false;
      }
      var listener := host.Open();
      wsListener, wsHandler := Some(listener), true;
      ok := true;
    }

    method CloseWS(closes: Closes)
      modifies this`wsListener, this`wsHandler, host`net
      ensures Model() == StopWS(old(Model()), closes)
    {
      if wsListener.Some? {
        var _ := host.Close(wsListener.value, closes.ws);
        wsListener := None;
      }
      wsHandler := false;
    }

    /** Stop every service and collect those that fail to. */
    method StopServices(stopFails: set<Kind>) returns (failed: set<Kind>)
      ensures failed == services * stopFails
    {
      var pending := services;
      failed := {};
      while pending != {}
        invariant pending <= services && failed == (services - pending) * stopFails
        decreases |pending|
      {
        var kind :| kind in pending;
        pending := pending - {kind};
        if kind in stopFails {
          failed := failed + {kind};
        }
      }
    }

    method Stop(closes: Closes, stopFails: set<Kind>) returns (err: Option<Failure>)
      requires Valid()
      modifies this, host
      ensures Valid() && Model() == Step(old(Model()), Event.Stop(closes, stopFails))
      ensures
        err == if !old(started) then Some(NodeStopped)
               else if old(services) * stopFails == {} then None
               else Some(StopFailed(old(services) * stopFails))
    {
      StepKeepsLifecycle(Model(), Event.Stop(closes, stopFails));
      if !started {
        return Some(NodeStopped);
      }
      CloseWS(closes);
      CloseHTTP(closes);
      CloseIPC(closes);
      var failed := StopServices(stopFails);
      started := false;
      services := {};
      host.CloseChannel(stop.value);
      err := if failed == {} then None else Some(StopFailed(failed));
    }

    /** Stop, then Start, unless some service failed to stop. */
    method Restart(closes: Closes, stopFails: set<Kind>, env: StartEnv) returns (err: Option<Failure>)
      requires Valid()
      modifies this, host
      ensures Valid()
      ensures
        var stopped := Step(old(Model()), Event.Stop(closes, stopFails));
        if !old(started) then err == Some(NodeStopped) && Model() == old(Model())
        else if old(services) * stopFails != {} then err == Some(StopFailed(old(services) * stopFails)) && Model() == stopped
        else Model() == Step(stopped, Event.Start(env)) && StartReturns(stopped, env, err)
    {
      err := Stop(closes, stopFails);
      if err.Some? {
        return;
      }
      err := Start(env);
    }

    /** The stop channel that Wait blocks on; it returns at once when there is none to wait for. */
    method Wait() returns (c: Option<nat>)
      requires Valid()
      ensures c == if started then Some(host.made - 1) else None
    {
      c := if started then stop else None;
    }

    method RPCHandler() returns (err: Option<Failure>)
      ensures err == if inprocHandler then None else Some(NodeStopped)
    {
      err := if inprocHandler then None else Some(NodeStopped);
    }
  }
}
