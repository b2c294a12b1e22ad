/**
 The connection limit of the backup server: one acceptor thread and the handler threads it
 detaches share an atomic counter. An event is one atomic operation, one system call, or the
 creation of a thread.
 */
module BackupServer {
  import opened Collections

  type Socket = nat

  datatype Acceptor =
    | Accepting
    | Accepted(socket: Socket)                  // before fetch_add
    | Counted(socket: Socket, previous: int)    // after it
    | Admitted(socket: Socket)                  // below the limit, about to start a handler
    | Refusing(socket: Socket)                  // gives the count back, then closes
    | Closing(socket: Socket)

  datatype Handler =
    | Serving(socket: Socket)
    | Leaving   // the guard has closed the socket, the count comes next
    | Gone

  /** Sockets are numbered in the order they were accepted. */
  datatype Server = Server(limit: nat, active: int, acceptor: Acceptor, handlers: seq<Handler>,
                           accepted: nat, closed: seq<Socket>)

  datatype Event =
    | Accept
    | FetchAdd
    | CheckLimit
    | NameFails         // inet_ntop
    | StartHandler
    | StartFails        // std::thread throws
    | GiveBack
    | CloseRefused
    | HandlerCloses(h: nat)
    | HandlerGivesBack(h: nat)

  predicate Enabled(s: Server, e: Event) {
    match e
    case Accept => s.acceptor == Accepting
    case FetchAdd => s.acceptor.Accepted?
    case CheckLimit => s.acceptor.Counted?
    case NameFails => s.acceptor.Admitted?
    case StartHandler => s.acceptor.Admitted?
    case StartFails => s.acceptor.Admitted?
    case GiveBack => s.acceptor.Refusing?
    case CloseRefused => s.acceptor.Closing?
    case HandlerCloses(h) => h < |s.handlers| && s.handlers[h].Serving?
    case HandlerGivesBack(h) => h < |s.handlers| && s.handlers[h] == Leaving
  }

  function Step(s: Server, e: Event): Server
    requires Enabled(s, e)
  {
    match e
    case Accept => s.(acceptor := Accepted(s.accepted), accepted := s.accepted + 1)
    case FetchAdd =>
      s.(acceptor := Counted(s.acceptor.socket, s.active), active := s.active + 1)
    case CheckLimit =>
      s.(acceptor := if s.acceptor.previous >= s.limit then Refusing(s.acceptor.socket) else Admitted(s.acceptor.socket))
    case NameFails => s.(acceptor := Refusing(s.acceptor.socket))
    case StartHandler => s.(acceptor := Accepting, handlers := s.handlers + [Serving(s.acceptor.socket)])
    case StartFails => s.(acceptor := Refusing(s.acceptor.socket))
    case GiveBack => s.(acceptor := Closing(s.acceptor.socket), active := s.active - 1)
    case CloseRefused => s.(acceptor := Accepting, closed := s.closed + [s.acceptor.socket])
    case HandlerCloses(h) =>
      s.(handlers := s.handlers[h := Leaving], closed := s.closed + [s.handlers[h].socket])
    case HandlerGivesBack(h) => s.(handlers := s.handlers[h := Gone], active := s.active - 1)
  }

  function Started(limit: nat): Server { Server(limit, 0, Accepting, [], 0, []) }

  function Execute(s: Server, events: seq<Event>): Option<Server> {
    if |events| == 0 then Some(s) else
    var before := Execute(s, events[..|events| - 1]);
    var e := events[|events| - 1];
    if before.Some? && Enabled(before.value, e) then Some(Step(before.value, e)) else None
  }

  function IsLive(h: Handler): nat { if h == Gone then 0 else 1 }

  function Live(s: Server): nat { Sum(s.handlers, IsLive) }

  function Held(a: Acceptor): nat { if a.Counted? || a.Admitted? || a.Refusing? then 1 else 0 }

  function Serves(x: Socket): Handler -> nat { (h: Handler) => if h == Serving(x) then 1 else 0 }

  function InAcceptor(a: Acceptor, x: Socket): nat { if a != Accepting && a.socket == x then 1 else 0 }

  /** The counter is the live handlers and the slot the acceptor holds; nobody passes the limit. */
  ghost predicate CountIsRight(s: Server) {
    && s.active == Live(s) + Held(s.acceptor)
    && Live(s) <= s.limit
    && (s.acceptor.Counted? ==> Live(s) <= s.acceptor.previous)
    && (s.acceptor.Admitted? ==> Live(s) < s.limit)
  }

  /** An accepted socket is with the acceptor, with one handler, or closed once. */
  ghost predicate InOnePlace(s: Server, x: Socket) {
    Sum(s.closed, Is(x)) + Sum(s.handlers, Serves(x)) + InAcceptor(s.acceptor, x) == if x < s.accepted then 1 else 0
  }

  ghost predicate Inv(s: Server) { CountIsRight(s) && forall x: Socket :: InOnePlace(s, x) }

  lemma AcceptorKeepsSockets(s: Server, e: Event, x: Socket)
    requires InOnePlace(s, x) && Enabled(s, e) && !e.HandlerCloses? && !e.HandlerGivesBack?
    ensures InOnePlace(Step(s, e), x)
  {
    if e.StartHandler? {
      SumSnoc(s.handlers, Serving(s.acceptor.socket), Serves(x));
    } else if e.CloseRefused? {
      SumSnoc(s.closed, s.acceptor.socket, Is(x));
    }
  }

  lemma HandlerKeepsSockets(s: Server, e: Event, x: Socket)
    requires InOnePlace(s, x) && Enabled(s, e) && (e.HandlerCloses? || e.HandlerGivesBack?)
    ensures InOnePlace(Step(s, e), x)
  {
    SumUpdate(s.handlers, e.h, Step(s, e).handlers[e.h], Serves(x));
    if e.HandlerCloses? {
      SumSnoc(s.closed, s.handlers[e.h].socket, Is(x));
    }
  }

  lemma AcceptorKeepsCount(s: Server, e: Event)
    requires CountIsRight(s) && Enabled(s, e) && !e.HandlerCloses? && !e.HandlerGivesBack?
    ensures CountIsRight(Step(s, e))
  {
    if e.StartHandler? {
      SumSnoc(s.handlers, Serving(s.acceptor.socket), IsLive);
    }
  }

  lemma HandlerKeepsCount(s: Server, e: Event)
    requires CountIsRight(s) && Enabled(s, e) && (e.HandlerCloses? || e.HandlerGivesBack?)
    ensures CountIsRight(Step(s, e))
  {
    SumUpdate(s.handlers, e.h, Step(s, e).handlers[e.h], IsLive);
  }

  lemma StepKeepsInv(s: Server, e: Event)
    requires Inv(s) && Enabled(s, e)
    ensures Inv(Step(s, e))
  {
    if e.HandlerCloses? || e.HandlerGivesBack? {
      HandlerKeepsCount(s, e);
      forall x: Socket { HandlerKeepsSockets(s, e, x); }
    } else {
      AcceptorKeepsCount(s, e);
      forall x: Socket { AcceptorKeepsSockets(s, e, x); }
    }
  }

  lemma {:induction false} EveryRunKeepsInv(limit: nat, events: seq<Event>)
    requires Execute(Started(limit), events).Some?
    ensures Inv(Execute(Started(limit), events).value)
  {
    if |events| > 0 {
      EveryRunKeepsInv(limit, events[..|events| - 1]);
      StepKeepsInv(Execute(Started(limit), events[..|events| - 1]).value, events[|events| - 1]);
    }
  }

  lemma {:induction false} NobodyServes(handlers: seq<Handler>, x: Socket)
    requires forall i :: 0 <= i < |handlers| ==> handlers[i] == Gone
    ensures Sum(handlers, Serves(x)) == 0 && Sum(handlers, IsLive) == 0
  {
    if |handlers| > 0 {
      NobodyServes(handlers[..|handlers| - 1], x);
    }
  }

  /** When every handler has ended, the counter is back to zero and each accepted socket has been
      closed exactly once. */
  lemma QuietServerHasClosedAll(limit: nat, events: seq<Event>, x: Socket)
    requires Execute(Started(limit), events).Some?
    requires var s := Execute(Started(limit), events).value;
             s.acceptor == Accepting && forall i :: 0 <= i < |s.handlers| ==> s.handlers[i] == Gone
    ensures var s := Execute(Started(limit), events).value;
            s.active == 0 && Sum(s.closed, Is(x)) == if x < s.accepted then 1 else 0
  {
    EveryRunKeepsInv(limit, events);
    var s := Execute(Started(limit), events).value;
    NobodyServes(s.handlers, x);
    assert InOnePlace(s, x);
  }

  /** Every connection so far has a handler, or is about to get one. */
  ghost predicate AllServed(s: Server) {
    && !s.acceptor.Refusing? && !s.acceptor.Closing?
    && |s.handlers| + (if s.acceptor == Accepting then 0 else 1) == s.accepted
    && (s.acceptor.Counted? ==> s.acceptor.previous <= |s.handlers|)
  }

  lemma {:induction false} LiveAreHandlers(handlers: seq<Handler>)
    ensures Sum(handlers, IsLive) <= |handlers|
  {
    if |handlers| > 0 {
      LiveAreHandlers(handlers[..|handlers| - 1]);
    }
  }

  lemma StepServes(s: Server, e: Event)
    requires CountIsRight(s) && AllServed(s) && Enabled(s, e) && e != NameFails && e != StartFails
    requires s.accepted <= s.limit
    ensures AllServed(Step(s, e)) && Step(s, e).limit == s.limit && s.accepted <= Step(s, e).accepted
  {
    LiveAreHandlers(s.handlers);
  }

  lemma {:induction false} KeepsItsLimit(limit: nat, events: seq<Event>)
    requires Execute(Started(limit), events).Some?
    ensures Execute(Started(limit), events).value.limit == limit
  {
    if |events| > 0 {
      KeepsItsLimit(limit, events[..|events| - 1]);
    }
  }

  /** As many connections as the limit allows are all served: while no more were accepted, none is
      refused unless its name or its thread cannot be had. */
  lemma {:induction false} FewConnectionsAreServed(limit: nat, events: seq<Event>)
    requires Execute(Started(limit), events).Some? && NameFails !in events && StartFails !in events
    requires Execute(Started(limit), events).value.accepted <= limit
    ensures AllServed(Execute(Started(limit), events).value)
  {
    if |events| > 0 {
      var before, e := events[..|events| - 1], events[|events| - 1];
      var s := Execute(Started(limit), before).value;
      assert s.accepted <= Step(s, e).accepted;
      FewConnectionsAreServed(limit, before);
      EveryRunKeepsInv(limit, before);
      KeepsItsLimit(limit, before);
      StepServes(s, e);
    }
  }

  lemma StartIsInv(limit: nat)
    ensures Inv(Started(limit))
  {
  }

  const SIZE_LIMIT := 0x1_0000_0000_0000_0000

  /** The server with its counter as it is stored, 64 bits wide. Each method is one event. */
  class TcpServer {
    const limit: nat
    var active: nat
    var acceptor: Acceptor
    var handlers: seq<Handler>
    var accepted: nat
    var closed: seq<Socket>

    ghost function View(): Server
      reads this
    {
      Server(limit, active, acceptor, handlers, accepted, closed)
    }

    ghost predicate Valid()
      reads this
    {
      Inv(View()) && limit < SIZE_LIMIT && active < SIZE_LIMIT
    }

    constructor (maxConnections: nat)
      requires maxConnections < SIZE_LIMIT
      ensures Valid() && View() == Started(maxConnections)
    {
      limit, active, acceptor, handlers, accepted, closed := maxConnections, 0, Accepting, [], 0, [];
      new;
      StartIsInv(maxConnections);
    }

    /** The old value; the sum is cut to 64 bits, which changes nothing here: only with the largest
        size_t as limit does it take fewer live handlers than there are numbers. */
    method FetchAdd() returns (previous: nat)
      requires Valid() && acceptor.Accepted? && (limit + 1 < SIZE_LIMIT || |handlers| + 1 < SIZE_LIMIT)
      modifies this`active
      ensures previous == old(active) && active == old(active) + 1 < SIZE_LIMIT
    {
      LiveAreHandlers(handlers);
      previous := active;
      active := (active + 1) % SIZE_LIMIT;
    }

    /** The difference wraps below zero, which does not come up while somebody holds a slot. */
    method FetchSub()
      requires 0 < active < SIZE_LIMIT
      modifies this`active
      ensures active == old(active) - 1
    {
      active := (active + SIZE_LIMIT - 1) % SIZE_LIMIT;
    }

    method AcceptConnection()
      requires Valid() && acceptor == Accepting
      modifies this
      ensures Valid() && View() == Step(old(View()), Accept)
    {
      StepKeepsInv(View(), Accept);
      acceptor := Accepted(accepted);
      accepted := accepted + 1;
    }

    method CountConnection()
      requires Valid() && acceptor.Accepted? && (limit + 1 < SIZE_LIMIT || |handlers| + 1 < SIZE_LIMIT)
      modifies this
      ensures Valid() && View() == Step(old(View()), Event.FetchAdd)
    {
      StepKeepsInv(View(), Event.FetchAdd);
      var previous := FetchAdd();
      acceptor := Counted(acceptor.socket, previous);
    }

    method CompareWithLimit()
      requires Valid() && acceptor.Counted?
      modifies this
      ensures Valid() && View() == Step(old(View()), CheckLimit)
      ensures acceptor == if old(acceptor.previous) >= limit then Refusing(old(acceptor.socket)) else Admitted(old(acceptor.socket))
    {
      StepKeepsInv(View(), CheckLimit);
      if acceptor.previous >= limit {
        acceptor := Refusing(acceptor.socket);
      } else {
        acceptor := Admitted(acceptor.socket);
      }
    }

    /** Resolves the peer's name and detaches a handler, either of which may fail. */
    method Detach(named: bool, started: bool)
      requires Valid() && acceptor.Admitted?
      modifies this
      ensures Valid()
      ensures View() == Step(old(View()), if !named then NameFails else if started then StartHandler else StartFails)
    {
      StepKeepsInv(View(), if !named then NameFails else if started then StartHandler else StartFails);
      if named && started {
        handlers := handlers + [Serving(acceptor.socket)];
        acceptor := Accepting;
      } else {
        acceptor := Refusing(acceptor.socket);
      }
    }

    method GiveSlotBack()
      requires Valid() && acceptor.Refusing?
      modifies this
      ensures Valid() && View() == Step(old(View()), GiveBack)
    {
      StepKeepsInv(View(), GiveBack);
      FetchSub();
      acceptor := Closing(acceptor.socket);
    }

    method CloseConnection()
      requires Valid() && acceptor.Closing?
      modifies this
      ensures Valid() && View() == Step(old(View()), CloseRefused)
    {
      StepKeepsInv(View(), CloseRefused);
      closed := closed + [acceptor.socket];
      acceptor := Accepting;
    }

    /** The guard's destructor, first half. */
    method CloseHandled(h: nat)
      requires Valid() && h < |handlers| && handlers[h].Serving?
      modifies this
      ensures Valid() && View() == Step(old(View()), HandlerCloses(h))
    {
      StepKeepsInv(View(), HandlerCloses(h));
      closed := closed + [handlers[h].socket];
      handlers := handlers[h := Leaving];
    }

    /** The guard's destructor, second half. */
    method LeaveHandler(h: nat)
      requires Valid() && h < |handlers| && handlers[h] == Leaving
      modifies this
      ensures Valid() && View() == Step(old(View()), HandlerGivesBack(h))
    {
      StepKeepsInv(View(), HandlerGivesBack(h));
      SumUpdate(handlers, h, Gone, IsLive);
      FetchSub();
      handlers := handlers[h := Gone];
    }
  }
}
