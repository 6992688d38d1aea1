/**
  The device bridge's connection side: `handle_packet`, which dispatches one
  decoded packet, and `handle_connection`, the per-connection loop that
  reads packets one at a time and stops on cancellation, on a stream that
  ended, on a panic of the reader or on an ending handler error.

  The `select!` between the cancellation token and the next read is
  modelled by `cancelRound`: the number of the loop round, if any, in which
  cancellation wins the race. Everything the loop reads comes from the
  connection's stream, so the loop ends once the peer's bytes run out.
 */
module Connector {
  import opened Bytes
  import opened Packets
  import opened Reader
  import opened Persistence
  import opened Registration

  /** The (empty) per-session record of the shared session table. */
  datatype Session = Session

  /** `SessionList`: the session table shared by all connection handlers. */
  class SessionList {
    var table: map<Bytes16, Session>

    constructor ()
      ensures table == map[]
    {
      table := map[];
    }
  }

  /** Whether a handler error closes the connection. */
  datatype PacketHandlerError = Ending | NonEnding

  /** `handle_packet`'s result; `IdsExhausted` passes on the model-only
      outcome of a registration that ran out of supplied ids. */
  datatype HandlerOutcome = Handled(result: Result<(), PacketHandlerError>) | IdsExhausted

  /** A handler outcome, the database afterwards and the ids not yet drawn. */
  datatype Step = Step(outcome: HandlerOutcome, store: Store, ids: seq<Bytes16>)

  /** What `handle_packet` does with packet `p`: a registration is handed
      to `handle_registration` and any error from it ends the connection;
      the other messages are accepted without touching anything. */
  function Dispatch(s: Store, ids: seq<Bytes16>, p: ApplicationPacket): (r: Step)
    ensures r.outcome != Handled(Err(NonEnding))
    ensures r.store.users == s.users
    ensures !p.message.RegisterDevice? ==> r == Step(Handled(Ok(())), s, ids)
  {
    match p.message
    case RegisterDevice(data) =>
      var r := Register(s, ids, data);
      var outcome := match r.outcome
        case Registered => Handled(Ok(()))
        case Rejected(_) => Handled(Err(Ending))
        case OutOfIds => IdsExhausted;
      Step(outcome, r.store, r.ids)
    case InitiateConnection(_) => Step(Handled(Ok(())), s, ids)
    case NoOperation => Step(Handled(Ok(())), s, ids)
    case UnregisterDevice(_) => Step(Handled(Ok(())), s, ids)
  }

  /** The dispatch is total and never yields `NonEnding`. A registration ends
      the connection exactly when `handle_registration` returns an error;
      every other message succeeds without any database operation. */
  lemma DispatchOutcomes(s: Store, ids: seq<Bytes16>, p: ApplicationPacket)
    ensures Dispatch(s, ids, p).outcome != Handled(Err(NonEnding))
    ensures p.message.RegisterDevice? ==>
              (Dispatch(s, ids, p).outcome == Handled(Err(Ending))
               <==> Register(s, ids, p.message.register).outcome.Rejected?)
    ensures p.message.RegisterDevice? ==>
              (Dispatch(s, ids, p).outcome == Handled(Ok(()))
               <==> Register(s, ids, p.message.register).outcome.Registered?)
    ensures !p.message.RegisterDevice? ==> Dispatch(s, ids, p) == Step(Handled(Ok(())), s, ids)
  {
  }

  /** `handle_packet`. The session table is passed along and left untouched. */
  method HandlePacket(packet: ApplicationPacket, sessions: SessionList, db: Database, rng: IdSource)
    returns (outcome: HandlerOutcome)
    modifies db, rng
    ensures Step(outcome, db.State(), rng.candidates) == Dispatch(old(db.State()), old(rng.candidates), packet)
    ensures sessions.table == old(sessions.table)
  {
    match packet.message {
      case RegisterDevice(data) =>
        var registration := HandleRegistration(db, rng, data);
        match registration {
          case Registered =>
            return Handled(Ok(()));
          case Rejected(_) =>
            return Handled(Err(Ending));
          case OutOfIds =>
            return IdsExhausted;
        }
      case InitiateConnection(_) =>
      case NoOperation =>
      case UnregisterDevice(_) =>
    }
    return Handled(Ok(()));
  }

  /** How a connection handler ended. */
  datatype ConnectionEnd =
    | Cancelled            // the cancellation token won the select
    | PeerGone             // `CantRead`: the stream ended
    | EndingError          // the handler returned `Ending`
    | Panicked             // the reader panicked
    | CandidatesExhausted  // the supplied ids ran out (model only)

  /** A whole connection: how it ended, the packets handed to the handler in
      order, the unread bytes, the database and the ids not yet drawn. */
  datatype Run = Run(end: ConnectionEnd, handled: seq<ApplicationPacket>, rest: seq<byte>,
                     store: Store, ids: seq<Bytes16>)

  function Prepend(ps: seq<ApplicationPacket>, r: Run): Run
  {
    r.(handled := ps + r.handled)
  }

  /** What one loop round does after its read: stop with an end, or go on.
      `handled` is the packet given to the handler in this round, if any. */
  datatype Round =
    | Stop(end: ConnectionEnd, handled: seq<ApplicationPacket>, store: Store, ids: seq<Bytes16>)
    | Continue(handled: seq<ApplicationPacket>, store: Store, ids: seq<Bytes16>)

  /** One round of `handle_connection` on the outcome of its read: a panic
      or `CantRead` ends the connection, a parse error is skipped, a packet
      is dispatched and the loop goes on unless the handler ends it. */
  function RoundOf(o: ReadOutcome, s: Store, ids: seq<Bytes16>): (r: Round)
    ensures r.Continue? ==> !Terminal(o)
    ensures r.handled == (if o.Packet? then [o.packet] else [])
  {
    match o
    case Abort => Stop(Panicked, [], s, ids)
    case Failed(CantRead) => Stop(PeerGone, [], s, ids)
    case Failed(_) => Continue([], s, ids)
    case Packet(p) =>
      var st := Dispatch(s, ids, p);
      match st.outcome
      case Handled(Err(Ending)) => Stop(EndingError, [p], st.store, st.ids)
      case IdsExhausted => Stop(CandidatesExhausted, [p], st.store, st.ids)
      case Handled(_) => Continue([p], st.store, st.ids)
  }

  /** A round hands the handler at most the packet it read, and changes the
      database and the ids exactly as dispatching that packet does. */
  lemma RoundEffect(o: ReadOutcome, s: Store, ids: seq<Bytes16>)
    ensures var r := RoundOf(o, s, ids);
            ApplyAll(s, ids, r.handled) == (r.store, r.ids)
  {
    var r := RoundOf(o, s, ids);
    if o.Packet? {
      assert r.handled[1..] == [];
    }
  }

  /** The loop's reaction to each read: a panic and `CantRead` end it, a
      header or packet parse error goes round again, and a packet goes round
      again exactly when the handler returns `Ok` or `NonEnding`. */
  lemma RoundOutcomes(o: ReadOutcome, s: Store, ids: seq<Bytes16>)
    ensures o.Abort? ==> RoundOf(o, s, ids) == Stop(Panicked, [], s, ids)
    ensures o == Failed(CantRead) ==> RoundOf(o, s, ids) == Stop(PeerGone, [], s, ids)
    ensures o.Failed? && o.error != CantRead ==> RoundOf(o, s, ids) == Continue([], s, ids)
    ensures o.Packet? ==>
              (RoundOf(o, s, ids).Continue?
               <==> (Dispatch(s, ids, o.packet).outcome.Handled?
                     && Dispatch(s, ids, o.packet).outcome.result != Err(Ending)))
    ensures o.Packet? && Dispatch(s, ids, o.packet).outcome == Handled(Err(Ending)) ==>
              RoundOf(o, s, ids).end == EndingError
  {
  }

  lemma PrependTwice(a: seq<ApplicationPacket>, b: seq<ApplicationPacket>, r: Run)
    ensures Prepend(a, Prepend(b, r)) == Prepend(a + b, r)
  {
    assert a + (b + r.handled) == (a + b) + r.handled;
  }

  /** `handle_connection` from round `round` on, on a stream holding `bytes`. */
  function Connection(bytes: seq<byte>, s: Store, ids: seq<Bytes16>, cancelRound: Option<nat>, round: nat): (r: Run)
    ensures |r.rest| <= |bytes|
    ensures r.store.users == s.users
    ensures r.end == Cancelled ==> cancelRound.Some?
    decreases |bytes|
  {
    if cancelRound == Some(round) then Run(Cancelled, [], bytes, s, ids)
    else
      var f := ReadPacket(bytes);
      var rest := bytes[f.consumed..];
      match RoundOf(f.outcome, s, ids)
      case Stop(end, hs, s', ids') => Run(end, hs, rest, s', ids')
      case Continue(hs, s', ids') => Prepend(hs, Connection(rest, s', ids', cancelRound, round + 1))
  }

  /** The reads a connection would perform if nothing stopped it but the
      stream: one per call, each starting where the previous one stopped. */
  function Frames(bytes: seq<byte>): (fs: seq<Frame>)
    ensures |fs| > 0 && Terminal(fs[|fs| - 1].outcome)
    decreases |bytes|
  {
    var f := ReadPacket(bytes);
    if Terminal(f.outcome) then [f] else [f] + Frames(bytes[f.consumed..])
  }

  /** The packets among a run of reads, in order. */
  function PacketsOf(fs: seq<Frame>): seq<ApplicationPacket>
  {
    if fs == [] then []
    else (if fs[0].outcome.Packet? then [fs[0].outcome.packet] else []) + PacketsOf(fs[1..])
  }

  /** Handle packets one after another, each on the state the previous left. */
  function ApplyAll(s: Store, ids: seq<Bytes16>, ps: seq<ApplicationPacket>): (Store, seq<Bytes16>)
    decreases |ps|
  {
    if ps == [] then (s, ids)
    else
      var st := Dispatch(s, ids, ps[0]);
      ApplyAll(st.store, st.ids, ps[1..])
  }

  /** Handling `a` and then `b` is handling `a + b`. */
  lemma {:induction false} ApplyAllAppend(s: Store, ids: seq<Bytes16>, a: seq<ApplicationPacket>, b: seq<ApplicationPacket>)
    ensures ApplyAll(s, ids, a + b) == ApplyAll(ApplyAll(s, ids, a).0, ApplyAll(s, ids, a).1, b)
    decreases |a|
  {
    if a == [] {
      assert a + b == b;
    } else {
      var st := Dispatch(s, ids, a[0]);
      assert (a + b)[0] == a[0];
      assert (a + b)[1..] == a[1..] + b;
      ApplyAllAppend(st.store, st.ids, a[1..], b);
    }
  }

  lemma PacketsOfCons(f: Frame, fs: seq<Frame>)
    ensures PacketsOf([f] + fs) == (if f.outcome.Packet? then [f.outcome.packet] else []) + PacketsOf(fs)
  {
    assert ([f] + fs)[1..] == fs;
  }

  /** `a` is what is left of `b` after dropping some of its first bytes. */
  predicate Suffix(a: seq<byte>, b: seq<byte>)
  {
    |a| <= |b| && a == b[|b| - |a|..]
  }

  lemma SuffixDrop(b: seq<byte>, n: nat)
    requires n <= |b|
    ensures Suffix(b[n..], b)
  {
  }

  lemma SuffixTrans(a: seq<byte>, b: seq<byte>, c: seq<byte>)
    requires Suffix(a, b) && Suffix(b, c)
    ensures Suffix(a, c)
  {
    assert c[|c| - |b|..][|b| - |a|..] == c[|c| - |a|..];
  }

  /** Arrival order: the handler sees a prefix of the packets the stream
      holds, in stream order, each exactly once, and the bytes left unread are
      a suffix of the stream. */
  lemma {:induction false} ConnectionInOrder(bytes: seq<byte>, s: Store, ids: seq<Bytes16>,
                                             cancelRound: Option<nat>, round: nat)
    ensures var r := Connection(bytes, s, ids, cancelRound, round);
            r.handled <= PacketsOf(Frames(bytes)) && Suffix(r.rest, bytes)
    decreases |bytes|
  {
    var r := Connection(bytes, s, ids, cancelRound, round);
    if cancelRound == Some(round) {
      SuffixDrop(bytes, 0);
    } else {
      var f := ReadPacket(bytes);
      var rest := bytes[f.consumed..];
      var rd := RoundOf(f.outcome, s, ids);
      SuffixDrop(bytes, f.consumed);
      if Terminal(f.outcome) {
        PacketsOfCons(f, []);
      } else {
        PacketsOfCons(f, Frames(rest));
        if rd.Continue? {
          ConnectionInOrder(rest, rd.store, rd.ids, cancelRound, round + 1);
          SuffixTrans(r.rest, rest, bytes);
        }
      }
    }
  }

  /** One at a time: the database and the id generator end up exactly as if
      the handled packets were dispatched one after another in order, each
      dispatch completing before the next packet is taken. */
  lemma {:induction false} ConnectionSequential(bytes: seq<byte>, s: Store, ids: seq<Bytes16>,
                                                cancelRound: Option<nat>, round: nat)
    ensures var r := Connection(bytes, s, ids, cancelRound, round);
            ApplyAll(s, ids, r.handled) == (r.store, r.ids)
    decreases |bytes|
  {
    if cancelRound != Some(round) {
      var f := ReadPacket(bytes);
      var rest := bytes[f.consumed..];
      var rd := RoundOf(f.outcome, s, ids);
      RoundEffect(f.outcome, s, ids);
      if rd.Continue? {
        ConnectionSequential(rest, rd.store, rd.ids, cancelRound, round + 1);
        var next := Connection(rest, rd.store, rd.ids, cancelRound, round + 1);
        assert Connection(bytes, s, ids, cancelRound, round) == Prepend(rd.handled, next);
        ApplyAllAppend(s, ids, rd.handled, next.handled);
      }
    }
  }

  /** Cancellation in round `n` stops the loop after at most `n - round`
      packets. */
  lemma {:induction false} ConnectionCancelBound(bytes: seq<byte>, s: Store, ids: seq<Bytes16>,
                                                 cancelRound: Option<nat>, round: nat)
    requires cancelRound.Some? && round <= cancelRound.value
    ensures |Connection(bytes, s, ids, cancelRound, round).handled| <= cancelRound.value - round
    decreases |bytes|
  {
    if cancelRound != Some(round) {
      var f := ReadPacket(bytes);
      var rd := RoundOf(f.outcome, s, ids);
      if rd.Continue? {
        var rest := Connection(bytes[f.consumed..], rd.store, rd.ids, cancelRound, round + 1);
        ConnectionCancelBound(bytes[f.consumed..], rd.store, rd.ids, cancelRound, round + 1);
        assert Connection(bytes, s, ids, cancelRound, round) == Prepend(rd.handled, rest);
        assert |rd.handled| <= 1;
      }
    }
  }

  /** How a connection ends when only its last read stops it. */
  function StreamEnd(fs: seq<Frame>): ConnectionEnd
    requires |fs| > 0
  {
    if fs[|fs| - 1].outcome.Abort? then Panicked else PeerGone
  }

  /** Without cancellation and without registrations, the loop goes on past
      every successful read and every header or packet parse error, hands
      every packet of the stream to the handler, touches no table, and ends
      with the stream: `Panicked` when the last read panicked, `PeerGone`
      when it was `CantRead`. */
  lemma {:induction false} ConnectionRunsToEnd(bytes: seq<byte>, s: Store, ids: seq<Bytes16>, round: nat)
    requires forall p :: p in PacketsOf(Frames(bytes)) ==> !p.message.RegisterDevice?
    ensures var r := Connection(bytes, s, ids, None, round);
            && r.handled == PacketsOf(Frames(bytes))
            && r.store == s && r.ids == ids
            && r.end == StreamEnd(Frames(bytes))
    decreases |bytes|
  {
    var f := ReadPacket(bytes);
    var rest := bytes[f.consumed..];
    if Terminal(f.outcome) {
      PacketsOfCons(f, []);
      assert Frames(bytes) == [f];
      assert Connection(bytes, s, ids, None, round) == Run(StreamEnd([f]), [], rest, s, ids);
    } else {
      var tail := Frames(rest);
      assert Frames(bytes) == [f] + tail;
      PacketsOfCons(f, tail);
      if f.outcome.Packet? {
        DispatchOutcomes(s, ids, f.outcome.packet);
      }
      assert RoundOf(f.outcome, s, ids) == Continue(PacketsOf([f]), s, ids);
      ConnectionRunsToEnd(rest, s, ids, round + 1);
      assert Connection(bytes, s, ids, None, round)
          == Prepend(PacketsOf([f]), Connection(rest, s, ids, None, round + 1));
      assert StreamEnd(Frames(bytes)) == StreamEnd(tail);
    }
  }

  /** One round of `handle_connection`'s loop after the cancellation check:
      read a packet and, if one came, hand it to `handle_packet`. `stop` is
      how the connection ends if this round ends it; `got` is the packet
      handed to the handler, if any. */
  method HandleRound(socket: TcpStream, sessions: SessionList, db: Database, rng: IdSource)
    returns (stop: Option<ConnectionEnd>, got: seq<ApplicationPacket>)
    modifies socket, db, rng
    ensures var f := ReadPacket(old(socket.pending));
            var rd := RoundOf(f.outcome, old(db.State()), old(rng.candidates));
            && socket.pending == old(socket.pending)[f.consumed..]
            && got == rd.handled && db.State() == rd.store && rng.candidates == rd.ids
            && stop == (if rd.Stop? then Some(rd.end) else None)
    ensures sessions.table == old(sessions.table)
  {
    var readResult := ReadPacketAsync(socket);
    match readResult {
      case Packet(packet) =>
        var result := HandlePacket(packet, sessions, db, rng);
        got := [packet];
        match result {
          case Handled(Err(Ending)) =>
            stop := Some(EndingError);
          case IdsExhausted =>
            stop := Some(CandidatesExhausted);
          case Handled(_) =>
            stop := None;
        }
      case Failed(CantRead) =>
        stop, got := Some(PeerGone), [];
      case Failed(_) =>
        stop, got := None, [];
      case Abort =>
        stop, got := Some(Panicked), [];
    }
  }

  /** `handle_connection`: loop until cancelled, until the stream ends or the
      reader panics, or until the handler returns an ending error; parse
      errors and successfully handled packets go round again. The session
      table is shared with the handler and left untouched. */
  method HandleConnection(socket: TcpStream, sessions: SessionList, cancelRound: Option<nat>,
                          db: Database, rng: IdSource)
    returns (end: ConnectionEnd, handled: seq<ApplicationPacket>)
    modifies socket, db, rng
    ensures Run(end, handled, socket.pending, db.State(), rng.candidates)
            == Connection(old(socket.pending), old(db.State()), old(rng.candidates), cancelRound, 0)
    ensures sessions.table == old(sessions.table)
  {
    var round := 0;
    handled := [];
    while true
      invariant Connection(old(socket.pending), old(db.State()), old(rng.candidates), cancelRound, 0)
                == Prepend(handled, Connection(socket.pending, db.State(), rng.candidates, cancelRound, round))
      decreases |socket.pending|
    {
      if cancelRound == Some(round) {
        return Cancelled, handled;
      }
      ghost var bytes, store, ids, seen := socket.pending, db.State(), rng.candidates, handled;
      ghost var before := Connection(bytes, store, ids, cancelRound, round);
      var stop, got := HandleRound(socket, sessions, db, rng);
      handled := handled + got;
      if stop.Some? {
        assert before == Run(stop.value, got, socket.pending, db.State(), rng.candidates);
        PrependTwice(seen, got, Run(stop.value, [], socket.pending, db.State(), rng.candidates));
        return stop.value, handled;
      }
      ghost var after := Connection(socket.pending, db.State(), rng.candidates, cancelRound, round + 1);
      assert before == Prepend(got, after);
      PrependTwice(seen, got, after);
      round := round + 1;
    }
  }

  /** The tasks `init` spawns: the TCP accept loop and the UDP receiver. */
  datatype Task = AcceptLoop | UdpReceive

  /** `DeviceBridge`: the port, the shared session table and the handles of
      the tasks `init` spawns. */
  class DeviceBridge {
    const port: u16
    const sessions: SessionList
    var tcpListeningTask: Option<Task>
    var udpSocketTask: Option<Task>

    /** `DeviceBridge::new`: an empty session table, then `init`. */
    constructor (port: u16)
      ensures this.port == port && fresh(sessions) && sessions.table == map[]
      ensures tcpListeningTask == Some(AcceptLoop) && udpSocketTask == Some(UdpReceive)
    {
      this.port := port;
      sessions := new SessionList();
      tcpListeningTask := None;
      udpSocketTask := None;
      new;
      Init();
    }

    /** `init`: spawns the two tasks and keeps their handles. */
    method Init()
      modifies this
      ensures tcpListeningTask == Some(AcceptLoop) && udpSocketTask == Some(UdpReceive)
      ensures sessions.table == old(sessions.table)
    {
      tcpListeningTask := Some(AcceptLoop);
      udpSocketTask := Some(UdpReceive);
    }
  }
}
