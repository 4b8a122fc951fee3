/** The rfcomm part of one IPC connection (app/src/core/src/rfcomm.rs) and the stack it talks to
    (app/src/crates/bt-host/src/rfcomm.rs), as a state machine over atomic steps.

    `Conn` is what the connection's object holds: the sets under the `inner` lock, the queue to the
    writer and the byte counter. `World` adds the environment: the stack's channels, the open tasks,
    the request that is being handled, the writer and the closes handed to the stack's thread. A data
    event is three steps (load, add, put), because the writer lowers the counter without the lock. */
module Rfcomm {
  import Octets = Bytes
  import opened Options
  import Base64

  const MAX_PENDING_BYTES: nat := 0x10_0000

  type Payload = seq<Octets.byte>

  /** A payload as base64 text. */
  type Text = string

  datatype Reason = Remote | Disconnected | Stopped | Overflow

  datatype Msg =
    | Opened(ch: nat)
    | Data(ch: nat, text: Text)
    | Closed(ch: nat, reason: Reason)
    | Response(id: nat)

  datatype Queued = Queued(msg: Msg, bytes: nat)

  function DataEvent(ch: nat, text: Text): Queued { Queued(Data(ch, text), |text|) }

  function ClosedEvent(ch: nat, reason: Reason): Queued { Queued(Closed(ch, reason), 0) }

  function OpenAnswer(ch: nat): Queued { Queued(Opened(ch), 0) }

  datatype Conn = Conn(
    owned: set<nat>, closed: set<nat>, held: seq<(nat, Queued)>, ended: bool,
    queue: seq<Queued>, pending: int)

  // ---- What runs under the lock, on the connection alone ----

  function Put(g: Conn, id: nat, q: Queued): Conn {
    if id !in g.owned then g.(held := g.held + [(id, q)])
    else g.(owned := if q.msg.Closed? then g.owned - {id} else g.owned, queue := g.queue + [q])
  }

  /** Held events of channel ch, in order, go through `Put`; those of other channels are held again. */
  function Replay(g: Conn, ch: nat, events: seq<(nat, Queued)>): (r: Conn)
    ensures g.queue <= r.queue
    decreases |events|
  {
    if events == [] then g
    else
      var (id, q) := events[0];
      Replay(if id == ch then Put(g, id, q) else g.(held := g.held + [(id, q)]), ch, events[1..])
  }

  /** The open task's critical section when the connection has not ended. */
  function AnswerOpen(g: Conn, ch: nat): Conn {
    Replay(g.(owned := g.owned + {ch}, queue := g.queue + [OpenAnswer(ch)], held := []), ch, g.held)
  }

  predicate Drops(g: Conn, ch: nat) { g.ended || ch in g.closed }

  predicate Overflows(g: Conn, bytes: nat) { g.pending + bytes > MAX_PENDING_BYTES }

  function TakeClose(g: Conn, ch: nat): Conn { g.(owned := g.owned - {ch}, closed := g.closed + {ch}) }

  function End(g: Conn): Conn { g.(ended := true, held := [], owned := {}) }

  // ---- The environment ----

  datatype Closer = ByStack | ByOverflow | ByClient | ByDrop | ByOpenTask

  /** A channel the stack opened. `Closing`: its close was taken, queued data still goes out. */
  datatype Chan = Live | Closing(closer: Closer) | Gone(closer: Closer)

  /** An open the stack answered Ok. `Buffered`: the open task has not run its critical section yet.
      `Lost`: the waiting side's time-out fired while the answer was already in the reply's buffer
      (app/src/crates/bt-host/src/lib.rs:822-829), so the task got an error. */
  datatype Open = Buffered | Answered | Orphaned | Lost

  datatype SinkPc = Idle | Loaded(ch: nat, text: Text, seen: int) | Added(ch: nat, text: Text)

  datatype Request = NoRequest | Checked(ch: nat) | Taken(ch: nat)

  datatype World = World(
    conn: Conn,
    inflight: seq<Queued>,        // taken by the writer, not reported written (at most one)
    written: seq<Queued>,         // history: reported written
    sent: seq<Queued>,            // history: everything ever sent to the writer
    sink: SinkPc,
    request: Request,
    toClose: map<nat, Closer>,    // closes that Drop or an open task still hands to the stack
    posted: map<nat, Closer>,     // closes handed to the stack's thread, not run yet
    stack: map<nat, Chan>,
    opens: map<nat, Open>,
    hostUp: bool,                 // the service offers a stack
    stale: set<nat>,              // channels of stacks it no longer offers: those stop and close them
    taken: map<nat, seq<Queued>>  // history: what the sink made of each channel's events, in order
  )

  const INIT: World :=
    World(Conn({}, {}, [], false, [], 0), [], [], [], Idle, NoRequest, map[], map[], map[], map[], true, {}, map[])

  datatype Step =
    | StackOpens(ch: nat, late: bool)   // late: on a stack that is no longer offered, but still runs
    | OpenLost(ch: nat)
    | OpenFinishes(ch: nat)
    | SinkLoads(ch: nat, payload: Payload)
    | SinkAdds
    | SinkPuts
    | StackCloses(ch: nat, reason: Reason)
    | StackDisconnects(ch: nat)
    | StackTakesClose(ch: nat)
    | ClientChecks(ch: nat, id: nat)
    | ClientTakes
    | ClientPosts
    | Responds(id: nat)
    | WriterTakes
    | WriterReports
    | ConnectionEnds
    | Posts(ch: nat)
    | CloseLost(ch: nat)
    | HostGoes
    | HostReturns

  predicate LockFree(w: World) { w.sink.Idle? }

  predicate Enabled(w: World, s: Step) {
    match s
    case StackOpens(ch, _) => LockFree(w) && ch !in w.stack && ch !in w.opens
    case OpenLost(ch) => ch in w.opens && w.opens[ch].Buffered?
    case OpenFinishes(ch) => LockFree(w) && ch in w.opens && w.opens[ch].Buffered?
    case SinkLoads(ch, _) => LockFree(w) && ch in w.stack && w.stack[ch].Live?
    case SinkAdds => w.sink.Loaded?
    case SinkPuts => w.sink.Added?
    case StackCloses(ch, reason) => LockFree(w) && ch in w.stack && w.stack[ch].Live? && !reason.Overflow?
    case StackDisconnects(ch) => LockFree(w) && ch in w.stack && w.stack[ch].Closing?
    case StackTakesClose(ch) => LockFree(w) && ch in w.posted
    case ClientChecks(_, _) => LockFree(w) && !w.conn.ended && w.request.NoRequest?
    case ClientTakes => LockFree(w) && w.request.Checked?
    case ClientPosts => w.request.Taken?
    case Responds(_) => true
    case WriterTakes => !w.conn.ended && w.inflight == [] && w.conn.queue != []
    case WriterReports => !w.conn.ended && w.inflight != []
    case ConnectionEnds => LockFree(w) && !w.conn.ended && w.request.NoRequest?
    case Posts(ch) => ch in w.toClose
    // asked of a stack that has stopped, or of its successor, which does not know the channel
    case CloseLost(ch) => ch in w.posted && ch in w.stale
    case HostGoes => true
    case HostReturns => !w.hostUp
  }

  function TakenOf(w: World, ch: nat): seq<Queued> { if ch in w.taken then w.taken[ch] else [] }

  /** The event q of channel ch goes through `Put` on connection g, and into the history. */
  function PutEvent(w: World, g: Conn, ch: nat, q: Queued): World {
    w.(conn := Put(g, ch, q),
       sent := if ch in g.owned then w.sent + [q] else w.sent,
       taken := w.taken[ch := TakenOf(w, ch) + [q]])
  }

  function AfterOpenFinishes(w: World, ch: nat): World {
    if w.conn.ended then w.(opens := w.opens[ch := Orphaned], toClose := w.toClose[ch := ByOpenTask])
    else
      var g := AnswerOpen(w.conn, ch);
      w.(conn := g, sent := w.sent + g.queue[|w.conn.queue|..], opens := w.opens[ch := Answered])
  }

  function AfterOverflow(w: World, ch: nat): World {
    PutEvent(w, w.conn.(closed := w.conn.closed + {ch}), ch, ClosedEvent(ch, Overflow)).(
    stack := w.stack[ch := Gone(ByOverflow)])
  }

  function AfterSinkLoads(w: World, ch: nat, payload: Payload): World {
    var text := Base64.Encode(payload);
    if Drops(w.conn, ch) then w
    else if Overflows(w.conn, |text|) then AfterOverflow(w, ch)
    else w.(sink := Loaded(ch, text, w.conn.pending))
  }

  function AfterSinkAdds(w: World): World
    requires w.sink.Loaded?
  {
    w.(sink := Added(w.sink.ch, w.sink.text),
       conn := w.conn.(pending := w.conn.pending + |w.sink.text|))
  }

  function AfterSinkPuts(w: World): World
    requires w.sink.Added?
  {
    PutEvent(w, w.conn, w.sink.ch, DataEvent(w.sink.ch, w.sink.text)).(sink := Idle)
  }

  function AfterStackCloses(w: World, ch: nat, reason: Reason): World {
    var w' := w.(stack := w.stack[ch := Gone(ByStack)]);
    if Drops(w.conn, ch) then w'
    else PutEvent(w', w.conn, ch, ClosedEvent(ch, reason))
  }

  function AfterStackTakesClose(w: World, ch: nat): World
    requires ch in w.posted
  {
    w.(posted := w.posted - {ch},
       stack := if ch in w.stack && w.stack[ch].Live? then w.stack[ch := Closing(w.posted[ch])] else w.stack)
  }

  function Send(w: World, q: Queued): World {
    w.(conn := w.conn.(queue := w.conn.queue + [q]), sent := w.sent + [q])
  }

  function AfterClientChecks(w: World, ch: nat, id: nat): World {
    if ch in w.conn.owned && w.hostUp then w.(request := Checked(ch)) else Send(w, Queued(Response(id), 0))
  }

  function AfterClientTakes(w: World): World
    requires w.request.Checked?
  {
    w.(conn := TakeClose(w.conn, w.request.ch), request := Taken(w.request.ch))
  }

  function AfterClientPosts(w: World): World
    requires w.request.Taken?
  {
    w.(posted := w.posted[w.request.ch := ByClient], request := NoRequest)
  }

  function AfterWriterReports(w: World): World {
    w.(inflight := [], written := w.written + w.inflight,
       conn := w.conn.(pending := w.conn.pending - Bytes(w.inflight)))
  }

  function AfterConnectionEnds(w: World): World {
    w.(conn := End(w.conn), toClose := w.toClose + map ch | ch in w.conn.owned :: ByDrop)
  }

  function AfterPosts(w: World, ch: nat): World
    requires ch in w.toClose
  {
    w.(toClose := w.toClose - {ch},
       posted := if w.hostUp || w.toClose[ch].ByOpenTask? then w.posted[ch := w.toClose[ch]] else w.posted)
  }

  function Apply(w: World, s: Step): World
    requires Enabled(w, s)
  {
    match s
    case StackOpens(ch, late) =>
      w.(stack := w.stack[ch := Live], opens := w.opens[ch := Buffered],
         stale := if late || !w.hostUp then w.stale + {ch} else w.stale)
    case OpenLost(ch) => w.(opens := w.opens[ch := Lost])
    case OpenFinishes(ch) => AfterOpenFinishes(w, ch)
    case SinkLoads(ch, payload) => AfterSinkLoads(w, ch, payload)
    case SinkAdds => AfterSinkAdds(w)
    case SinkPuts => AfterSinkPuts(w)
    case StackCloses(ch, reason) => AfterStackCloses(w, ch, reason)
    case StackDisconnects(ch) => w.(stack := w.stack[ch := Gone(w.stack[ch].closer)])
    case StackTakesClose(ch) => AfterStackTakesClose(w, ch)
    case ClientChecks(ch, id) => AfterClientChecks(w, ch, id)
    case ClientTakes => AfterClientTakes(w)
    case ClientPosts => AfterClientPosts(w)
    case Responds(id) => Send(w, Queued(Response(id), 0))
    case WriterTakes => w.(inflight := [w.conn.queue[0]], conn := w.conn.(queue := w.conn.queue[1..]))
    case WriterReports => AfterWriterReports(w)
    case ConnectionEnds => AfterConnectionEnds(w)
    case Posts(ch) => AfterPosts(w, ch)
    case CloseLost(ch) => w.(posted := w.posted - {ch})
    case HostGoes => w.(hostUp := false, stale := w.stale + w.stack.Keys)
    case HostReturns => w.(hostUp := true)
  }

  function Bytes(qs: seq<Queued>): (n: nat) {
    if qs == [] then 0 else Bytes(qs[..|qs| - 1]) + qs[|qs| - 1].bytes
  }

  function HeldBytes(held: seq<(nat, Queued)>): (n: nat) {
    if held == [] then 0 else HeldBytes(held[..|held| - 1]) + held[|held| - 1].1.bytes
  }

  // ---- Runs ----

  predicate IsRun(steps: seq<Step>)
    decreases |steps|, 0
  {
    steps == [] || (IsRun(steps[..|steps| - 1]) && Enabled(After(steps[..|steps| - 1]), steps[|steps| - 1]))
  }

  function After(steps: seq<Step>): World
    requires IsRun(steps)
    decreases |steps|, 1
  {
    if steps == [] then INIT else Apply(After(steps[..|steps| - 1]), steps[|steps| - 1])
  }

  // ---- What is observed ----

  predicate IsOf(m: Msg, ch: nat) { !m.Response? && m.ch == ch }

  /** The messages of one channel: its open answer and its events. */
  function Of(ch: nat, qs: seq<Queued>): seq<Queued> {
    if qs == [] then []
    else
      var q := qs[|qs| - 1];
      Of(ch, qs[..|qs| - 1]) + if IsOf(q.msg, ch) then [q] else []
  }

  function HeldOf(ch: nat, held: seq<(nat, Queued)>): seq<Queued> {
    if held == [] then []
    else HeldOf(ch, held[..|held| - 1]) + if held[|held| - 1].0 == ch then [held[|held| - 1].1] else []
  }

  function Texts(qs: seq<Queued>): seq<Text> {
    if qs == [] then []
    else
      var m := qs[|qs| - 1].msg;
      Texts(qs[..|qs| - 1]) + if m.Data? then [m.text] else []
  }

  /** The data a client decodes from its messages; none for a text that is no base64. */
  function Decoded(texts: seq<Text>): seq<Option<Payload>> {
    seq(|texts|, i requires 0 <= i < |texts| => Base64.Decode(texts[i]))
  }

  /** The data the stack gave to the sink of channel ch over a run, in order. */
  function Fed(steps: seq<Step>, ch: nat): seq<Payload> {
    if steps == [] then []
    else
      var s := steps[|steps| - 1];
      Fed(steps[..|steps| - 1], ch) + if s.SinkLoads? && s.ch == ch then [s.payload] else []
  }

  function Wrapped(payloads: seq<Payload>): seq<Option<Payload>> {
    seq(|payloads|, i requires 0 <= i < |payloads| => Some(payloads[i]))
  }
}
