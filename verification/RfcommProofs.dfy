/** Invariants of the rfcomm state machine and what they give over every run: the order of each
    channel's messages, the byte account, and who closes every channel the stack opened. */
module RfcommProofs {
  import opened Rfcomm
  import opened Options
  import Base64

  // ---- Sequences of messages ----

  lemma {:induction false} OfAppend(ch: nat, a: seq<Queued>, b: seq<Queued>)
    ensures Of(ch, a + b) == Of(ch, a) + Of(ch, b)
  {
    if b == [] {
      assert a + b == a;
    } else {
      assert (a + b)[..|a + b| - 1] == a + b[..|b| - 1];
      OfAppend(ch, a, b[..|b| - 1]);
    }
  }

  lemma {:induction false} BytesAppend(a: seq<Queued>, b: seq<Queued>)
    ensures Bytes(a + b) == Bytes(a) + Bytes(b)
  {
    if b == [] {
      assert a + b == a;
    } else {
      assert (a + b)[..|a + b| - 1] == a + b[..|b| - 1];
      BytesAppend(a, b[..|b| - 1]);
    }
  }

  lemma {:induction false} TextsAppend(a: seq<Queued>, b: seq<Queued>)
    ensures Texts(a + b) == Texts(a) + Texts(b)
  {
    if b == [] {
      assert a + b == a;
    } else {
      assert (a + b)[..|a + b| - 1] == a + b[..|b| - 1];
      TextsAppend(a, b[..|b| - 1]);
    }
  }

  lemma {:induction false} HeldAppend(ch: nat, a: seq<(nat, Queued)>, b: seq<(nat, Queued)>)
    ensures HeldOf(ch, a + b) == HeldOf(ch, a) + HeldOf(ch, b)
    ensures HeldBytes(a + b) == HeldBytes(a) + HeldBytes(b)
  {
    if b == [] {
      assert a + b == a;
    } else {
      assert (a + b)[..|a + b| - 1] == a + b[..|b| - 1];
      HeldAppend(ch, a, b[..|b| - 1]);
    }
  }

  lemma HeldFirst(ch: nat, s: seq<(nat, Queued)>)
    requires s != []
    ensures HeldOf(ch, s) == (if s[0].0 == ch then [s[0].1] else []) + HeldOf(ch, s[1..])
    ensures HeldBytes(s) == s[0].1.bytes + HeldBytes(s[1..])
  {
    assert s == [s[0]] + s[1..];
    HeldAppend(ch, [s[0]], s[1..]);
    var one: seq<(nat, Queued)> := [s[0]];
    assert one[..0] == [];
  }

  predicate IsEvent(q: Queued, ch: nat) { (q.msg.Data? || q.msg.Closed?) && q.msg.ch == ch }

  /** Events of one channel, a close only as the last. */
  predicate Sound(ch: nat, t: seq<Queued>) {
    forall i :: 0 <= i < |t| ==> IsEvent(t[i], ch) && (t[i].msg.Closed? ==> i == |t| - 1)
  }

  predicate EndsClosed(t: seq<Queued>) { t != [] && t[|t| - 1].msg.Closed? }

  lemma {:induction false} OfEvents(c: nat, ch: nat, t: seq<Queued>)
    requires forall i :: 0 <= i < |t| ==> IsEvent(t[i], ch)
    ensures Of(c, t) == if c == ch then t else []
  {
    if t == [] {
    } else {
      OfEvents(c, ch, t[..|t| - 1]);
      assert t == t[..|t| - 1] + [t[|t| - 1]];
    }
  }

  // ---- Replaying what was held ----

  function NotOf(ch: nat, s: seq<(nat, Queued)>): seq<(nat, Queued)> {
    if s == [] then [] else (if s[0].0 == ch then [] else [s[0]]) + NotOf(ch, s[1..])
  }

  lemma {:induction false} NotOfKeepsOthers(c: nat, ch: nat, s: seq<(nat, Queued)>)
    ensures HeldOf(c, NotOf(ch, s)) == if c == ch then [] else HeldOf(c, s)
  {
    if s == [] {
    } else {
      NotOfKeepsOthers(c, ch, s[1..]);
      HeldFirst(c, s);
      if s[0].0 == ch {
        assert NotOf(ch, s) == NotOf(ch, s[1..]);
      } else {
        HeldFirst(c, NotOf(ch, s));
        assert NotOf(ch, s)[1..] == NotOf(ch, s[1..]);
      }
    }
  }

  lemma {:induction false} NotOfBytes(ch: nat, s: seq<(nat, Queued)>)
    ensures HeldBytes(s) == Bytes(HeldOf(ch, s)) + HeldBytes(NotOf(ch, s))
  {
    if s == [] {
    } else {
      NotOfBytes(ch, s[1..]);
      HeldFirst(ch, s);
      if s[0].0 == ch {
        assert NotOf(ch, s) == NotOf(ch, s[1..]);
        BytesAppend([s[0].1], HeldOf(ch, s[1..]));
        assert [s[0].1][..0] == [];
      } else {
        assert HeldOf(ch, s) == HeldOf(ch, s[1..]);
        HeldFirst(ch, NotOf(ch, s));
        assert NotOf(ch, s)[1..] == NotOf(ch, s[1..]);
      }
    }
  }

  lemma {:induction false} ReplayOthers(g: Conn, ch: nat, s: seq<(nat, Queued)>)
    requires HeldOf(ch, s) == []
    ensures Replay(g, ch, s) == g.(held := g.held + s)
    ensures NotOf(ch, s) == s
    decreases |s|
  {
    hide HeldOf, Replay, NotOf;
    if s == [] {
      assert g.held + s == g.held;
      ReplayNone(g, ch, s);
    } else {
      HeldFirst(ch, s);
      ReplayOther(g, ch, s);
      ReplayOthers(g.(held := g.held + [s[0]]), ch, s[1..]);
      assert g.held + [s[0]] + s[1..] == g.held + s;
      assert s == [s[0]] + s[1..];
    }
  }

  lemma ReplayNone(g: Conn, ch: nat, s: seq<(nat, Queued)>)
    requires s == []
    ensures Replay(g, ch, s) == g && NotOf(ch, s) == s
  {
  }

  lemma ReplayOther(g: Conn, ch: nat, s: seq<(nat, Queued)>)
    requires s != [] && s[0].0 != ch
    ensures Replay(g, ch, s) == Replay(g.(held := g.held + [s[0]]), ch, s[1..])
    ensures NotOf(ch, s) == [s[0]] + NotOf(ch, s[1..])
  {
  }

  /** The connection after an owned channel's held events reached the queue. */
  function Replayed(g: Conn, ch: nat, s: seq<(nat, Queued)>): Conn {
    g.(queue := g.queue + HeldOf(ch, s), held := g.held + NotOf(ch, s),
       owned := if EndsClosed(HeldOf(ch, s)) then g.owned - {ch} else g.owned)
  }

  lemma SoundRest(ch: nat, q: Queued, rest: seq<Queued>)
    requires Sound(ch, [q] + rest)
    ensures Sound(ch, rest) && (q.msg.Closed? ==> rest == [])
    ensures !q.msg.Closed? ==> (EndsClosed([q] + rest) <==> EndsClosed(rest))
  {
    var t := [q] + rest;
    assert t[0] == q;
    assert forall i :: 0 <= i < |rest| ==> rest[i] == t[i + 1];
  }

  /** An owned channel's held events all reach the queue, in order, and its close ends the ownership. */
  lemma {:induction false} ReplayEffect(g: Conn, ch: nat, s: seq<(nat, Queued)>)
    requires ch in g.owned && Sound(ch, HeldOf(ch, s))
    ensures Replay(g, ch, s) == Replayed(g, ch, s)
    decreases |s|
  {
    if s == [] {
      assert g.queue + [] == g.queue && g.held + [] == g.held;
    } else {
      hide HeldOf, EndsClosed, Sound;
      HeldFirst(ch, s);
      if s[0].0 == ch {
        ReplayOwn(g, ch, s);
      } else {
        assert HeldOf(ch, s) == HeldOf(ch, s[1..]);
        assert g.held + [s[0]] + NotOf(ch, s[1..]) == g.held + NotOf(ch, s);
        ReplayEffect(g.(held := g.held + [s[0]]), ch, s[1..]);
        hide NotOf;
      }
    }
  }

  lemma {:induction false} ReplayOwn(g: Conn, ch: nat, s: seq<(nat, Queued)>)
    requires s != [] && s[0].0 == ch
    requires ch in g.owned && Sound(ch, HeldOf(ch, s))
    ensures Replay(g, ch, s) == Replayed(g, ch, s)
    decreases |s|, 0
  {
    hide HeldOf;
    HeldFirst(ch, s);
    var rest := HeldOf(ch, s[1..]);
    SoundRest(ch, s[0].1, rest);
    assert NotOf(ch, s) == NotOf(ch, s[1..]);
    var g1 := Put(g, ch, s[0].1);
    assert g1.queue + rest == g.queue + HeldOf(ch, s);
    if s[0].1.msg.Closed? {
      ReplayOthers(g1, ch, s[1..]);
    } else {
      ReplayEffect(g1, ch, s[1..]);
    }
  }

  // ---- The invariant ----

  predicate Is(w: World, ch: nat, o: Open) { ch in w.opens && w.opens[ch] == o }

  /** Somebody still has to close the channel, will find it when it closes, or its stack stops. */
  predicate Cared(w: World, ch: nat) {
    || ch in w.conn.owned
    || Is(w, ch, Buffered)
    || Is(w, ch, Lost)
    || w.request == Taken(ch)
    || ch in w.toClose
    || ch in w.posted
    || ch in w.stale
  }

  predicate Justified(w: World, ch: nat, by': Closer) {
    match by'
    case ByStack => true
    case ByOverflow =>
      var t := TakenOf(w, ch);
      t != [] && t[|t| - 1] == ClosedEvent(ch, Overflow) && ch in w.conn.closed
    case ByClient => Is(w, ch, Answered) && ch in w.conn.closed
    case ByDrop => Is(w, ch, Answered) && w.conn.ended
    case ByOpenTask => Is(w, ch, Orphaned) && w.conn.ended
  }

  predicate SoundInv(w: World, ch: nat) {
    Sound(ch, TakenOf(w, ch)) && (ch !in w.opens ==> TakenOf(w, ch) == [])
  }

  predicate SaidInv(w: World, ch: nat) {
    Of(ch, w.sent) == if Is(w, ch, Answered) then [OpenAnswer(ch)] + TakenOf(w, ch) else []
  }

  predicate HeldInv(w: World, ch: nat) {
    !w.conn.ended ==> HeldOf(ch, w.conn.held) == if Is(w, ch, Answered) then [] else TakenOf(w, ch)
  }

  predicate MessagesInv(w: World, ch: nat) { SoundInv(w, ch) && SaidInv(w, ch) && HeldInv(w, ch) }

  predicate OwnershipInv(w: World, ch: nat) {
    var sealed := EndsClosed(TakenOf(w, ch));
    && (ch in w.opens <==> ch in w.stack)
    && (!w.conn.ended ==> (ch in w.conn.owned <==> Is(w, ch, Answered) && !sealed && ch !in w.conn.closed))
    && (ch in w.conn.closed ==> sealed || Is(w, ch, Answered))
    && (Is(w, ch, Orphaned) ==> w.conn.ended)
    && (sealed ==> ch in w.stack && w.stack[ch].Gone?)
    && (ch in w.conn.owned ==> ch in w.stack && w.stack[ch].Live?)
    && (Is(w, ch, Buffered) && !w.conn.ended && !sealed ==> ch in w.stack && w.stack[ch].Live?)
    && (w.sink != Idle && w.sink.ch == ch ==>
         ch in w.stack && w.stack[ch].Live? && ch !in w.conn.closed)
  }

  predicate Handed(w: World, ch: nat, by': Closer) {
    !by'.ByStack? && !by'.ByOverflow? && Justified(w, ch, by')
  }

  predicate ClosingInv(w: World, ch: nat) {
    && (ch in w.stack && w.stack[ch].Live? ==> Cared(w, ch))
    && (ch in w.stack && w.stack[ch].Closing? ==> Handed(w, ch, w.stack[ch].closer))
    && (ch in w.stack && w.stack[ch].Gone? ==> Justified(w, ch, w.stack[ch].closer))
    && (ch in w.posted ==> Handed(w, ch, w.posted[ch]))
    && (ch in w.toClose ==> Handed(w, ch, w.toClose[ch]))
    && (w.request == Taken(ch) ==> Is(w, ch, Answered) && ch in w.conn.closed)
    && (w.request == Checked(ch) ==> Is(w, ch, Answered))
    && (ch in w.stack && !w.hostUp ==> ch in w.stale)
  }

  predicate ChannelInv(w: World, ch: nat) {
    MessagesInv(w, ch) && OwnershipInv(w, ch) && ClosingInv(w, ch)
  }

  predicate EndedInv(w: World) {
    w.conn.ended ==> w.conn.owned == {} && w.conn.held == [] && w.sink.Idle? && w.request.NoRequest?
  }

  predicate QueueInv(w: World) { |w.inflight| <= 1 && w.sent == w.written + w.inflight + w.conn.queue }

  predicate AccountInv(w: World) {
    && 0 <= w.conn.pending <= MAX_PENDING_BYTES
    && (!w.conn.ended ==>
         w.conn.pending == HeldBytes(w.conn.held) + Bytes(w.conn.queue) + Bytes(w.inflight)
           + if w.sink.Added? then |w.sink.text| else 0)
    && (w.sink.Loaded? ==>
         w.conn.pending <= w.sink.seen && w.sink.seen + |w.sink.text| <= MAX_PENDING_BYTES)
  }

  ghost predicate Inv(w: World) {
    AccountInv(w) && EndedInv(w) && QueueInv(w) && forall ch: nat :: ChannelInv(w, ch)
  }

  // ---- One step keeps it ----

  /** The open task's critical section, in terms of what was held of its channel. */
  lemma AnswerConn(g: Conn, ch: nat)
    requires ch !in g.owned && Sound(ch, HeldOf(ch, g.held))
    ensures var t := HeldOf(ch, g.held);
            AnswerOpen(g, ch) ==
            g.(queue := g.queue + [OpenAnswer(ch)] + t, held := NotOf(ch, g.held),
               owned := if EndsClosed(t) then g.owned else g.owned + {ch})
  {
    var g1 := g.(owned := g.owned + {ch}, queue := g.queue + [OpenAnswer(ch)], held := []);
    ReplayEffect(g1, ch, g.held);
    assert g.owned + {ch} - {ch} == g.owned;
  }

  lemma AnswerKeepsControl(w: World, ch: nat, c: nat)
    requires Enabled(w, OpenFinishes(ch)) && !w.conn.ended
    requires OwnershipInv(w, c) && ClosingInv(w, c)
    requires var g := AnswerOpen(w.conn, ch);
             && g == w.conn.(queue := g.queue, held := g.held, owned := g.owned)
             && g.owned == if EndsClosed(TakenOf(w, ch)) then w.conn.owned else w.conn.owned + {ch}
    ensures var w' := Apply(w, OpenFinishes(ch)); OwnershipInv(w', c) && ClosingInv(w', c)
  {
  }

  predicate ControlInv(w: World, c: nat) { OwnershipInv(w, c) && ClosingInv(w, c) }

  lemma OpensKeepControl(w: World, s: Step, c: nat)
    requires Enabled(w, s) && ControlInv(w, c)
    requires s.StackOpens? || s.OpenLost? || (s.OpenFinishes? && w.conn.ended)
    ensures ControlInv(Apply(w, s), c)
  {
  }

  lemma OverflowKeepsControl(w: World, ch: nat, c: nat)
    requires ControlInv(w, c)
    requires ch in w.stack && w.stack[ch].Live? && w.sink.Idle? && !Drops(w.conn, ch)
    ensures ControlInv(AfterOverflow(w, ch), c)
  {
  }

  lemma LoadKeepsControl(w: World, ch: nat, text: Text, c: nat)
    requires ch in w.stack && w.stack[ch].Live? && w.sink.Idle? && !Drops(w.conn, ch)
    requires ControlInv(w, c)
    ensures ControlInv(w.(sink := Loaded(ch, text, w.conn.pending)), c)
  {
  }

  lemma PutKeepsControl(w: World, c: nat)
    requires w.sink.Added? && ControlInv(w, c)
    ensures ControlInv(AfterSinkPuts(w), c)
  {
  }

  lemma CloseKeepsControl(w: World, ch: nat, reason: Reason, c: nat)
    requires ControlInv(w, c) && EndedInv(w) && !Drops(w.conn, ch)
    requires ch in w.stack && w.stack[ch].Live? && w.sink.Idle?
    ensures ControlInv(AfterStackCloses(w, ch, reason), c)
  {
    hide Bytes, HeldOf, Of;
    var w' := AfterStackCloses(w, ch, reason);
    assert c != ch ==> TakenOf(w', c) == TakenOf(w, c);
    assert EndsClosed(TakenOf(w', ch));
    hide EndsClosed, TakenOf;
  }

  lemma DropKeepsControl(w: World, ch: nat, c: nat)
    requires ControlInv(w, c) && EndedInv(w) && Drops(w.conn, ch)
    requires ch in w.stack && w.stack[ch].Live? && w.sink.Idle?
    ensures ControlInv(w.(stack := w.stack[ch := Gone(ByStack)]), c)
  {
    hide Bytes, HeldOf, Of;
  }

  lemma DisconnectKeepsControl(w: World, ch: nat, c: nat)
    requires Enabled(w, StackDisconnects(ch)) && ControlInv(w, c)
    ensures ControlInv(Apply(w, StackDisconnects(ch)), c)
  {
    hide EndsClosed;
  }

  lemma TakesCloseKeepsControl(w: World, ch: nat, c: nat)
    requires Enabled(w, StackTakesClose(ch)) && ControlInv(w, c) && EndedInv(w)
    ensures ControlInv(Apply(w, StackTakesClose(ch)), c)
  {
    hide EndsClosed;
  }

  lemma CloseLostKeepsControl(w: World, ch: nat, c: nat)
    requires Enabled(w, CloseLost(ch)) && ControlInv(w, c)
    ensures ControlInv(Apply(w, CloseLost(ch)), c)
  {
    hide EndsClosed;
  }

  lemma CheckKeepsControl(w: World, ch: nat, id: nat, c: nat)
    requires Enabled(w, ClientChecks(ch, id)) && ControlInv(w, c)
    ensures ControlInv(AfterClientChecks(w, ch, id), c)
  {
    hide Bytes, HeldOf, Of;
  }

  lemma TakeKeepsControl(w: World, c: nat)
    requires Enabled(w, ClientTakes) && EndedInv(w) && ControlInv(w, c)
    ensures ControlInv(AfterClientTakes(w), c)
  {
  }

  lemma PostKeepsControl(w: World, s: Step, c: nat)
    requires Enabled(w, s) && ControlInv(w, c)
    requires s.ClientPosts? || s.Posts?
    ensures ControlInv(Apply(w, s), c)
  {
    hide Bytes, HeldOf, Of;
  }

  lemma OthersKeepControl(w: World, s: Step, c: nat)
    requires Enabled(w, s) && ControlInv(w, c)
    requires s.SinkAdds? || s.Responds? || s.WriterTakes? || s.WriterReports?
    ensures ControlInv(Apply(w, s), c)
  {
    hide Bytes, HeldOf, Of;
  }

  lemma HostKeepsControl(w: World, s: Step, c: nat)
    requires Enabled(w, s) && ControlInv(w, c) && (s.HostGoes? || s.HostReturns?)
    ensures ControlInv(Apply(w, s), c)
  {
    hide EndsClosed;
  }

  lemma EndKeepsControl(w: World, c: nat)
    requires Enabled(w, ConnectionEnds) && ControlInv(w, c)
    ensures ControlInv(AfterConnectionEnds(w), c)
  {
  }

  lemma StepKeepsControl(w: World, s: Step, c: nat)
    requires Enabled(w, s) && Inv(w)
    ensures ControlInv(Apply(w, s), c)
  {
    hide Of, Bytes, HeldBytes, Replay;
    assert ChannelInv(w, c);
    match s
    case OpenFinishes(ch) =>
      if w.conn.ended {
        OpensKeepControl(w, s, c);
      } else {
        assert ChannelInv(w, ch);
        AnswerConn(w.conn, ch);
        AnswerKeepsControl(w, ch, c);
      }
    case SinkLoads(ch, payload) =>
      if !Drops(w.conn, ch) {
        if Overflows(w.conn, |Base64.Encode(payload)|) {
          OverflowKeepsControl(w, ch, c);
        } else {
          LoadKeepsControl(w, ch, Base64.Encode(payload), c);
        }
      }
    case SinkPuts => PutKeepsControl(w, c);
    case StackCloses(ch, reason) =>
      if Drops(w.conn, ch) {
        DropKeepsControl(w, ch, c);
      } else {
        CloseKeepsControl(w, ch, reason, c);
      }
    case StackDisconnects(ch) => DisconnectKeepsControl(w, ch, c);
    case StackTakesClose(ch) => TakesCloseKeepsControl(w, ch, c);
    case CloseLost(ch) => CloseLostKeepsControl(w, ch, c);
    case ClientChecks(ch, id) => CheckKeepsControl(w, ch, id, c);
    case ClientTakes => TakeKeepsControl(w, c);
    case ClientPosts => PostKeepsControl(w, s, c);
    case Posts(_) => PostKeepsControl(w, s, c);
    case ConnectionEnds => EndKeepsControl(w, c);
    case StackOpens(_, _) => OpensKeepControl(w, s, c);
    case OpenLost(_) => OpensKeepControl(w, s, c);
    case HostGoes => HostKeepsControl(w, s, c);
    case HostReturns => HostKeepsControl(w, s, c);
    case _ => OthersKeepControl(w, s, c);
  }

  // ---- Messages ----

  lemma SentOne(ch: nat, sent: seq<Queued>, q: Queued)
    ensures Of(ch, sent + [q]) == Of(ch, sent) + if IsOf(q.msg, ch) then [q] else []
  {
    assert (sent + [q])[..|sent|] == sent;
  }

  lemma HeldOne(ch: nat, held: seq<(nat, Queued)>, e: (nat, Queued))
    ensures HeldOf(ch, held + [e]) == HeldOf(ch, held) + if e.0 == ch then [e.1] else []
    ensures HeldBytes(held + [e]) == HeldBytes(held) + e.1.bytes
  {
    assert (held + [e])[..|held|] == held;
  }

  lemma PutSaid(w: World, g: Conn, ch: nat, q: Queued, c: nat)
    requires IsEvent(q, ch) && SaidInv(w, c)
    requires ch in g.owned <==> Is(w, ch, Answered)
    ensures SaidInv(PutEvent(w, g, ch, q), c)
  {
    hide Of;
    SentOne(c, w.sent, q);
    var t := TakenOf(w, ch);
    assert [OpenAnswer(ch)] + t + [q] == [OpenAnswer(ch)] + (t + [q]);
  }

  lemma PutMessages(w: World, g: Conn, ch: nat, q: Queued, c: nat)
    requires IsEvent(q, ch) && ch in w.opens && !EndsClosed(TakenOf(w, ch))
    requires ch in g.owned <==> Is(w, ch, Answered)
    requires g.held == w.conn.held && g.ended == w.conn.ended
    requires MessagesInv(w, c)
    ensures MessagesInv(PutEvent(w, g, ch, q), c)
  {
    hide Of, HeldOf, HeldBytes;
    PutSaid(w, g, ch, q, c);
    HeldOne(c, w.conn.held, (ch, q));
  }

  lemma OfAnswer(c: nat, log: seq<Queued>, ch: nat, t: seq<Queued>)
    requires Sound(ch, t)
    ensures Of(c, log + ([OpenAnswer(ch)] + t)) == Of(c, log) + if c == ch then [OpenAnswer(ch)] + t else []
  {
    hide Of;
    OfAppend(c, log, [OpenAnswer(ch)] + t);
    OfAppend(c, [OpenAnswer(ch)], t);
    OfEvents(c, ch, t);
    OfOneAnswer(c, ch);
  }

  lemma OfOneAnswer(c: nat, ch: nat)
    ensures Of(c, [OpenAnswer(ch)]) == if c == ch then [OpenAnswer(ch)] else []
  {
    var one := [OpenAnswer(ch)];
    assert one[..0] == [];
  }

  lemma AnswerMessages(w: World, ch: nat, c: nat)
    requires Is(w, ch, Buffered) && !w.conn.ended && ch !in w.conn.owned
    requires MessagesInv(w, ch) && MessagesInv(w, c)
    ensures MessagesInv(AfterOpenFinishes(w, ch), c)
  {
    hide Of, HeldOf, NotOf, AnswerOpen, Sound, EndsClosed;
    var w', t := AfterOpenFinishes(w, ch), TakenOf(w, ch);
    assert w'.taken == w.taken && SoundInv(w', c);
    assert w'.sent == w.sent + ([OpenAnswer(ch)] + t) && w'.conn.held == NotOf(ch, w.conn.held) by {
      AnswerConn(w.conn, ch);
    }
    assert SaidInv(w', c) by {
      OfAnswer(c, w.sent, ch, t);
    }
    assert HeldInv(w', c) by {
      NotOfKeepsOthers(c, ch, w.conn.held);
    }
  }

  /** Steps that send nothing of a channel. */
  lemma SilentMessages(w: World, w': World, c: nat)
    requires MessagesInv(w, c)
    requires w'.sent == w.sent || exists id :: w'.sent == w.sent + [Queued(Response(id), 0)]
    requires w'.taken == w.taken && (w'.conn.ended || (w'.conn.held == w.conn.held && !w.conn.ended))
    requires (Is(w', c, Answered) <==> Is(w, c, Answered)) && (c in w.opens ==> c in w'.opens)
    ensures MessagesInv(w', c)
  {
    hide Of, HeldOf;
    if w'.sent != w.sent {
      SentOne(c, w.sent, w'.sent[|w.sent|]);
    }
  }

  lemma LoadKeepsMessages(w: World, ch: nat, payload: Payload, c: nat)
    requires Inv(w) && Enabled(w, SinkLoads(ch, payload))
    ensures MessagesInv(AfterSinkLoads(w, ch, payload), c)
  {
    hide Of, HeldOf, Bytes, HeldBytes, ClosingInv, Sound, EndsClosed;
    assert ChannelInv(w, c) && ChannelInv(w, ch);
    if !Drops(w.conn, ch) && Overflows(w.conn, |Base64.Encode(payload)|) {
      PutMessages(w, w.conn.(closed := w.conn.closed + {ch}), ch, ClosedEvent(ch, Overflow), c);
    } else {
      SilentMessages(w, AfterSinkLoads(w, ch, payload), c);
    }
  }

  lemma PutKeepsMessages(w: World, c: nat)
    requires Inv(w) && w.sink.Added?
    ensures MessagesInv(AfterSinkPuts(w), c)
  {
    hide Of, HeldOf, Bytes, HeldBytes, ClosingInv, Sound, EndsClosed;
    assert ChannelInv(w, c) && ChannelInv(w, w.sink.ch);
    PutMessages(w, w.conn, w.sink.ch, DataEvent(w.sink.ch, w.sink.text), c);
  }

  lemma CloseKeepsMessages(w: World, ch: nat, reason: Reason, c: nat)
    requires Inv(w) && Enabled(w, StackCloses(ch, reason))
    ensures MessagesInv(AfterStackCloses(w, ch, reason), c)
  {
    hide Of, HeldOf, Bytes, HeldBytes, ClosingInv, Sound, EndsClosed;
    assert ChannelInv(w, c) && ChannelInv(w, ch);
    var w1 := w.(stack := w.stack[ch := Gone(ByStack)]);
    assert MessagesInv(w1, c);
    if !Drops(w.conn, ch) {
      PutMessages(w1, w.conn, ch, ClosedEvent(ch, reason), c);
    }
  }

  predicate IsTask(s: Step) {
    || s.ClientChecks? || s.ClientTakes? || s.ClientPosts? || s.Responds? || s.WriterTakes? || s.WriterReports?
    || s.ConnectionEnds?
  }

  lemma SendKeepsMessages(w: World, id: nat, c: nat)
    requires MessagesInv(w, c) && (w.conn.ended ==> w.conn.held == [])
    ensures MessagesInv(Send(w, Queued(Response(id), 0)), c)
  {
    hide Of, HeldOf;
    SentOne(c, w.sent, Queued(Response(id), 0));
    assert Of(c, w.sent) + [] == Of(c, w.sent);
  }

  lemma TasksKeepMessages(w: World, s: Step, c: nat)
    requires MessagesInv(w, c) && Enabled(w, s) && IsTask(s) && (w.conn.ended ==> w.conn.held == [])
    ensures MessagesInv(Apply(w, s), c)
  {
    hide Of, HeldOf, Bytes, HeldBytes, MessagesInv, Base64.Encode, Send;
    match s
    case ClientChecks(ch, id) =>
      SendKeepsMessages(w, id, c);
      if ch in w.conn.owned && w.hostUp {
        SilentMessages(w, Apply(w, s), c);
      }
    case Responds(id) => SendKeepsMessages(w, id, c);
    case ClientTakes => SilentMessages(w, Apply(w, s), c);
    case ClientPosts => SilentMessages(w, Apply(w, s), c);
    case WriterTakes => SilentMessages(w, Apply(w, s), c);
    case WriterReports => SilentMessages(w, Apply(w, s), c);
    case ConnectionEnds => SilentMessages(w, Apply(w, s), c);
  }

  lemma QuietStepsKeepMessages(w: World, s: Step, c: nat)
    requires MessagesInv(w, c) && OwnershipInv(w, c) && Enabled(w, s) && (w.conn.ended ==> w.conn.held == [])
    requires !s.SinkLoads? && !s.SinkPuts? && !s.StackCloses? && (!s.OpenFinishes? || w.conn.ended)
    ensures MessagesInv(Apply(w, s), c)
  {
    hide Of, HeldOf, Bytes, HeldBytes, MessagesInv, AnswerOpen, Base64.Encode;
    if IsTask(s) {
      TasksKeepMessages(w, s, c);
    } else {
      SilentMessages(w, Apply(w, s), c);
    }
  }

  lemma StepKeepsMessages(w: World, s: Step, c: nat)
    requires Inv(w) && Enabled(w, s)
    ensures MessagesInv(Apply(w, s), c)
  {
    hide Of, HeldOf, Bytes, HeldBytes, AfterSinkLoads, AfterSinkPuts, AfterStackCloses, MessagesInv;
    assert ChannelInv(w, c);
    if s.OpenFinishes? && !w.conn.ended {
      assert ChannelInv(w, s.ch);
      AnswerMessages(w, s.ch, c);
    } else if s.SinkLoads? {
      LoadKeepsMessages(w, s.ch, s.payload, c);
    } else if s.SinkPuts? {
      PutKeepsMessages(w, c);
    } else if s.StackCloses? {
      CloseKeepsMessages(w, s.ch, s.reason, c);
    } else {
      hide Apply;
      QuietStepsKeepMessages(w, s, c);
    }
  }

  // ---- Bytes ----

  lemma SendBytes(qs: seq<Queued>, q: Queued)
    ensures Bytes(qs + [q]) == Bytes(qs) + q.bytes
  {
    assert (qs + [q])[..|qs|] == qs;
  }

  lemma AnswerKeepsAccount(w: World, ch: nat)
    requires AccountInv(w) && QueueInv(w) && !w.conn.ended && ch !in w.conn.owned
    requires Sound(ch, HeldOf(ch, w.conn.held))
    ensures var w' := AfterOpenFinishes(w, ch); AccountInv(w') && QueueInv(w') && EndedInv(w')
  {
    hide HeldOf, Bytes, HeldBytes, NotOf;
    AnswerConn(w.conn, ch);
    NotOfBytes(ch, w.conn.held);
    BytesAppend(w.conn.queue + [OpenAnswer(ch)], HeldOf(ch, w.conn.held));
    SendBytes(w.conn.queue, OpenAnswer(ch));
  }

  lemma PutKeepsAccount(w: World, g: Conn, ch: nat, q: Queued)
    requires !w.conn.ended && w.sink == Idle
    requires g == w.conn.(closed := g.closed, pending := g.pending) && g.pending == w.conn.pending + q.bytes
    requires AccountInv(w) && QueueInv(w) && g.pending <= MAX_PENDING_BYTES
    ensures AccountInv(PutEvent(w, g, ch, q)) && QueueInv(PutEvent(w, g, ch, q))
  {
    hide Bytes, HeldBytes, HeldOf;
    HeldOne(ch, w.conn.held, (ch, q));
    SendBytes(w.conn.queue, q);
  }

  predicate Books(w: World) { AccountInv(w) && QueueInv(w) && EndedInv(w) }

  lemma LoadKeepsAccount(w: World, ch: nat, payload: Payload)
    requires Books(w) && w.sink.Idle?
    ensures Books(AfterSinkLoads(w, ch, payload))
  {
    hide Of, HeldOf, Bytes, HeldBytes, Base64.Encode;
    if !Drops(w.conn, ch) && Overflows(w.conn, |Base64.Encode(payload)|) {
      PutKeepsAccount(w, w.conn.(closed := w.conn.closed + {ch}), ch, ClosedEvent(ch, Overflow));
    }
  }

  lemma PutStepKeepsAccount(w: World)
    requires Books(w) && w.sink.Added?
    ensures Books(AfterSinkPuts(w))
  {
    hide Of, HeldOf, Bytes, HeldBytes, Base64.Encode;
    var q := DataEvent(w.sink.ch, w.sink.text);
    var before := w.(sink := Idle, conn := w.conn.(pending := w.conn.pending - q.bytes));
    PutKeepsAccount(before, w.conn, w.sink.ch, q);
  }

  lemma CloseKeepsAccount(w: World, ch: nat, reason: Reason)
    requires Books(w) && w.sink.Idle?
    ensures Books(AfterStackCloses(w, ch, reason))
  {
    hide Of, HeldOf, Bytes, HeldBytes;
    if !Drops(w.conn, ch) {
      PutKeepsAccount(w, w.conn, ch, ClosedEvent(ch, reason));
    }
  }

  lemma SinkKeepsAccount(w: World, s: Step)
    requires Books(w) && Enabled(w, s)
    requires s.SinkLoads? || s.SinkAdds? || s.SinkPuts? || s.StackCloses?
    ensures Books(Apply(w, s))
  {
    hide AfterSinkLoads, AfterSinkPuts, AfterStackCloses, Bytes, HeldBytes;
    match s
    case SinkLoads(ch, payload) => LoadKeepsAccount(w, ch, payload);
    case SinkAdds =>
    case SinkPuts => PutStepKeepsAccount(w);
    case StackCloses(ch, reason) => CloseKeepsAccount(w, ch, reason);
  }

  lemma TakeBytes(queue: seq<Queued>)
    requires queue != []
    ensures Bytes([]) == 0 && Bytes(queue) == Bytes([queue[0]]) + Bytes(queue[1..])
  {
    assert queue == [queue[0]] + queue[1..];
    BytesAppend([queue[0]], queue[1..]);
  }

  lemma WriterTakeKeepsAccount(w: World)
    requires Books(w) && Enabled(w, WriterTakes)
    ensures Books(Apply(w, WriterTakes))
  {
    hide Bytes, HeldBytes;
    TakeBytes(w.conn.queue);
    assert w.conn.queue == [w.conn.queue[0]] + w.conn.queue[1..];
  }

  lemma WriterReportKeepsAccount(w: World)
    requires Books(w) && Enabled(w, WriterReports)
    ensures Books(Apply(w, WriterReports))
  {
    hide Bytes, HeldBytes;
    TakeBytes(w.inflight);
  }

  lemma SendKeepsAccount(w: World, id: nat)
    requires AccountInv(w) && QueueInv(w) && EndedInv(w)
    ensures var w' := Send(w, Queued(Response(id), 0)); AccountInv(w') && QueueInv(w') && EndedInv(w')
  {
    hide Bytes, HeldBytes;
    SendBytes(w.conn.queue, Queued(Response(id), 0));
  }

  lemma StepKeepsAccount(w: World, s: Step)
    requires AccountInv(w) && QueueInv(w) && EndedInv(w) && Enabled(w, s)
    requires !s.OpenFinishes? || w.conn.ended
    ensures AccountInv(Apply(w, s)) && QueueInv(Apply(w, s)) && EndedInv(Apply(w, s))
  {
    hide Of, HeldOf, HeldBytes, Bytes;
    if s.SinkLoads? || s.SinkAdds? || s.SinkPuts? || s.StackCloses? {
      SinkKeepsAccount(w, s);
    } else if s.ClientChecks? || s.Responds? {
      SendKeepsAccount(w, s.id);
    } else if s.WriterTakes? {
      WriterTakeKeepsAccount(w);
    } else if s.WriterReports? {
      WriterReportKeepsAccount(w);
    }
  }

  lemma StepKeepsInv(w: World, s: Step)
    requires Inv(w) && Enabled(w, s)
    ensures Inv(Apply(w, s))
  {
    hide Of, HeldOf, Bytes, HeldBytes;
    if s.OpenFinishes? && !w.conn.ended {
      assert ChannelInv(w, s.ch);
      AnswerKeepsAccount(w, s.ch);
    } else {
      StepKeepsAccount(w, s);
    }
    forall ch: nat
      ensures ChannelInv(Apply(w, s), ch)
    {
      StepKeepsMessages(w, s, ch);
      StepKeepsControl(w, s, ch);
    }
  }

  lemma {:induction false} RunsKeepInv(steps: seq<Step>)
    requires IsRun(steps)
    ensures Inv(After(steps))
    decreases |steps|
  {
    if steps == [] {
      assert forall ch: nat :: ChannelInv(INIT, ch);
    } else {
      RunsKeepInv(steps[..|steps| - 1]);
      StepKeepsInv(After(steps[..|steps| - 1]), steps[|steps| - 1]);
    }
  }

  // ---- What steps leave alone ----

  predicate OfOpens(s: Step) { s.StackOpens? || s.OpenLost? || s.OpenFinishes? }

  predicate OfStack(s: Step) {
    s.SinkLoads? || s.SinkAdds? || s.SinkPuts? || s.StackCloses? || s.StackDisconnects? || s.StackTakesClose?
  }

  lemma TaskFrame(w: World, s: Step)
    requires Enabled(w, s) && !OfOpens(s) && !OfStack(s)
    ensures var w' := Apply(w, s);
            w'.opens == w.opens && w'.taken == w.taken && w'.stack == w.stack && w'.sink == w.sink
  {
    hide Put, AnswerOpen, Bytes, End, TakeClose, Base64.Encode, TakenOf;
    match s
    case ClientChecks(_, _) =>
    case ClientTakes =>
    case ClientPosts =>
    case Responds(_) =>
    case WriterTakes =>
    case WriterReports =>
    case ConnectionEnds =>
    case Posts(_) =>
    case CloseLost(_) =>
    case HostGoes =>
    case HostReturns =>
  }

  lemma StackKeepsOpens(w: World, s: Step)
    requires Enabled(w, s) && OfStack(s)
    ensures Apply(w, s).opens == w.opens
  {
    hide Put, AnswerOpen, Bytes, End, TakeClose, Base64.Encode, TakenOf, Drops, Overflows;
    match s
    case SinkLoads(_, _) =>
    case SinkAdds =>
    case SinkPuts =>
    case StackCloses(_, _) =>
    case StackDisconnects(_) =>
    case StackTakesClose(_) =>
  }

  lemma OpenTaskFrame(w: World, s: Step)
    requires Enabled(w, s) && OfOpens(s)
    ensures var w' := Apply(w, s); w'.taken == w.taken && w'.sink == w.sink && (!s.StackOpens? ==> w'.stack == w.stack)
  {
    hide Put, AnswerOpen, Bytes, End, TakeClose, Base64.Encode, TakenOf;
    match s
    case StackOpens(_, _) =>
    case OpenLost(_) =>
    case OpenFinishes(_) =>
  }

  lemma OpensFrame(w: World, s: Step)
    requires Enabled(w, s) && !OfOpens(s)
    ensures Apply(w, s).opens == w.opens
  {
    hide Apply, Enabled;
    if OfStack(s) {
      StackKeepsOpens(w, s);
    } else {
      TaskFrame(w, s);
    }
  }

  lemma TakenFrame(w: World, s: Step)
    requires Enabled(w, s) && !s.SinkLoads? && !s.SinkPuts? && !s.StackCloses?
    ensures Apply(w, s).taken == w.taken && (!s.SinkAdds? ==> Apply(w, s).sink == w.sink)
  {
    hide Put, AnswerOpen, Bytes, End, TakeClose, Base64.Encode, TakenOf;
    if OfOpens(s) {
      OpenTaskFrame(w, s);
    } else if !OfStack(s) {
      TaskFrame(w, s);
    }
  }

  lemma StackFrame(w: World, s: Step)
    requires Enabled(w, s)
    requires !s.StackOpens? && !s.SinkLoads? && !s.StackCloses? && !s.StackDisconnects? && !s.StackTakesClose?
    ensures Apply(w, s).stack == w.stack
  {
    hide Put, AnswerOpen, Bytes, End, TakeClose, Base64.Encode, TakenOf;
    if OfOpens(s) {
      OpenTaskFrame(w, s);
    } else if !OfStack(s) {
      TaskFrame(w, s);
    }
  }

  // ---- Results over every run ----

  /** The counter is exactly the data bytes held, queued and taken by the writer but not reported
      written (plus those of the event the sink is about to put), it never wraps below zero in the
      writer's report and never exceeds the limit, in every interleaving. */
  lemma ByteAccount(steps: seq<Step>)
    requires IsRun(steps)
    ensures var w := After(steps);
            && 0 <= w.conn.pending <= 0x10_0000
            && (!w.conn.ended ==>
                 && w.conn.pending == HeldBytes(w.conn.held) + Bytes(w.conn.queue) + Bytes(w.inflight)
                      + (if w.sink.Added? then |w.sink.text| else 0)
                 && Bytes(w.inflight) <= w.conn.pending)
  {
    hide Bytes, HeldBytes;
    RunsKeepInv(steps);
  }

  /** The texts of what the stack gave. */
  function FedTexts(steps: seq<Step>, ch: nat): seq<Text> {
    if steps == [] then []
    else
      var s := steps[|steps| - 1];
      FedTexts(steps[..|steps| - 1], ch)
      + if s.SinkLoads? && s.ch == ch then [Base64.Encode(s.payload)] else []
  }

  lemma TextsOne(t: seq<Queued>, q: Queued)
    ensures Texts(t + [q]) == Texts(t) + if q.msg.Data? then [q.msg.text] else []
  {
    assert (t + [q])[..|t|] == t;
  }

  /** The payloads the sink of channel ch accepted, the one it is working on included. */
  function Accepted(w: World, ch: nat): seq<Text> {
    Texts(TakenOf(w, ch)) + if w.sink != Idle && w.sink.ch == ch then [w.sink.text] else []
  }

  lemma PutTaken(w: World, g: Conn, ch: nat, q: Queued, c: nat)
    ensures var w' := PutEvent(w, g, ch, q);
            Texts(TakenOf(w', c)) ==
            Texts(TakenOf(w, c)) + if c == ch && q.msg.Data? then [q.msg.text] else []
  {
    hide Texts;
    TextsOne(TakenOf(w, c), q);
  }

  lemma LoadAccepts(w: World, ch: nat, payload: Payload, c: nat)
    requires Enabled(w, SinkLoads(ch, payload))
    ensures var w' := AfterSinkLoads(w, ch, payload);
            || Accepted(w', c) == Accepted(w, c) + (if c == ch then [Base64.Encode(payload)] else [])
            || (Accepted(w', c) == Accepted(w, c) && Drops(w'.conn, c))
  {
    hide Texts;
    PutTaken(w, w.conn.(closed := w.conn.closed + {ch}), ch, ClosedEvent(ch, Overflow), c);
  }

  lemma OtherStepsAccept(w: World, s: Step, c: nat)
    requires Enabled(w, s) && !s.SinkLoads?
    ensures Accepted(Apply(w, s), c) == Accepted(w, c)
  {
    hide Texts, AnswerOpen;
    if s.SinkPuts? {
      PutTaken(w, w.conn, w.sink.ch, DataEvent(w.sink.ch, w.sink.text), c);
    } else if s.StackCloses? {
      PutTaken(w.(stack := w.stack[s.ch := Gone(ByStack)]), w.conn, s.ch, ClosedEvent(s.ch, s.reason), c);
    } else {
      TakenFrame(w, s);
      if !s.SinkAdds? {
        hide Apply;
      }
    }
  }

  /** The data the sink accepted is a prefix of what the stack gave it, in the stack's order, and all of
      it as long as the channel was not closed and the connection has not ended. */
  lemma {:induction false} DataIsPrefix(steps: seq<Step>, ch: nat)
    requires IsRun(steps)
    ensures Accepted(After(steps), ch) <= FedTexts(steps, ch)
    ensures !Drops(After(steps).conn, ch) ==> Accepted(After(steps), ch) == FedTexts(steps, ch)
    decreases |steps|
  {
    if steps == [] {
    } else {
      var front, s := steps[..|steps| - 1], steps[|steps| - 1];
      hide Apply, Enabled, Accepted;
      DataIsPrefix(front, ch);
      AcceptStep(After(front), s, ch);
    }
  }

  lemma AcceptStep(w: World, s: Step, ch: nat)
    requires Enabled(w, s)
    ensures var w' := Apply(w, s);
            var more := if s.SinkLoads? && s.ch == ch then [Base64.Encode(s.payload)] else [];
            && (Accepted(w', ch) == Accepted(w, ch) + more
                || (Accepted(w', ch) == Accepted(w, ch) && Drops(w'.conn, ch)))
            && (Drops(w.conn, ch) ==> Drops(w'.conn, ch))
  {
    hide Accepted;
    if s.SinkLoads? {
      LoadAccepts(w, s.ch, s.payload, ch);
    } else {
      OtherStepsAccept(w, s, ch);
    }
    if Drops(w.conn, ch) {
      DropsStay(w, s, ch);
    }
  }

  lemma DropsStay(w: World, s: Step, ch: nat)
    requires Enabled(w, s) && Drops(w.conn, ch)
    ensures Drops(Apply(w, s).conn, ch)
  {
    if s.OpenFinishes? && !w.conn.ended {
      ReplayKeepsClosed(w.conn.(owned := w.conn.owned + {s.ch},
                                queue := w.conn.queue + [OpenAnswer(s.ch)], held := []), s.ch, w.conn.held);
    }
  }

  lemma {:induction false} ReplayKeepsClosed(g: Conn, ch: nat, events: seq<(nat, Queued)>)
    ensures Replay(g, ch, events).closed == g.closed && Replay(g, ch, events).ended == g.ended
    decreases |events|
  {
    if events == [] {
    } else {
      var (id, q) := events[0];
      ReplayKeepsClosed(if id == ch then Put(g, id, q) else g.(held := g.held + [(id, q)]), ch, events[1..]);
    }
  }

  /** What the client sees of a channel: nothing, or its open answer and then its events, with a close
      only as the last message. */
  predicate InOrder(ch: nat, said: seq<Queued>) {
    said == [] || (said[0] == OpenAnswer(ch) && Sound(ch, said[1..]))
  }

  /** Per-channel order on the output queue. What was sent of a channel is nothing, or its open answer,
      then its events with a close only as the last; its data is a prefix of what the stack gave, in the
      stack's order although some of it was held; and it is all of it while the channel is open. */
  lemma ChannelOrder(steps: seq<Step>, ch: nat)
    requires IsRun(steps)
    ensures var w := After(steps);
            var said := Of(ch, w.sent);
            && w.sent == w.written + w.inflight + w.conn.queue
            && InOrder(ch, said)
            && Decoded(Texts(said)) <= Wrapped(Fed(steps, ch))
            && (ch in w.conn.owned && w.sink.Idle? ==> said != [] && Decoded(Texts(said)) == Wrapped(Fed(steps, ch)))
  {
    hide Of, HeldOf, Bytes, HeldBytes, Texts, FedTexts, Fed, IsRun, After, Decoded, Wrapped;
    RunsKeepInv(steps);
    DataIsPrefix(steps, ch);
    TextsDecode(steps, ch, Texts(Of(ch, After(steps).sent)));
    var w := After(steps);
    var t := TakenOf(w, ch);
    assert ChannelInv(w, ch);
    TextsAppend([OpenAnswer(ch)], t);
    NoTexts(ch);
    if Is(w, ch, Answered) {
      assert ([OpenAnswer(ch)] + t)[1..] == t;
    }
  }

  lemma {:induction false} FedTextsAre(steps: seq<Step>, ch: nat)
    ensures |FedTexts(steps, ch)| == |Fed(steps, ch)|
    ensures forall i :: 0 <= i < |Fed(steps, ch)| ==> FedTexts(steps, ch)[i] == Base64.Encode(Fed(steps, ch)[i])
  {
    hide Base64.Encode;
    if steps == [] {
    } else {
      FedTextsAre(steps[..|steps| - 1], ch);
    }
  }

  /** A client decodes from a prefix of the texts a prefix of the data. */
  lemma TextsDecode(steps: seq<Step>, ch: nat, texts: seq<Text>)
    ensures texts <= FedTexts(steps, ch) ==> Decoded(texts) <= Wrapped(Fed(steps, ch))
    ensures texts == FedTexts(steps, ch) ==> Decoded(texts) == Wrapped(Fed(steps, ch))
  {
    hide Base64.Encode, Base64.Decode, FedTexts, Fed;
    var fed := Fed(steps, ch);
    FedTextsAre(steps, ch);
    if texts <= FedTexts(steps, ch) {
      forall i | 0 <= i < |texts|
        ensures Decoded(texts)[i] == Wrapped(fed)[i]
      {
        assert texts[i] == FedTexts(steps, ch)[i];
        Base64.RoundTrip(fed[i]);
      }
    }
  }

  lemma NoTexts(ch: nat)
    ensures Texts([]) == [] && Texts([OpenAnswer(ch)]) == []
  {
    assert [OpenAnswer(ch)][..0] == [];
  }

  // ---- Nothing follows a close ----

  /** The client knows the channel as closed: its own close was taken, or the sink overflowed, after the
      open was answered; or the connection ended. */
  predicate Shut(w: World, ch: nat) { Drops(w.conn, ch) && (w.conn.ended || Is(w, ch, Answered)) }

  lemma ShutStep(w: World, s: Step, ch: nat)
    requires OwnershipInv(w, ch) && EndedInv(w) && Enabled(w, s) && Shut(w, ch)
    ensures var w' := Apply(w, s);
            TakenOf(w', ch) == TakenOf(w, ch) && (Is(w', ch, Answered) <==> Is(w, ch, Answered))
  {
    hide AnswerOpen, EndsClosed, Bytes;
    if !s.SinkLoads? && !s.SinkPuts? && !s.StackCloses? {
      TakenFrame(w, s);
    }
    if !s.StackOpens? && !s.OpenLost? && !s.OpenFinishes? {
      OpensFrame(w, s);
    }
  }

  lemma {:induction false} ShutStays(steps: seq<Step>, more: seq<Step>, ch: nat)
    requires IsRun(steps) && IsRun(steps + more) && Shut(After(steps), ch)
    ensures var w, w' := After(steps), After(steps + more);
            Shut(w', ch) && TakenOf(w', ch) == TakenOf(w, ch) && (Is(w', ch, Answered) <==> Is(w, ch, Answered))
    decreases |more|
  {
    if more == [] {
      assert steps + more == steps;
    } else {
      var front := more[..|more| - 1];
      assert (steps + more)[..|steps + more| - 1] == steps + front;
      ShutStays(steps, front, ch);
      RunsKeepInv(steps + front);
      assert ChannelInv(After(steps + front), ch);
      ShutStep(After(steps + front), more[|more| - 1], ch);
      DropsStay(After(steps + front), more[|more| - 1], ch);
    }
  }

  /** Nothing is queued for a channel that is shut, however the run goes on. */
  lemma SilentAfterClose(steps: seq<Step>, more: seq<Step>, ch: nat)
    requires IsRun(steps) && IsRun(steps + more) && Shut(After(steps), ch)
    ensures Of(ch, After(steps + more).sent) == Of(ch, After(steps).sent)
  {
    hide Of, HeldOf, Bytes, HeldBytes, IsRun, After;
    ShutStays(steps, more, ch);
    RunsKeepInv(steps);
    RunsKeepInv(steps + more);
    assert ChannelInv(After(steps), ch) && ChannelInv(After(steps + more), ch);
  }

  /** The step that takes the client's close of a channel shuts it. */
  lemma TakingShuts(steps: seq<Step>, ch: nat)
    requires IsRun(steps) && steps != [] && steps[|steps| - 1] == ClientTakes
    requires After(steps[..|steps| - 1]).request == Checked(ch)
    ensures Shut(After(steps), ch)
  {
    hide Of, HeldOf, Bytes, HeldBytes, Shut, Apply, MessagesInv, OwnershipInv, ClosingInv, Enabled;
    var front := steps[..|steps| - 1];
    RunsKeepInv(front);
    assert ChannelInv(After(front), ch);
    TakeStepShuts(After(front), ch);
  }

  lemma TakeStepShuts(w: World, ch: nat)
    requires ClosingInv(w, ch) && w.request == Checked(ch) && Enabled(w, ClientTakes)
    ensures Shut(Apply(w, ClientTakes), ch)
  {
    hide Cared, Handed, Justified;
  }

  /** From the moment the client's close of a channel is taken, nothing more of the channel is sent. */
  lemma SilentAfterClientClose(steps: seq<Step>, more: seq<Step>, ch: nat)
    requires IsRun(steps) && steps != [] && steps[|steps| - 1] == ClientTakes
    requires After(steps[..|steps| - 1]).request == Checked(ch) && IsRun(steps + more)
    ensures Of(ch, After(steps + more).sent) == Of(ch, After(steps).sent)
  {
    hide Of, IsRun, After, Shut;
    TakingShuts(steps, ch);
    SilentAfterClose(steps, more, ch);
  }

  // ---- No channel is left behind ----

  /** Nothing is in progress: every task ran to its end, every close handed over was carried out, and
      stacks that are no longer offered have stopped. */
  predicate Settled(w: World) {
    && w.sink.Idle? && w.request.NoRequest? && w.toClose == map[] && w.posted == map[]
    && (forall ch :: ch in w.opens ==> !w.opens[ch].Buffered?)
    && (forall ch :: ch in w.stack ==> !w.stack[ch].Closing? && (ch in w.stale ==> w.stack[ch].Gone?))
  }

  /** Gone by the stack and lost are facts of the run's steps. */
  lemma {:induction false} RunFacts(steps: seq<Step>, ch: nat)
    requires IsRun(steps)
    ensures var w := After(steps);
            && (Is(w, ch, Lost) <==> OpenLost(ch) in steps)
            && (ch in w.stack && w.stack[ch] == Gone(ByStack) <==> exists r :: StackCloses(ch, r) in steps)
    decreases |steps|
  {
    if steps == [] {
    } else {
      var front, s := steps[..|steps| - 1], steps[|steps| - 1];
      var w := After(front);
      assert steps == front + [s];
      RunFacts(front, ch);
      RunsKeepInv(front);
      assert ChannelInv(w, ch);
      LostStep(w, s, ch);
      GoneStep(w, s, ch);
      hide Apply, Enabled, Of, HeldOf;
      assert forall r :: StackCloses(ch, r) in steps <==> StackCloses(ch, r) in front || s == StackCloses(ch, r);
    }
  }

  lemma LostStep(w: World, s: Step, ch: nat)
    requires Enabled(w, s)
    ensures Is(Apply(w, s), ch, Lost) <==> Is(w, ch, Lost) || s == OpenLost(ch)
  {
    hide AnswerOpen, Bytes;
    if !s.StackOpens? && !s.OpenLost? && !s.OpenFinishes? {
      OpensFrame(w, s);
      hide Apply;
    }
  }

  lemma GoneStep(w: World, s: Step, ch: nat)
    requires Enabled(w, s) && ClosingInv(w, ch)
    ensures var w' := Apply(w, s);
            ch in w'.stack && w'.stack[ch] == Gone(ByStack) <==>
            (ch in w.stack && w.stack[ch] == Gone(ByStack)) || (s.StackCloses? && s.ch == ch)
  {
    hide AnswerOpen, Bytes, Cared;
    if !s.StackOpens? && !s.SinkLoads? && !s.StackCloses? && !s.StackDisconnects? && !s.StackTakesClose? {
      StackFrame(w, s);
      hide Apply;
    }
  }

  /** The exact leak. Once a connection is over, a channel the stack opened for it is still open if and
      only if its open's answer was lost to the time-out, the device or stack did not close it and the
      sink did not overflow. */
  lemma LeakExactly(steps: seq<Step>, ch: nat)
    requires IsRun(steps)
    requires var w := After(steps); w.conn.ended && Settled(w) && ch in w.stack
    ensures var w := After(steps);
            !w.stack[ch].Gone? <==>
            && OpenLost(ch) in steps
            && ch !in w.conn.closed
            && forall r :: StackCloses(ch, r) !in steps
  {
    hide Of, HeldOf, Bytes, HeldBytes, IsRun, After;
    RunsKeepInv(steps);
    RunFacts(steps, ch);
    assert ChannelInv(After(steps), ch);
  }

  /** Every channel that is over was closed by the one who had to: the client whose close was taken, the
      end of the connection that found it answered, the open task that found the connection ended, the
      overflow whose event ends the channel, or the device and stack. */
  lemma ClosedByOne(steps: seq<Step>, ch: nat)
    requires IsRun(steps)
    requires var w := After(steps); ch in w.stack && w.stack[ch].Gone?
    ensures var w := After(steps); Justified(w, ch, w.stack[ch].closer)
    ensures var w := After(steps); w.stack[ch].closer.ByStack? ==> exists r :: StackCloses(ch, r) in steps
  {
    hide Of, HeldOf, Bytes, HeldBytes, IsRun, After;
    RunsKeepInv(steps);
    RunFacts(steps, ch);
    assert ChannelInv(After(steps), ch);
  }

  /** While the connection lives and nothing is in progress, it owns exactly the channels a stack has open
      for it, but for lost ones, also after the stack was restarted. */
  lemma OwnsWhatIsOpen(steps: seq<Step>, ch: nat)
    requires IsRun(steps)
    requires var w := After(steps); !w.conn.ended && Settled(w)
    ensures var w := After(steps);
            ch in w.conn.owned <==> ch in w.stack && w.stack[ch].Live? && OpenLost(ch) !in steps
  {
    hide Of, HeldOf, Bytes, HeldBytes, IsRun, After;
    RunsKeepInv(steps);
    RunFacts(steps, ch);
    assert ChannelInv(After(steps), ch);
  }

  /** A run that leaves a channel open for ever: the answer was in the buffer when the wait gave up. */
  lemma LostChannelStaysOpen()
    ensures var steps := [StackOpens(1, false), OpenLost(1), ConnectionEnds];
            IsRun(steps) && Settled(After(steps)) && After(steps).conn.ended && After(steps).stack == map[1 := Live]
  {
    var a := StackOpens(1, false);
    var s1, s2, s3 := [a], [a, OpenLost(1)], [a, OpenLost(1), ConnectionEnds];
    assert s1[..0] == [] && s2[..1] == s1 && s3[..2] == s2;
    assert IsRun([]) && After([]) == INIT;
    assert IsRun(s1) && IsRun(s2);
  }

  lemma RunOne(steps: seq<Step>, s: Step)
    requires IsRun(steps) && Enabled(After(steps), s)
    ensures IsRun(steps + [s]) && After(steps + [s]) == Apply(After(steps), s)
  {
    hide Enabled, Apply;
    assert (steps + [s])[..|steps|] == steps;
  }

  /** A client's close of a channel it owns, with a stack there, is carried out: asked, taken, handed over and
      run by the stack, it ends the channel. */
  lemma ClientCloseWorks(steps: seq<Step>, ch: nat, id: nat)
    requires IsRun(steps)
    requires var w := After(steps);
             !w.conn.ended && w.sink.Idle? && w.request.NoRequest? && ch in w.conn.owned && w.hostUp
    ensures var all := steps + [ClientChecks(ch, id)] + [ClientTakes] + [ClientPosts] + [StackTakesClose(ch)]
                       + [StackDisconnects(ch)];
            && IsRun(all) && After(all).stack[ch] == Gone(ByClient)
            && After(all).sent == After(steps).sent && ch in After(all).conn.closed
  {
    hide IsRun, After, Of, HeldOf, Bytes, HeldBytes;
    RunsKeepInv(steps);
    assert ChannelInv(After(steps), ch);
    var t1 := steps + [ClientChecks(ch, id)];
    RunOne(steps, ClientChecks(ch, id));
    var t2 := t1 + [ClientTakes];
    RunOne(t1, ClientTakes);
    var t3 := t2 + [ClientPosts];
    RunOne(t2, ClientPosts);
    var t4 := t3 + [StackTakesClose(ch)];
    RunOne(t3, StackTakesClose(ch));
    RunOne(t4, StackDisconnects(ch));
  }

  /** Asked of a channel the client does not own, or without a stack, a close only gets an answer. */
  lemma CloseRefusedExactly(steps: seq<Step>, ch: nat, id: nat)
    requires IsRun(steps) && Enabled(After(steps), ClientChecks(ch, id))
    ensures var w, w' := After(steps), Apply(After(steps), ClientChecks(ch, id));
            w'.sent == w.sent + [Queued(Response(id), 0)] <==> ch !in w.conn.owned || !w.hostUp
  {
    hide IsRun, After;
    var sent := After(steps).sent;
    assert |sent + [Queued(Response(id), 0)]| != |sent|;
  }
}
