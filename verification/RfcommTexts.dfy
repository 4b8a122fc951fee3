/** What the byte counter counts: the base64 texts on their way to the client, and so when a channel overflows
    (app/src/core/src/rfcomm.rs). */
module RfcommTexts {
  import opened Rfcomm
  import opened RfcommProofs
  import opened Options
  import Base64

  /** The text characters of queued messages. */
  function TextLen(qs: seq<Queued>): nat {
    if qs == [] then 0
    else
      var m := qs[|qs| - 1].msg;
      TextLen(qs[..|qs| - 1]) + if m.Data? then |m.text| else 0
  }

  function HeldTextLen(held: seq<(nat, Queued)>): nat {
    if held == [] then 0
    else
      var m := held[|held| - 1].1.msg;
      HeldTextLen(held[..|held| - 1]) + if m.Data? then |m.text| else 0
  }

  // ---- Every message is counted with its text's length ----

  predicate Sized(q: Queued) { q.bytes == if q.msg.Data? then |q.msg.text| else 0 }

  predicate AllSized(qs: seq<Queued>) { forall i :: 0 <= i < |qs| ==> Sized(qs[i]) }

  predicate HeldSized(held: seq<(nat, Queued)>) { forall i :: 0 <= i < |held| ==> Sized(held[i].1) }

  predicate SizedInv(w: World) { AllSized(w.sent) && HeldSized(w.conn.held) }

  lemma {:induction false} SizedParts(ch: nat, held: seq<(nat, Queued)>)
    requires HeldSized(held)
    ensures AllSized(HeldOf(ch, held)) && HeldSized(NotOf(ch, held))
  {
    if held == [] {
    } else {
      SizedParts(ch, held[1..]);
      HeldFirst(ch, held);
    }
  }

  lemma AllSizedMore(a: seq<Queued>, b: seq<Queued>)
    requires AllSized(a) && AllSized(b)
    ensures AllSized(a + b)
  {
  }

  lemma PutSized(w: World, g: Conn, ch: nat, q: Queued)
    requires SizedInv(w) && Sized(q) && g.held == w.conn.held
    ensures SizedInv(PutEvent(w, g, ch, q))
  {
    hide Sized;
    var more := [q];
    assert forall i :: 0 <= i < |more| ==> more[i] == q;
  }

  lemma AnswerSized(w: World, ch: nat)
    requires SizedInv(w) && !w.conn.ended && ch !in w.conn.owned && Sound(ch, HeldOf(ch, w.conn.held))
    ensures SizedInv(AfterOpenFinishes(w, ch))
  {
    hide HeldOf, NotOf, AnswerOpen, Sized, Sound;
    var t := HeldOf(ch, w.conn.held);
    AnswerConn(w.conn, ch);
    SizedParts(ch, w.conn.held);
    AnswerIsSized(ch);
    AllSizedMore([OpenAnswer(ch)], t);
    var q := w.conn.queue;
    assert (q + [OpenAnswer(ch)] + t)[|q|..] == [OpenAnswer(ch)] + t;
    AllSizedMore(w.sent, [OpenAnswer(ch)] + t);
  }

  lemma AnswerIsSized(ch: nat)
    ensures AllSized([OpenAnswer(ch)])
  {
  }

  lemma SendSized(w: World, id: nat)
    requires SizedInv(w)
    ensures SizedInv(Send(w, Queued(Response(id), 0)))
  {
    AllSizedMore(w.sent, [Queued(Response(id), 0)]);
  }

  /** Steps that neither send nor hold anything new. */
  predicate Silent(s: Step) {
    !s.OpenFinishes? && !s.SinkLoads? && !s.SinkPuts? && !s.StackCloses? && !s.ClientChecks? && !s.Responds?
  }

  lemma SilentSized(w: World, s: Step)
    requires SizedInv(w) && Enabled(w, s) && Silent(s)
    ensures SizedInv(Apply(w, s))
  {
    hide AllSized, Sized, Bytes;
    var w' := Apply(w, s);
    assert w'.sent == w.sent && (w'.conn.held == w.conn.held || w'.conn.held == []);
  }

  lemma StepSized(w: World, s: Step)
    requires SizedInv(w) && Inv(w) && Enabled(w, s)
    ensures SizedInv(Apply(w, s))
  {
    if Silent(s) {
      hide Apply, Enabled, Inv, SizedInv;
      SilentSized(w, s);
    } else {
      hide SizedInv, Base64.Encode, Of, HeldOf, Bytes, HeldBytes, AnswerOpen, PutEvent, Send;
      match s
      case OpenFinishes(ch) =>
        if w.conn.ended {
          SameSized(w, Apply(w, s));
        } else {
          assert ChannelInv(w, ch);
          AnswerSized(w, ch);
        }
      case SinkLoads(ch, payload) =>
        PutSized(w, w.conn.(closed := w.conn.closed + {ch}), ch, ClosedEvent(ch, Overflow));
        PutThenSized(w, Apply(w, s), ch);
      case SinkPuts =>
        PutSized(w, w.conn, w.sink.ch, DataEvent(w.sink.ch, w.sink.text));
        SameSized(PutEvent(w, w.conn, w.sink.ch, DataEvent(w.sink.ch, w.sink.text)), Apply(w, s));
      case StackCloses(ch, reason) =>
        var w1 := w.(stack := w.stack[ch := Gone(ByStack)]);
        SameSized(w, w1);
        PutSized(w1, w.conn, ch, ClosedEvent(ch, reason));
      case ClientChecks(ch, id) =>
        SendSized(w, id);
        SameSized(w, w.(request := Checked(ch)));
      case Responds(id) => SendSized(w, id);
    }
  }

  lemma SameSized(w: World, w': World)
    requires SizedInv(w) && w'.sent == w.sent && w'.conn.held == w.conn.held
    ensures SizedInv(w')
  {
  }

  lemma PutThenSized(w: World, w': World, ch: nat)
    requires SizedInv(w)
    requires var p := PutEvent(w, w.conn.(closed := w.conn.closed + {ch}), ch, ClosedEvent(ch, Overflow));
             SizedInv(p) && ((w'.sent == w.sent && w'.conn.held == w.conn.held)
                             || (w'.sent == p.sent && w'.conn.held == p.conn.held))
    ensures SizedInv(w')
  {
  }

  lemma {:induction false} RunsAreSized(steps: seq<Step>)
    requires IsRun(steps)
    ensures SizedInv(After(steps))
    decreases |steps|
  {
    hide Inv, Apply, Enabled, SizedInv;
    if steps == [] {
      NothingSized();
    } else {
      var front := steps[..|steps| - 1];
      RunsAreSized(front);
      RunsKeepInv(front);
      StepSized(After(front), steps[|steps| - 1]);
    }
  }

  lemma NothingSized()
    ensures SizedInv(INIT)
  {
  }

  lemma {:induction false} SizedBytes(qs: seq<Queued>)
    requires AllSized(qs)
    ensures Bytes(qs) == TextLen(qs)
  {
    if qs == [] {
    } else {
      SizedBytes(qs[..|qs| - 1]);
    }
  }

  lemma {:induction false} SizedHeldBytes(held: seq<(nat, Queued)>)
    requires HeldSized(held)
    ensures HeldBytes(held) == HeldTextLen(held)
  {
    if held == [] {
    } else {
      SizedHeldBytes(held[..|held| - 1]);
    }
  }

  // ---- Results ----

  /** The text characters on their way: held, queued, taken by the writer, and about to be put. */
  function OnTheWay(w: World): nat {
    HeldTextLen(w.conn.held) + TextLen(w.conn.queue) + TextLen(w.inflight)
    + if w.sink.Added? then |w.sink.text| else 0
  }

  /** While the connection lives, the counter is exactly the base64 characters on their way to the client, and
      these are never more than the limit. */
  lemma TextAccount(steps: seq<Step>)
    requires IsRun(steps) && !After(steps).conn.ended
    ensures After(steps).conn.pending == OnTheWay(After(steps)) <= 0x10_0000
  {
    hide Bytes, HeldBytes, TextLen, HeldTextLen, IsRun, After, Inv;
    var w := After(steps);
    ByteAccount(steps);
    RunsAreSized(steps);
    RunsKeepInv(steps);
    SentParts(w);
    SizedHeldBytes(w.conn.held);
    SizedBytes(w.conn.queue);
    SizedBytes(w.inflight);
  }

  lemma SentParts(w: World)
    requires Inv(w) && AllSized(w.sent)
    ensures AllSized(w.conn.queue) && AllSized(w.inflight)
  {
    hide Sized, ChannelInv;
    var a, b, c := w.written, w.inflight, w.conn.queue;
    assert w.sent == a + b + c;
    forall i | 0 <= i < |b|
      ensures Sized(b[i])
    {
      assert w.sent[|a| + i] == b[i];
    }
    forall i | 0 <= i < |c|
      ensures Sized(c[i])
    {
      assert w.sent[|a| + |b| + i] == c[i];
    }
  }

  /** Data closes a channel for overflow if and only if its base64 text and those already on their way to the
      client would be more than the limit; else it is taken. */
  lemma OverflowExactly(steps: seq<Step>, ch: nat, payload: Payload)
    requires IsRun(steps) && Enabled(After(steps), SinkLoads(ch, payload)) && !Drops(After(steps).conn, ch)
    ensures var w, w' := After(steps), Apply(After(steps), SinkLoads(ch, payload));
            && (w'.stack[ch] == Gone(ByOverflow) <==> OnTheWay(w) + |Base64.Encode(payload)| > 0x10_0000)
            && (ch in w'.conn.closed <==> OnTheWay(w) + |Base64.Encode(payload)| > 0x10_0000)
            && (w'.sink == Loaded(ch, Base64.Encode(payload), w.conn.pending) <==>
                OnTheWay(w) + |Base64.Encode(payload)| <= 0x10_0000)
  {
    hide Base64.Encode, IsRun, After, OnTheWay, Put;
    TextAccount(steps);
    PutKeepsClosed(After(steps).conn.(closed := After(steps).conn.closed + {ch}), ch, ClosedEvent(ch, Overflow));
  }

  lemma PutKeepsClosed(g: Conn, ch: nat, q: Queued)
    ensures Put(g, ch, q).closed == g.closed
  {
  }
}
