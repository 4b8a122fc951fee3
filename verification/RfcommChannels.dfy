/** The connection's object with its fields updated in place (app/src/core/src/rfcomm.rs, `Channels` and
    `Inner`). Each method is one critical section; its contract is the step function the runs of module
    Rfcomm are made of. */
module RfcommChannels {
  import opened Rfcomm
  import Base64

  class Channels {
    var owned: set<nat>
    var closed: set<nat>
    var held: seq<(nat, Queued)>
    var ended: bool
    var out: seq<Queued>
    var pending: int

    ghost function View(): Conn
      reads this
    {
      Conn(owned, closed, held, ended, out, pending)
    }

    constructor ()
      ensures View() == INIT.conn
    {
      owned, closed, held, ended, out, pending := {}, {}, [], false, [], 0;
    }

    /** To the writer, or held until the channel's open is answered. */
    method Put(id: nat, q: Queued)
      modifies this
      ensures View() == Rfcomm.Put(old(View()), id, q)
    {
      if id !in owned {
        held := held + [(id, q)];
        return;
      }
      if q.msg.Closed? {
        owned := owned - {id};
      }
      out := out + [q];
    }

    /** The sink's data event, uninterrupted. False: the stack closes the channel. */
    method OnData(ch: nat, payload: Payload) returns (keep: bool)
      modifies this
      ensures keep <==> Drops(old(View()), ch) || !Overflows(old(View()), |Base64.Encode(payload)|)
      ensures View() ==
              if Drops(old(View()), ch) then old(View())
              else if !keep
              then Rfcomm.Put(old(View()).(closed := old(closed) + {ch}), ch, ClosedEvent(ch, Overflow))
              else Rfcomm.Put(old(View()).(pending := old(pending) + |Base64.Encode(payload)|),
                              ch, DataEvent(ch, Base64.Encode(payload)))
    {
      if ended || ch in closed {
        return true;
      }
      var text := Base64.Encode(payload);
      var bytes := |text|;
      if pending + bytes > MAX_PENDING_BYTES {
        closed := closed + {ch};
        Put(ch, ClosedEvent(ch, Overflow));
        return false;
      }
      pending := pending + bytes;
      Put(ch, DataEvent(ch, text));
      return true;
    }

    method OnClosed(ch: nat, reason: Reason)
      modifies this
      ensures View() ==
              if Drops(old(View()), ch) then old(View())
              else Rfcomm.Put(old(View()), ch, ClosedEvent(ch, reason))
    {
      if ended || ch in closed {
        return;
      }
      Put(ch, ClosedEvent(ch, reason));
    }

    /** The open task's critical section. True: the connection ended, the task closes the channel. */
    method OpenFinished(ch: nat) returns (orphan: bool)
      modifies this
      ensures orphan == old(ended)
      ensures View() == if orphan then old(View()) else AnswerOpen(old(View()), ch)
    {
      if ended {
        return true;
      }
      owned := owned + {ch};
      out := out + [OpenAnswer(ch)];
      var events := held;
      held := [];
      ghost var start := View();
      var i := 0;
      while i < |events|
        invariant 0 <= i <= |events|
        invariant Replay(View(), ch, events[i..]) == Replay(start, ch, events)
      {
        assert events[i..][0] == events[i] && events[i..][1..] == events[i + 1..];
        if events[i].0 == ch {
          Put(ch, events[i].1);
        } else {
          held := held + [events[i]];
        }
        i := i + 1;
      }
      return false;
    }

    /** A client's close of one of its channels. False: no such channel. */
    method Close(ch: nat) returns (ok: bool)
      modifies this
      ensures ok == (ch in old(owned))
      ensures View() == if ok then TakeClose(old(View()), ch) else old(View())
    {
      if ch !in owned {
        return false;
      }
      owned := owned - {ch};
      closed := closed + {ch};
      return true;
    }

    method Written(q: Queued)
      modifies this
      ensures View() == old(View()).(pending := old(pending) - q.bytes)
    {
      pending := pending - q.bytes;
    }

    /** The connection ended: its channels close. */
    method Drop() returns (toClose: set<nat>)
      modifies this
      ensures toClose == old(owned) && View() == End(old(View()))
    {
      ended := true;
      held := [];
      toClose := owned;
      owned := {};
    }
  }
}
