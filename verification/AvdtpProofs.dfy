/** Sessions against the history of their links: which response starts a session, which media packets are
    its own, and that each is finished once. */
module AvdtpProofs {
  import opened Bytes
  import opened Avdtp

  // ---- The reference: a reading of the history alone ----

  predicate Asks(e: Event, key: Key) { e.Command? && key == Key(e.handle, e.dir, e.tag) }

  predicate Answers(e: Event, key: Key, signal: nat) {
    e.Response? && key == Key(e.handle, Opposite(e.dir), e.tag) && e.signal == signal
  }

  /** The command at j was neither repeated under its key nor answered. */
  ghost predicate Outstanding(log: seq<Event>, j: int, key: Key) {
    && 0 <= j < |log| && Asks(log[j], key)
    && forall k :: j < k < |log| ==> !Asks(log[k], key) && !Answers(log[k], key, log[j].signal)
  }

  /** The response at i accepts the SET_CONFIGURATION or RECONFIGURE at j. */
  ghost predicate Accepts(log: seq<Event>, i: int, j: int) {
    && 0 <= j < i < |log| && log[i].Response? && log[i].accepted
    && Outstanding(log[..i], j, Key(log[i].handle, Opposite(log[i].dir), log[i].tag))
    && log[j].signal == log[i].signal
  }

  ghost predicate Starts(log: seq<Event>, i: int) { exists j :: Accepts(log, i, j) }

  /** What ends a session of link h: the next configuration, a media channel closed, the link gone. */
  ghost predicate Ends(log: seq<Event>, k: int, h: nat) {
    && 0 <= k < |log| && log[k].handle == h
    && (Starts(log, k) || (log[k].ChannelClosed? && !log[k].first) || log[k].LinkGone?)
  }

  ghost predicate EndedSince(log: seq<Event>, i: nat, h: nat) {
    exists k :: i <= k < |log| && Ends(log, k, h)
  }

  /** The media packets of link h from i on, up to the first end. */
  ghost function MediaSince(log: seq<Event>, i: nat, h: nat): seq<seq<byte>> {
    if |log| <= i then []
    else
      var front, e := log[..|log| - 1], log[|log| - 1];
      MediaSince(front, i, h) + if e.Media? && e.handle == h && !EndedSince(front, i, h) then [e.data] else []
  }

  // ---- The invariant ----

  ghost predicate Shown(log: seq<Event>, key: Key, p: Pending) {
    Outstanding(log, p.at, key) && p.cfg == log[p.at].cfg && p.signal == log[p.at].signal
  }

  ghost predicate PendingSound(log: seq<Event>, t: Tracker) {
    forall key :: key in t.pending ==> Shown(log, key, t.pending[key])
  }

  ghost predicate PendingComplete(log: seq<Event>, t: Tracker) {
    forall key, j :: Outstanding(log, j, key) ==> key in t.pending && t.pending[key].at == j
  }

  ghost predicate Exact(log: seq<Event>, s: Session) {
    && Accepts(log, s.at, s.command) && log[s.command].Command?
    && s.handle == log[s.at].handle && s.cfg == log[s.command].cfg
    && s.packets == MediaSince(log, s.at + 1, s.handle)
    && s.finished == if EndedSince(log, s.at + 1, s.handle) then 1 else 0
  }

  ghost predicate AllExact(log: seq<Event>, t: Tracker) {
    forall n :: 0 <= n < |t.sessions| ==> Exact(log, t.sessions[n])
  }

  /** The active sessions are the unfinished ones, one per link. */
  predicate ActiveInv(t: Tracker)
    requires WellFormed(t)
  {
    && (forall h :: h in t.active ==> t.sessions[t.active[h]].handle == h && t.sessions[t.active[h]].finished == 0)
    && forall n :: 0 <= n < |t.sessions| && t.sessions[n].finished == 0 ==>
                     t.sessions[n].handle in t.active && t.active[t.sessions[n].handle] == n
  }

  ghost predicate InOrder(log: seq<Event>, t: Tracker) {
    && (forall m, n :: 0 <= m < n < |t.sessions| ==> t.sessions[m].at < t.sessions[n].at)
    && (forall n :: 0 <= n < |t.sessions| ==> t.sessions[n].at < |log|)
    && forall i :: Starts(log, i) ==> exists n :: 0 <= n < |t.sessions| && t.sessions[n].at == i
  }

  ghost predicate Inv(log: seq<Event>, t: Tracker)
    requires WellFormed(t)
  {
    PendingSound(log, t) && PendingComplete(log, t) && AllExact(log, t) && ActiveInv(t) && InOrder(log, t)
  }

  // ---- The history grows ----

  lemma OutstandingGrows(log: seq<Event>, e: Event, j: int, key: Key)
    ensures var log' := log + [e];
            Outstanding(log', j, key) <==>
            (j == |log| && Asks(e, key))
            || (Outstanding(log, j, key) && !Asks(e, key) && !Answers(e, key, log[j].signal))
  {
    var log' := log + [e];
    assert log'[|log|] == e && forall k :: 0 <= k < |log| ==> log'[k] == log[k];
  }

  lemma AcceptsGrows(log: seq<Event>, e: Event, i: int, j: int)
    requires i < |log|
    ensures Accepts(log + [e], i, j) <==> Accepts(log, i, j)
  {
    var log' := log + [e];
    if 0 <= j < i {
      assert log'[..i] == log[..i] && log'[i] == log[i] && log'[j] == log[j];
    }
  }

  lemma StartsGrows(log: seq<Event>, e: Event, i: int)
    requires i < |log|
    ensures Starts(log + [e], i) <==> Starts(log, i)
  {
    hide Accepts;
    forall j
      ensures Accepts(log + [e], i, j) <==> Accepts(log, i, j)
    {
      AcceptsGrows(log, e, i, j);
    }
  }

  lemma EndsGrows(log: seq<Event>, e: Event, i: nat, h: nat)
    requires i <= |log|
    ensures EndedSince(log + [e], i, h) <==> EndedSince(log, i, h) || Ends(log + [e], |log|, h)
  {
    hide Starts;
    var log' := log + [e];
    forall k | 0 <= k < |log|
      ensures Ends(log', k, h) <==> Ends(log, k, h)
    {
      StartsGrows(log, e, k);
      assert log'[k] == log[k];
    }
    assert Ends(log', |log|, h) ==> EndedSince(log', i, h);
    if EndedSince(log, i, h) {
      var k :| i <= k < |log| && Ends(log, k, h);
      assert Ends(log', k, h);
    }
  }

  lemma MediaGrows(log: seq<Event>, e: Event, i: nat, h: nat)
    requires i <= |log|
    ensures MediaSince(log + [e], i, h) ==
            MediaSince(log, i, h) + if e.Media? && e.handle == h && !EndedSince(log, i, h) then [e.data] else []
  {
    assert (log + [e])[..|log|] == log;
  }

  // ---- Pending commands ----

  lemma PendingStep(log: seq<Event>, t: Tracker, e: Event, key: Key)
    requires WellFormed(t)
    ensures var t' := Apply(t, e, |log|);
            if Asks(e, key) then key in t'.pending && t'.pending[key] == Pending(|log|, e.cfg, e.signal)
            else if key in t.pending && Answers(e, key, t.pending[key].signal) then key !in t'.pending
            else (key in t'.pending <==> key in t.pending) && (key in t.pending ==> t'.pending[key] == t.pending[key])
  {
  }

  lemma PendingKept(log: seq<Event>, t: Tracker, e: Event)
    requires WellFormed(t) && PendingSound(log, t) && PendingComplete(log, t)
    ensures PendingSound(log + [e], Apply(t, e, |log|)) && PendingComplete(log + [e], Apply(t, e, |log|))
  {
    hide Apply, Outstanding;
    var log', t' := log + [e], Apply(t, e, |log|);
    forall key | key in t'.pending
      ensures Shown(log', key, t'.pending[key])
    {
      PendingSoundStep(log, t, e, key);
    }
    forall key, j | Outstanding(log', j, key)
      ensures key in t'.pending && t'.pending[key].at == j
    {
      PendingCompleteStep(log, t, e, key, j);
    }
  }

  lemma PendingSoundStep(log: seq<Event>, t: Tracker, e: Event, key: Key)
    requires WellFormed(t) && PendingSound(log, t) && key in Apply(t, e, |log|).pending
    ensures Shown(log + [e], key, Apply(t, e, |log|).pending[key])
  {
    hide Apply;
    PendingStep(log, t, e, key);
    if Asks(e, key) {
      OutstandingGrows(log, e, |log|, key);
    } else {
      OutstandingGrows(log, e, t.pending[key].at, key);
    }
  }

  lemma PendingCompleteStep(log: seq<Event>, t: Tracker, e: Event, key: Key, j: int)
    requires WellFormed(t) && PendingSound(log, t) && PendingComplete(log, t) && Outstanding(log + [e], j, key)
    ensures key in Apply(t, e, |log|).pending && Apply(t, e, |log|).pending[key].at == j
  {
    hide Apply, Outstanding;
    PendingStep(log, t, e, key);
    OutstandingGrows(log, e, j, key);
  }

  // ---- Sessions ----

  /** The tracker's own test, before e is applied. */
  predicate StartsNow(t: Tracker, e: Event) {
    e.Response? && e.accepted
    && var key := Key(e.handle, Opposite(e.dir), e.tag);
    key in t.pending && t.pending[key].signal == e.signal
  }

  predicate EndsNow(t: Tracker, e: Event, h: nat) {
    e.handle == h && (StartsNow(t, e) || (e.ChannelClosed? && !e.first) || e.LinkGone?)
  }

  lemma StartsNowExactly(log: seq<Event>, t: Tracker, e: Event)
    requires PendingSound(log, t) && PendingComplete(log, t)
    ensures StartsNow(t, e) <==> Starts(log + [e], |log|)
    ensures StartsNow(t, e) ==> Accepts(log + [e], |log|, t.pending[Key(e.handle, Opposite(e.dir), e.tag)].at)
  {
    hide Outstanding;
    var log' := log + [e];
    assert log'[..|log|] == log && log'[|log|] == e;
    if e.Response? {
      var key := Key(e.handle, Opposite(e.dir), e.tag);
      if StartsNow(t, e) {
        var j := t.pending[key].at;
        OutstandingInside(log, j, key);
        assert log'[j] == log[j];
        assert Accepts(log', |log|, j);
      }
      if Starts(log', |log|) {
        var j :| Accepts(log', |log|, j);
        OutstandingInside(log, j, key);
        assert log'[j] == log[j];
      }
    }
  }

  lemma OutstandingInside(log: seq<Event>, j: int, key: Key)
    requires Outstanding(log, j, key)
    ensures 0 <= j < |log| && log[j].Command?
  {
  }

  lemma EndsNowExactly(log: seq<Event>, t: Tracker, e: Event, h: nat)
    requires PendingSound(log, t) && PendingComplete(log, t)
    ensures EndsNow(t, e, h) <==> Ends(log + [e], |log|, h)
  {
    hide Starts;
    StartsNowExactly(log, t, e);
    assert (log + [e])[|log|] == e;
  }

  /** What one event makes of one session. */
  function Advanced(t: Tracker, s: Session, e: Event): Session {
    if s.finished != 0 then s
    else if EndsNow(t, e, s.handle) then s.(finished := 1)
    else if e.Media? && e.handle == s.handle then s.(packets := s.packets + [e.data])
    else s
  }

  lemma AdvancedIsExact(log: seq<Event>, t: Tracker, s: Session, e: Event)
    requires PendingSound(log, t) && PendingComplete(log, t) && Exact(log, s)
    ensures Exact(log + [e], Advanced(t, s, e))
  {
    hide Outstanding, Ends, EndedSince, MediaSince, PendingSound, PendingComplete;
    var log' := log + [e];
    AcceptsGrows(log, e, s.at, s.command);
    assert log'[s.at] == log[s.at] && log'[s.command] == log[s.command];
    EndsGrows(log, e, s.at + 1, s.handle);
    MediaGrows(log, e, s.at + 1, s.handle);
    EndsNowExactly(log, t, e, s.handle);
    assert MediaSince(log, s.at + 1, s.handle) + [] == MediaSince(log, s.at + 1, s.handle);
  }

  /** A new session is exact from its first moment. */
  lemma NewIsExact(log: seq<Event>, t: Tracker, e: Event)
    requires PendingSound(log, t) && PendingComplete(log, t) && StartsNow(t, e)
    ensures var p := t.pending[Key(e.handle, Opposite(e.dir), e.tag)];
            Exact(log + [e], Session(p.at, |log|, e.handle, p.cfg, [], 0))
  {
    hide Starts;
    var log' := log + [e];
    var p := t.pending[Key(e.handle, Opposite(e.dir), e.tag)];
    StartsNowExactly(log, t, e);
    assert log'[|log|] == e && log'[p.at] == log[p.at];
    assert !EndedSince(log', |log| + 1, e.handle);
  }

  lemma FinishEffect(t: Tracker, h: nat, n: nat)
    requires WellFormed(t) && ActiveInv(t) && n < |t.sessions|
    ensures var s, s' := t.sessions[n], FinishSession(t, h).sessions[n];
            s' == if s.finished == 0 && s.handle == h then s.(finished := 1) else s
  {
  }

  lemma FinishKeepsActive(t: Tracker, h: nat)
    requires WellFormed(t) && ActiveInv(t)
    ensures ActiveInv(FinishSession(t, h))
  {
    var t' := FinishSession(t, h);
    forall n | 0 <= n < |t'.sessions| && t'.sessions[n].finished == 0
      ensures t'.sessions[n].handle in t'.active && t'.active[t'.sessions[n].handle] == n
    {
      FinishEffect(t, h, n);
    }
    forall h' | h' in t'.active
      ensures t'.sessions[t'.active[h']].handle == h' && t'.sessions[t'.active[h']].finished == 0
    {
      FinishEffect(t, h, t.active[h']);
    }
  }

  lemma StartKeepsActive(t: Tracker, s: Session)
    requires WellFormed(t) && ActiveInv(t) && s.finished == 0
    ensures ActiveInv(StartSession(t, s))
  {
    hide FinishSession;
    FinishKeepsActive(t, s.handle);
    var t1 := FinishSession(t, s.handle);
    var t' := StartSession(t, s);
    assert forall n :: 0 <= n < |t1.sessions| ==> t'.sessions[n] == t1.sessions[n];
  }

  lemma ApplyKeepsActive(t: Tracker, e: Event, at: nat)
    requires WellFormed(t) && ActiveInv(t)
    ensures ActiveInv(Apply(t, e, at))
  {
    hide FinishSession, StartSession;
    match e
    case Command(_, _, _, _, _) =>
    case Response(_, _, _, _, _) =>
      if StartsNow(t, e) {
        var p := t.pending[Key(e.handle, Opposite(e.dir), e.tag)];
        StartKeepsActive(t, Session(p.at, at, e.handle, p.cfg, [], 0));
      }
    case ChannelClosed(h, _) => FinishKeepsActive(t, h);
    case LinkGone(h) => FinishKeepsActive(t, h);
    case Media(_, _) =>
  }

  /** The effect of any event on the sessions, one by one. */
  lemma ApplyEffect(t: Tracker, e: Event, at: nat)
    requires WellFormed(t) && ActiveInv(t)
    ensures var t' := Apply(t, e, at);
            && |t'.sessions| == |t.sessions| + (if StartsNow(t, e) then 1 else 0)
            && (forall n :: 0 <= n < |t.sessions| ==> t'.sessions[n] == Advanced(t, t.sessions[n], e))
            && (StartsNow(t, e) ==>
                 var p := t.pending[Key(e.handle, Opposite(e.dir), e.tag)];
                 t'.sessions[|t.sessions|] == Session(p.at, at, e.handle, p.cfg, [], 0))
  {
    hide FinishSession;
    forall n, h | 0 <= n < |t.sessions|
      ensures FinishSession(t, h).sessions[n] ==
              var s := t.sessions[n]; if s.finished == 0 && s.handle == h then s.(finished := 1) else s
    {
      FinishEffect(t, h, n);
    }
  }

  lemma SessionsKept(log: seq<Event>, t: Tracker, e: Event)
    requires WellFormed(t) && Inv(log, t)
    ensures AllExact(log + [e], Apply(t, e, |log|))
  {
    hide Apply, Exact, Advanced, PendingSound, PendingComplete, InOrder;
    var t' := Apply(t, e, |log|);
    ApplyEffect(t, e, |log|);
    forall n | 0 <= n < |t'.sessions|
      ensures Exact(log + [e], t'.sessions[n])
    {
      if n < |t.sessions| {
        AdvancedIsExact(log, t, t.sessions[n], e);
      } else {
        NewIsExact(log, t, e);
      }
    }
  }

  lemma OrderKept(log: seq<Event>, t: Tracker, e: Event)
    requires WellFormed(t) && Inv(log, t)
    ensures InOrder(log + [e], Apply(t, e, |log|))
  {
    hide Apply, Exact, EndsNow, PendingSound, PendingComplete, ActiveInv, Starts;
    var log', t' := log + [e], Apply(t, e, |log|);
    ApplyEffect(t, e, |log|);
    StartsNowExactly(log, t, e);
    assert forall n :: 0 <= n < |t.sessions| ==> t'.sessions[n].at == t.sessions[n].at;
    forall i | Starts(log', i)
      ensures exists n :: 0 <= n < |t'.sessions| && t'.sessions[n].at == i
    {
      StartsInside(log', i);
      if i < |log| {
        StartsGrows(log, e, i);
        var n :| 0 <= n < |t.sessions| && t.sessions[n].at == i;
        assert t'.sessions[n].at == i;
      } else {
        assert t'.sessions[|t.sessions|].at == i;
      }
    }
  }

  lemma StartsInside(log: seq<Event>, i: int)
    requires Starts(log, i)
    ensures 0 <= i < |log|
  {
  }

  lemma {:induction false} TrackerInv(log: seq<Event>)
    ensures Inv(log, Track(log))
  {
    hide Apply, PendingSound, PendingComplete, AllExact, ActiveInv, InOrder;
    if log == [] {
      NothingYet();
    } else {
      var front, e := log[..|log| - 1], log[|log| - 1];
      assert log == front + [e];
      TrackerInv(front);
      var t := Track(front);
      PendingKept(front, t, e);
      SessionsKept(front, t, e);
      ApplyKeepsActive(t, e, |front|);
      OrderKept(front, t, e);
    }
  }

  lemma NothingYet()
    ensures Inv([], NO_SESSIONS)
  {
  }

  // ---- Captures ----

  predicate Consistent(a: Analysis) { WellFormed(a.tracker) && a.tracker == Track(a.log) }

  lemma EmitConsistent(a: Analysis, e: Event)
    requires Consistent(a)
    ensures Consistent(Emit(a, e))
  {
    hide Apply;
    assert (a.log + [e])[..|a.log|] == a.log;
  }

  lemma SignalConsistent(a: Analysis, h: nat, dir: Dir, code: byte, id: byte, d: seq<byte>)
    requires Consistent(a)
    ensures Consistent(Signal(a, h, dir, code, id, d))
  {
    hide Track, Apply, Emit, WellFormed;
    if code == 6 && |d| >= 4 {
      var i := FindLocal(ChannelsOf(a, h), if dir.Out? then Le16(d, 2) else Le16(d, 0), 0);
      EmitConsistent(a, ChannelClosed(h, i == 0));
    }
  }

  lemma {:induction false} SignalsConsistent(a: Analysis, h: nat, dir: Dir, p: seq<byte>, off: nat)
    requires Consistent(a)
    ensures Consistent(Signals(a, h, dir, p, off))
    decreases |p| - off
  {
    hide Track, Signal, WellFormed;
    if off + 4 <= |p| {
      var len: nat := Le16(p, off + 2);
      if off + 4 + len <= |p| {
        var d := p[off + 4..off + 4 + len];
        SignalConsistent(a, h, dir, p[off], p[off + 1], d);
        SignalsConsistent(Signal(a, h, dir, p[off], p[off + 1], d), h, dir, p, off + 4 + len);
      }
    }
  }

  lemma StepConsistent(a: Analysis, mediaDir: Dir, input: Input)
    requires Consistent(a)
    ensures Consistent(Step(a, mediaDir, input))
  {
    hide Track, Emit, Signals, Capabilities;
    forall e
      ensures Consistent(Emit(a, e))
    {
      EmitConsistent(a, e);
    }
    if input.L2capFrame? {
      SignalsConsistent(a, input.handle, input.dir, input.payload, 0);
    }
  }

  /** In every capture the tracker is what the history makes it. */
  lemma {:induction false} CaptureConsistent(mediaDir: Dir, inputs: seq<Input>)
    ensures Consistent(After(mediaDir, inputs))
  {
    hide Step;
    if inputs == [] {
    } else {
      var front := inputs[..|inputs| - 1];
      CaptureConsistent(mediaDir, front);
      StepConsistent(After(mediaDir, front), mediaDir, inputs[|inputs| - 1]);
    }
  }

  // ---- Results ----

  /** In every capture, each session is one accepted configuration of its link, and its packets are exactly
      the media packets from then until the next accepted configuration, the close of a media channel or the
      link's end; no other packet is given to any session. Every accepted configuration has its session. */
  lemma SessionsExactly(mediaDir: Dir, inputs: seq<Input>)
    ensures var a := After(mediaDir, inputs);
            && (forall n :: 0 <= n < |a.tracker.sessions| ==> Exact(a.log, a.tracker.sessions[n]))
            && (forall i :: Starts(a.log, i) ==>
                              exists n :: 0 <= n < |a.tracker.sessions| && a.tracker.sessions[n].at == i)
  {
    hide After, Exact, Starts, Track;
    var a := After(mediaDir, inputs);
    CaptureConsistent(mediaDir, inputs);
    TrackerInv(a.log);
  }

  /** At most one session of a link is unfinished, and it is the active one; none is finished twice. */
  lemma OneActivePerLink(mediaDir: Dir, inputs: seq<Input>, m: nat, n: nat)
    requires var t := After(mediaDir, inputs).tracker;
             && m < |t.sessions| && n < |t.sessions| && t.sessions[m].handle == t.sessions[n].handle
             && t.sessions[m].finished == 0 && t.sessions[n].finished == 0
    ensures m == n
    ensures var t := After(mediaDir, inputs).tracker;
            t.sessions[m].handle in t.active && t.active[t.sessions[m].handle] == m
  {
    hide After, Exact, Starts, Track;
    CaptureConsistent(mediaDir, inputs);
    TrackerInv(After(mediaDir, inputs).log);
  }

  /** A packet is given to session n only as the current session of its link: accepted at `at`, with nothing
      since that ends it. */
  lemma MediaGoesToTheCurrentSession(log: seq<Event>, h: nat, data: seq<byte>, n: nat)
    requires n < |Track(log).sessions|
    requires Apply(Track(log), Media(h, data), |log|).sessions[n] != Track(log).sessions[n]
    ensures var s := Track(log).sessions[n];
            Accepts(log, s.at, s.command) && s.handle == h && !EndedSince(log, s.at + 1, h)
  {
    hide Track, Accepts, EndedSince, PendingSound, PendingComplete;
    TrackerInv(log);
    assert Exact(log, Track(log).sessions[n]);
  }

  // ---- The byte formats ----

  /** An L2CAP signalling command. */
  datatype SignalCommand = SignalCommand(code: byte, id: byte, data: seq<byte>)

  predicate SignalFits(cs: seq<SignalCommand>) { forall i :: 0 <= i < |cs| ==> |cs[i].data| < 0x1_0000 }

  function SignalBytes(cs: seq<SignalCommand>): seq<byte>
    requires SignalFits(cs)
  {
    if cs == [] then []
    else [cs[0].code, cs[0].id] + Put16(|cs[0].data|) + cs[0].data + SignalBytes(cs[1..])
  }

  function SignalAll(a: Analysis, h: nat, dir: Dir, cs: seq<SignalCommand>): Analysis
    requires WellFormed(a.tracker)
    decreases |cs|
  {
    if cs == [] then a else SignalAll(Signal(a, h, dir, cs[0].code, cs[0].id, cs[0].data), h, dir, cs[1..])
  }

  /** The walk takes each command of a frame, in order, and stops at a tail that is not whole. */
  lemma {:induction false} SignalsRead(a: Analysis, h: nat, dir: Dir, p: seq<byte>, off: nat, cs: seq<SignalCommand>,
                                       tail: seq<byte>)
    requires WellFormed(a.tracker) && SignalFits(cs) && off <= |p| && p[off..] == SignalBytes(cs) + tail
    requires |tail| < 4 || |tail| < 4 + Le16(tail, 2)
    ensures Signals(a, h, dir, p, off) == SignalAll(a, h, dir, cs)
    decreases |cs|
  {
    hide Signal, Put16, Le16;
    if cs == [] {
      assert p[off..] == tail;
      if |tail| >= 4 {
        SameLe16(p, off, tail);
      }
    } else {
      var c := cs[0];
      var body := SignalBytes(cs[1..]) + tail;
      assert SignalBytes(cs) + tail == [c.code, c.id] + Put16(|c.data|) + c.data + body;
      SignalHead(p, off, c, body);
      SignalsRead(Signal(a, h, dir, c.code, c.id, c.data), h, dir, p, off + 4 + |c.data|, cs[1..], tail);
    }
  }

  lemma SameLe16(p: seq<byte>, off: nat, rest: seq<byte>)
    requires off <= |p| && p[off..] == rest && |rest| >= 4
    ensures Le16(p, off + 2) == Le16(rest, 2)
  {
    assert p[off + 2] == rest[2] && p[off + 3] == rest[3];
  }

  lemma SignalHead(p: seq<byte>, off: nat, c: SignalCommand, body: seq<byte>)
    requires |c.data| < 0x1_0000 && off <= |p| && p[off..] == [c.code, c.id] + Put16(|c.data|) + c.data + body
    ensures off + 4 + |c.data| <= |p|
    ensures p[off] == c.code && p[off + 1] == c.id && Le16(p, off + 2) == |c.data|
    ensures p[off + 4..off + 4 + |c.data|] == c.data && p[off + 4 + |c.data|..] == body
  {
    hide Put16, Le16;
    var rest := [c.code, c.id] + Put16(|c.data|) + c.data + body;
    Inside(p, off, rest, 2, 4);
    Inside(p, off, rest, 4, 4 + |c.data|);
    assert p[off] == rest[0] && p[off + 1] == rest[1];
    Read16(p, off + 2, |c.data|);
  }

  datatype Capability = Capability(category: byte, content: seq<byte>)

  predicate CapabilityFits(cs: seq<Capability>) { forall i :: 0 <= i < |cs| ==> |cs[i].content| < 256 }

  function CapabilityBytes(cs: seq<Capability>): seq<byte>
    requires CapabilityFits(cs)
  {
    if cs == [] then [] else [cs[0].category, |cs[0].content|] + cs[0].content + CapabilityBytes(cs[1..])
  }

  /** The last Media Codec capability, if any. */
  function LastCodec(cs: seq<Capability>): Config {
    if cs == [] then NoCodec
    else if cs[|cs| - 1].category == 7 then Codec(cs[|cs| - 1].content) else LastCodec(cs[..|cs| - 1])
  }

  /** The walk finds the last Media Codec capability, and stops at a tail that is not whole. */
  lemma {:induction false} CapabilitiesRead(cfg: Config, d: seq<byte>, off: nat, cs: seq<Capability>, tail: seq<byte>)
    requires CapabilityFits(cs) && off <= |d| && d[off..] == CapabilityBytes(cs) + tail
    requires |tail| < 2 || |tail| < 2 + tail[1] as nat
    ensures Capabilities(cfg, d, off) == if LastCodec(cs).Codec? then LastCodec(cs) else cfg
    decreases |cs|
  {
    hide LastCodec;
    if cs == [] {
      NoLastCodec(cs);
      assert d[off..] == tail;
      assert |tail| >= 2 ==> d[off + 1] == tail[1];
    } else {
      var c := cs[0];
      var body := CapabilityBytes(cs[1..]) + tail;
      assert CapabilityBytes(cs) + tail == [c.category, |c.content|] + c.content + body;
      CapabilityHead(d, off, c, body);
      CapabilitiesRead(if c.category == 7 then Codec(c.content) else cfg, d, off + 2 + |c.content|, cs[1..], tail);
      LastCodecOfRest(cs);
    }
  }

  lemma NoLastCodec(cs: seq<Capability>)
    requires cs == []
    ensures LastCodec(cs) == NoCodec
  {
  }

  lemma CapabilityHead(d: seq<byte>, off: nat, c: Capability, body: seq<byte>)
    requires |c.content| < 256 && off <= |d| && d[off..] == [c.category, |c.content|] + c.content + body
    ensures off + 2 + |c.content| <= |d| && d[off] == c.category && d[off + 1] == |c.content|
    ensures d[off + 2..off + 2 + |c.content|] == c.content && d[off + 2 + |c.content|..] == body
  {
    var rest := [c.category, |c.content|] + c.content + body;
    Inside(d, off, rest, 2, 2 + |c.content|);
    assert d[off] == rest[0] && d[off + 1] == rest[1];
  }

  lemma {:induction false} LastCodecOfRest(cs: seq<Capability>)
    requires cs != []
    ensures LastCodec(cs) ==
            if LastCodec(cs[1..]).Codec? then LastCodec(cs[1..])
            else if cs[0].category == 7 then Codec(cs[0].content) else NoCodec
    decreases |cs|
  {
    if |cs| > 1 {
      var front := cs[..|cs| - 1];
      assert cs[1..][..|cs| - 2] == front[1..];
      LastCodecOfRest(front);
    } else {
      assert cs[1..] == [] && cs[..0] == [];
    }
  }

  // ---- From bytes to channels and sessions ----

  lemma OneSignal(a: Analysis, mediaDir: Dir, h: nat, dir: Dir, c: SignalCommand)
    requires WellFormed(a.tracker) && |c.data| < 0x1_0000
    ensures Step(a, mediaDir, L2capFrame(h, dir, 1, SignalBytes([c]))) == Signal(a, h, dir, c.code, c.id, c.data)
  {
    hide Signal, Signals;
    var cs: seq<SignalCommand> := [c];
    var none: seq<SignalCommand> := [];
    var p := SignalBytes(cs);
    assert cs[1..] == none;
    assert p[0..] == p + [];
    SignalsRead(a, h, dir, p, 0, cs, []);
    assert SignalAll(a, h, dir, cs) == SignalAll(Signal(a, h, dir, c.code, c.id, c.data), h, dir, none);
  }

  function Request(id: byte, psm: u16, scid: u16): SignalCommand { SignalCommand(2, id, Put16(psm) + Put16(scid)) }

  function Response4(id: byte, dcid: u16, scid: u16, result: u16, status: u16): SignalCommand {
    SignalCommand(3, id, Put16(dcid) + Put16(scid) + Put16(result) + Put16(status))
  }

  lemma ReadTwo(x: u16, y: u16, rest: seq<byte>)
    ensures var d := Put16(x) + Put16(y) + rest; Le16(d, 0) == x && Le16(d, 2) == y
  {
    hide Put16, Le16;
    var d := Put16(x) + Put16(y) + rest;
    assert d[0..2] == Put16(x) && d[2..4] == Put16(y);
    Read16(d, 0, x);
    Read16(d, 2, y);
  }

  /** A connection request and its success, in bytes, from either side: the channel is added last, its local
      CID the capturing host's and its remote CID the other's. */
  lemma ChannelOpens(a: Analysis, mediaDir: Dir, h: nat, dir: Dir, id: byte, scid: u16, dcid: u16, status: u16)
    requires WellFormed(a.tracker)
    ensures var a1 := Step(a, mediaDir, L2capFrame(h, dir, 1, SignalBytes([Request(id, 0x0019, scid)])));
            var ok := L2capFrame(h, Opposite(dir), 1, SignalBytes([Response4(id, dcid, scid, 0, status)]));
            var a2 := Step(a1, mediaDir, ok);
            && ChannelsOf(a2, h) == ChannelsOf(a, h) + [if dir.Out? then Channel(scid, dcid) else Channel(dcid, scid)]
            && a2.log == a.log && a2.tracker == a.tracker
  {
    hide Step, SignalBytes, Put16, Le16;
    var req, resp := Request(id, 0x0019, scid), Response4(id, dcid, scid, 0, status);
    OneSignal(a, mediaDir, h, dir, req);
    var a1 := Signal(a, h, dir, 2, id, req.data);
    OneSignal(a1, mediaDir, h, Opposite(dir), resp);
    ReadTwo(0x0019, scid, []);
    assert Put16(0x0019) + Put16(scid) + [] == req.data;
    ReadTwo(dcid, scid, Put16(0) + Put16(status));
    assert Put16(dcid) + Put16(scid) + (Put16(0) + Put16(status)) == resp.data;
    assert resp.data[4..6] == Put16(0);
    Read16(resp.data, 4, 0);
  }

  /** An AVDTP configuration command or its answer: message type 0 is a command, 2 an accept. */
  function Message(tag: nat, kind: nat, signal: nat, body: seq<byte>): seq<byte>
    requires tag < 16 && kind < 4 && signal < 64
  {
    [tag * 16 + kind, signal] + body
  }

  lemma MessageRead(a: Analysis, h: nat, dir: Dir, tag: nat, kind: nat, signal: nat, body: seq<byte>)
    requires WellFormed(a.tracker) && tag < 16 && kind < 4 && (signal == 3 || signal == 5)
    ensures AvdtpSignal(a, h, dir, Message(tag, kind, signal, body)) ==
            Emit(a, if kind == 0
                    then Command(h, dir, tag, signal, Capabilities(NoCodec, body, if signal == 3 then 2 else 1))
                    else Response(h, dir, tag, signal, kind == 2))
  {
    hide Emit, Capabilities;
    var p := Message(tag, kind, signal, body);
    assert p[2..] == body;
    assert p[0] / 16 == tag && p[0] / 4 % 4 == 0 && p[0] % 4 == kind;
  }

  /** A configuration asked for and accepted on the signalling channel, in bytes: a new session of the link,
      of the last codec the command names, is the active one. */
  lemma ConfigurationAccepted(a: Analysis, mediaDir: Dir, h: nat, dir: Dir, tag: nat, seids: seq<byte>,
                              cs: seq<Capability>)
    requires WellFormed(a.tracker) && tag < 16 && 1 <= |seids| <= 2 && CapabilityFits(cs)
    requires ChannelsOf(a, h) != [] && ChannelsOf(a, h)[0].local != 1 && ChannelsOf(a, h)[0].remote != 1
    ensures var c := ChannelsOf(a, h)[0];
            var signal := if |seids| == 2 then 3 else 5;
            var ask := L2capFrame(h, dir, CidOf(c, dir), Message(tag, 0, signal, seids + CapabilityBytes(cs)));
            var accept := L2capFrame(h, Opposite(dir), CidOf(c, Opposite(dir)), Message(tag, 2, signal, []));
            var t := Step(Step(a, mediaDir, ask), mediaDir, accept).tracker;
            var n := |a.tracker.sessions|;
            && |t.sessions| == n + 1 && h in t.active && t.active[h] == n
            && t.sessions[n] == Session(|a.log|, |a.log| + 1, h, LastCodec(cs), [], 0)
  {
    hide CapabilityBytes, LastCodec, Message, Capabilities, FinishSession, AvdtpSignal;
    var signal := if |seids| == 2 then 3 else 5;
    var body := seids + CapabilityBytes(cs);
    assert body[|seids|..] == CapabilityBytes(cs) + [];
    CapabilitiesRead(NoCodec, body, |seids|, cs, []);
    CodecOrNone(cs);
    MessageRead(a, h, dir, tag, 0, signal, body);
    var a1 := Emit(a, Command(h, dir, tag, signal, LastCodec(cs)));
    MessageRead(a1, h, Opposite(dir), tag, 2, signal, []);
  }

  lemma CodecOrNone(cs: seq<Capability>)
    ensures LastCodec(cs).Codec? || LastCodec(cs) == NoCodec
  {
  }

  /** A frame on a media channel in the media direction reaches the active session whole. */
  lemma MediaReaches(a: Analysis, mediaDir: Dir, h: nat, i: nat, p: seq<byte>)
    requires WellFormed(a.tracker) && 0 < i < |ChannelsOf(a, h)| && CidOf(ChannelsOf(a, h)[i], mediaDir) != 1
    requires forall j :: 0 <= j < i ==> CidOf(ChannelsOf(a, h)[j], mediaDir) != CidOf(ChannelsOf(a, h)[i], mediaDir)
    requires h in a.tracker.active
    ensures var n := a.tracker.active[h];
            var s := a.tracker.sessions[n];
            Step(a, mediaDir, L2capFrame(h, mediaDir, CidOf(ChannelsOf(a, h)[i], mediaDir), p)).tracker ==
            a.tracker.(sessions := a.tracker.sessions[n := s.(packets := s.packets + [p])])
  {
  }
}
