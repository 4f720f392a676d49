/** The polling mailbox: pushers, closers, the poller and the consumer as interleaved steps.
    A critical section is one step, except that a pusher keeps the lock while its send waits
    for room. Closing a closed channel and sending on one are recorded as panics. */
module Mailbox {
  import opened Options

  /** A push ends with its message at a place in the channel's history, or without one. */
  datatype Push<M> = Wanting(msg: M) | Inside(msg: M) | Pushed(msg: M, at: Option<nat>)

  datatype Closer = Arriving | Awaiting | Closing | Left

  datatype Poller<M> = Absent | Selecting | Calling | Got(msg: M) | Exited

  /** What became of a message that the poller received. */
  datatype Fate<M> = Delivered(msg: M) | Dropped(msg: M, buffered: nat) | Late(msg: M)

  datatype Sent<M> = Sent(polled: bool, msg: M)

  datatype State<M> = State(
    cap: nat,
    buffer: seq<M>, consumed: seq<M>,
    closed: bool, lock: Option<nat>,
    chanCloses: nat, stopCloses: nat, doneCloses: nat,
    pushers: seq<Push<M>>, closers: seq<Closer>, winner: Option<nat>, poller: Poller<M>,
    received: seq<M>, fates: seq<Fate<M>>, sent: seq<Sent<M>>,
    panicked: bool)

  /** `NewMailbox` starts the poller; `NewMailboxFromChan` has none and its `done` is closed at once. */
  function Initial<M>(cap: nat, polling: bool): State<M> {
    State(cap, [], [], false, None, 0, 0, if polling then 0 else 1, [], [], None,
          if polling then Selecting else Absent, [], [], [], false)
  }

  datatype Step<M> =
    | StartPush(msg: M) | EnterPush(p: nat) | FinishPush(p: nat)
    | StartClose | EnterClose(c: nat) | SeeDone(c: nat) | CloseChan(c: nat)
    | SeeStop | Tick | CallFails | CallEmpty | CallGives(msg: M) | Store
    | Consume

  /** A send goes through when the buffer has room. */
  predicate HasRoom<M>(s: State<M>) { |s.buffer| < s.cap }

  function SendMsg<M>(s: State<M>, polled: bool, m: M): State<M> {
    s.(buffer := s.buffer + [m], sent := s.sent + [Sent(polled, m)], panicked := s.panicked || s.chanCloses > 0)
  }

  function SetPush<M>(s: State<M>, p: nat, to: Push<M>): State<M>
    requires p < |s.pushers|
  { s.(pushers := s.pushers[p := to]) }

  function SetCloser<M>(s: State<M>, c: nat, to: Closer): State<M>
    requires c < |s.closers|
  { s.(closers := s.closers[c := to]) }

  /** The poller leaves; its deferred call closes `done`. */
  function Leave<M>(s: State<M>): State<M> {
    s.(poller := Exited, doneCloses := s.doneCloses + 1, panicked := s.panicked || s.doneCloses > 0)
  }

  function Apply<M>(s: State<M>, step: Step<M>): Option<State<M>> {
    match step
    case StartPush(m) => Some(s.(pushers := s.pushers + [Wanting(m)]))
    case EnterPush(p) =>
      if p < |s.pushers| && s.pushers[p].Wanting? && s.lock.None? then
        if s.closed then Some(SetPush(s, p, Pushed(s.pushers[p].msg, None)))
        else Some(SetPush(s, p, Inside(s.pushers[p].msg)).(lock := Some(p)))
      else None
    case FinishPush(p) =>
      if p < |s.pushers| && s.pushers[p].Inside? && HasRoom(s)
      then
        var m := s.pushers[p].msg;
        Some(SetPush(SendMsg(s, false, m), p, Pushed(m, Some(|s.sent|))).(lock := None))
      else None
    case StartClose => Some(s.(closers := s.closers + [Arriving]))
    case EnterClose(c) =>
      if c < |s.closers| && s.closers[c].Arriving? && s.lock.None? then
        if s.closed then Some(SetCloser(s, c, Left))
        else
          var s1 := if s.stopCloses == 0 then s.(stopCloses := 1) else s;
          Some(SetCloser(s1, c, Awaiting).(closed := true, winner := Some(c)))
      else None
    case SeeDone(c) =>
      if c < |s.closers| && s.closers[c].Awaiting? && s.doneCloses > 0 then Some(SetCloser(s, c, Closing)) else None
    case CloseChan(c) =>
      if c < |s.closers| && s.closers[c].Closing?
      then Some(SetCloser(s, c, Left).(chanCloses := s.chanCloses + 1, panicked := s.panicked || s.chanCloses > 0))
          else None
    case SeeStop => if s.poller.Selecting? && s.stopCloses > 0 then Some(Leave(s)) else None
    case Tick => if s.poller.Selecting? then Some(s.(poller := Calling)) else None
    case CallFails => if s.poller.Calling? then Some(Leave(s)) else None
    case CallEmpty => if s.poller.Calling? then Some(s.(poller := Selecting)) else None
    case CallGives(m) =>
      if s.poller.Calling? then Some(s.(poller := Got(m), received := s.received + [m])) else None
    case Store =>
      if s.poller.Got? && s.lock.None? then
        var m := s.poller.msg;
        if s.closed then Some(Leave(s).(fates := s.fates + [Late(m)]))
        else if HasRoom(s) then Some(SendMsg(s, true, m).(poller := Calling, fates := s.fates + [Delivered(m)]))
        else Some(s.(poller := Calling, fates := s.fates + [Dropped(m, |s.buffer|)]))
      else None
    case Consume =>
      if s.buffer != [] then Some(s.(buffer := s.buffer[1..], consumed := s.consumed + [s.buffer[0]])) else None
  }

  // ---- Histories

  function FateMsgs<M>(fs: seq<Fate<M>>): seq<M> {
    if fs == [] then [] else FateMsgs(fs[..|fs|-1]) + [fs[|fs|-1].msg]
  }

  function DeliveredMsgs<M>(fs: seq<Fate<M>>): seq<M> {
    if fs == [] then []
    else DeliveredMsgs(fs[..|fs|-1]) + (if fs[|fs|-1].Delivered? then [fs[|fs|-1].msg] else [])
  }

  function SentMsgs<M>(ss: seq<Sent<M>>): seq<M> {
    if ss == [] then [] else SentMsgs(ss[..|ss|-1]) + [ss[|ss|-1].msg]
  }

  function PolledMsgs<M>(ss: seq<Sent<M>>): seq<M> {
    if ss == [] then []
    else PolledMsgs(ss[..|ss|-1]) + (if ss[|ss|-1].polled then [ss[|ss|-1].msg] else [])
  }

  // ---- Invariant

  ghost predicate Control<M>(s: State<M>) {
    && !s.panicked && s.chanCloses <= 1 && s.stopCloses <= 1 && s.doneCloses <= 1
    && (s.chanCloses > 0 ==> s.closed)
    && (forall p :: 0 <= p < |s.pushers| && s.pushers[p].Inside? ==> s.lock == Some(p) && !s.closed)
    && (s.lock.Some? ==> s.lock.value < |s.pushers| && s.pushers[s.lock.value].Inside?)
    && (s.closed <==> s.winner.Some?)
    && (s.winner.Some? ==> s.winner.value < |s.closers| && !s.closers[s.winner.value].Arriving?)
    && (forall c :: 0 <= c < |s.closers| && (s.closers[c].Awaiting? || s.closers[c].Closing?) ==>
        s.winner == Some(c) && s.chanCloses == 0)
    && (s.doneCloses == 1 <==> s.poller.Exited? || s.poller.Absent?)
    && (s.stopCloses == 1 <==> s.closed)
  }

  /** What the poller received is what it has settled, plus the message in hand. */
  ghost predicate History<M>(s: State<M>) {
    && s.received == FateMsgs(s.fates) + (if s.poller.Got? then [s.poller.msg] else [])
    && s.consumed + s.buffer == SentMsgs(s.sent)
    && PolledMsgs(s.sent) == DeliveredMsgs(s.fates)
    && |s.buffer| <= s.cap
    && (forall i :: 0 <= i < |s.fates| && s.fates[i].Dropped? ==> s.fates[i].buffered == s.cap)
  }

  predicate CloserStep<M>(step: Step<M>) { step.StartClose? || step.EnterClose? || step.SeeDone? || step.CloseChan? }

  predicate PushStep<M>(step: Step<M>) { step.StartPush? || step.EnterPush? || step.FinishPush? }

  lemma CloserKept<M>(s: State<M>, step: Step<M>)
    requires Control(s) && Apply(s, step).Some? && CloserStep(step)
    ensures Control(Apply(s, step).value)
  {}

  lemma PusherKept<M>(s: State<M>, step: Step<M>)
    requires Control(s) && Apply(s, step).Some? && PushStep(step)
    ensures Control(Apply(s, step).value)
  {}

  lemma PollerKept<M>(s: State<M>, step: Step<M>)
    requires Control(s) && Apply(s, step).Some? && !CloserStep(step) && !PushStep(step)
    ensures Control(Apply(s, step).value)
  {}

  lemma ControlKept<M>(s: State<M>, step: Step<M>)
    requires Control(s) && Apply(s, step).Some?
    ensures Control(Apply(s, step).value)
  {
    hide Control, Apply;
    if CloserStep(step) { CloserKept(s, step); }
    else if PushStep(step) { PusherKept(s, step); }
    else { PollerKept(s, step); }
  }

  lemma Snoc<M>(fs: seq<Fate<M>>, f: Fate<M>)
    ensures FateMsgs(fs + [f]) == FateMsgs(fs) + [f.msg]
    ensures DeliveredMsgs(fs + [f]) == DeliveredMsgs(fs) + (if f.Delivered? then [f.msg] else [])
  {
    assert (fs + [f])[..|fs|] == fs;
  }

  lemma SentSnoc<M>(ss: seq<Sent<M>>, x: Sent<M>)
    ensures SentMsgs(ss + [x]) == SentMsgs(ss) + [x.msg]
    ensures PolledMsgs(ss + [x]) == PolledMsgs(ss) + (if x.polled then [x.msg] else [])
  {
    assert (ss + [x])[..|ss|] == ss;
  }

  /** What becomes of the message in hand. */
  function FateOf<M>(s: State<M>, m: M): Fate<M> {
    if s.closed then Late(m) else if HasRoom(s) then Delivered(m) else Dropped(m, |s.buffer|)
  }

  lemma StoreMoves<M>(s: State<M>)
    requires Apply(s, Store).Some?
    ensures var s', m := Apply(s, Store).value, s.poller.msg;
            && !s'.poller.Got? && s'.cap == s.cap && s'.received == s.received && s'.consumed == s.consumed
            && s'.fates == s.fates + [FateOf(s, m)]
            && (if FateOf(s, m).Delivered? then s'.buffer == s.buffer + [m] && s'.sent == s.sent + [Sent(true, m)]
                else s'.buffer == s.buffer && s'.sent == s.sent)
  {}

  lemma StoreKept<M>(s: State<M>)
    requires History(s) && Apply(s, Store).Some?
    ensures History(Apply(s, Store).value)
  {
    var m := s.poller.msg;
    StoreMoves(s);
    SentSnoc(s.sent, Sent(true, m));
    Snoc(s.fates, FateOf(s, m));
    assert s.poller.Got?;
    hide FateMsgs, DeliveredMsgs, SentMsgs, PolledMsgs, Apply;
  }

  lemma HistoryKept<M>(s: State<M>, step: Step<M>)
    requires History(s) && Apply(s, step).Some?
    ensures History(Apply(s, step).value)
  {
    hide FateMsgs, DeliveredMsgs, SentMsgs, PolledMsgs;
    if step.FinishPush? { SentSnoc(s.sent, Sent(false, s.pushers[step.p].msg)); }
    if step.Store? { StoreKept(s); }
  }

  // ---- Runs

  function Run<M>(cap: nat, polling: bool, steps: seq<Step<M>>): Option<State<M>> {
    if steps == [] then Some(Initial(cap, polling))
    else
      var before := Run(cap, polling, steps[..|steps|-1]);
      if before.None? then None else Apply(before.value, steps[|steps|-1])
  }

  lemma {:induction false} RunKeeps<M>(cap: nat, polling: bool, steps: seq<Step<M>>)
    requires Run(cap, polling, steps).Some?
    ensures Control(Run(cap, polling, steps).value) && History(Run(cap, polling, steps).value)
  {
    hide Control, History, Apply;
    if steps == [] {
      InitialGood<M>(cap, polling);
    } else {
      var n := |steps| - 1;
      RunKeeps(cap, polling, steps[..n]);
      ControlKept(Run(cap, polling, steps[..n]).value, steps[n]);
      HistoryKept(Run(cap, polling, steps[..n]).value, steps[n]);
    }
  }

  lemma InitialGood<M>(cap: nat, polling: bool)
    ensures Control(Initial<M>(cap, polling)) && History(Initial<M>(cap, polling))
  {}

  /** Under every interleaving no channel is closed twice and nothing is sent after the close. */
  lemma NeverPanics<M>(cap: nat, polling: bool, steps: seq<Step<M>>)
    requires Run(cap, polling, steps).Some?
    ensures var s := Run(cap, polling, steps).value;
            !s.panicked && s.chanCloses <= 1 && s.stopCloses <= 1 && s.doneCloses <= 1
  {
    RunKeeps(cap, polling, steps);
  }

  // ---- What becomes of a push

  /** A push that ended has its message in the channel's history, at a place of its own, unless the
      mailbox is closed; and every message there that was not polled is of one push. */
  ghost predicate Accounted<M>(s: State<M>) {
    && (forall p :: 0 <= p < |s.pushers| ==> PushAccounted(s, p))
    && (forall p, q :: 0 <= p < q < |s.pushers| ==> Apart(s.pushers[p], s.pushers[q]))
    && forall i :: 0 <= i < |s.sent| && !s.sent[i].polled ==> exists p :: SentBy(s, p, i)
  }

  ghost predicate PushAccounted<M>(s: State<M>, p: nat)
    requires p < |s.pushers|
  {
    var push := s.pushers[p];
    push.Pushed? ==>
      if push.at.None? then s.closed
      else push.at.value < |s.sent| && s.sent[push.at.value] == Sent(false, push.msg)
  }

  predicate Apart<M>(a: Push<M>, b: Push<M>) { a.Pushed? && b.Pushed? && a.at.Some? ==> a.at != b.at }

  predicate SentBy<M>(s: State<M>, p: int, i: nat) {
    0 <= p < |s.pushers| && s.pushers[p].Pushed? && s.pushers[p].at == Some(i)
  }

  lemma PushesAccounted<M>(s: State<M>, step: Step<M>, p: nat)
    requires Accounted(s) && Apply(s, step).Some? && p < |Apply(s, step).value.pushers|
    ensures PushAccounted(Apply(s, step).value, p)
  {
    if p < |s.pushers| { assert PushAccounted(s, p); }
  }

  lemma StillApart<M>(s: State<M>, step: Step<M>, p: nat, q: nat)
    requires Accounted(s) && Apply(s, step).Some? && p < q < |Apply(s, step).value.pushers|
    ensures Apart(Apply(s, step).value.pushers[p], Apply(s, step).value.pushers[q])
  {
    assert PushAccounted(s, p);
    if q < |s.pushers| { assert Apart(s.pushers[p], s.pushers[q]) && PushAccounted(s, q); }
  }

  lemma StillSentBy<M>(s: State<M>, step: Step<M>, i: nat) returns (p: int)
    requires Accounted(s) && Apply(s, step).Some?
    requires i < |Apply(s, step).value.sent| && !Apply(s, step).value.sent[i].polled
    ensures SentBy(Apply(s, step).value, p, i)
  {
    if i < |s.sent| { p :| SentBy(s, p, i); } else { p := step.p; }
  }

  lemma AccountedKept<M>(s: State<M>, step: Step<M>)
    requires Accounted(s) && Apply(s, step).Some?
    ensures Accounted(Apply(s, step).value)
  {
    var s' := Apply(s, step).value;
    forall p | 0 <= p < |s'.pushers| ensures PushAccounted(s', p) { PushesAccounted(s, step, p); }
    forall p, q | 0 <= p < q < |s'.pushers| ensures Apart(s'.pushers[p], s'.pushers[q]) {
      StillApart(s, step, p, q);
    }
    forall i | 0 <= i < |s'.sent| && !s'.sent[i].polled ensures exists p :: SentBy(s', p, i) {
      var p := StillSentBy(s, step, i);
    }
    hide Apply, PushAccounted, Apart, SentBy;
  }

  /** The messages of the pushes started in a run, in order. */
  function Started<M>(steps: seq<Step<M>>): seq<M> {
    if steps == [] then []
    else
      var last := steps[|steps|-1];
      Started(steps[..|steps|-1]) + (if last.StartPush? then [last.msg] else [])
  }

  lemma MessagesStay<M>(s: State<M>, step: Step<M>)
    requires Apply(s, step).Some?
    ensures var s' := Apply(s, step).value;
            && |s'.pushers| == |s.pushers| + (if step.StartPush? then 1 else 0)
            && (forall p :: 0 <= p < |s.pushers| ==> s'.pushers[p].msg == s.pushers[p].msg)
            && (step.StartPush? ==> s'.pushers[|s.pushers|].msg == step.msg)
  {}

  /** Every push that ended found the mailbox closed or has its message in the channel's history,
      exactly once and unchanged; a message that came too late found it closed; and the close that
      won has closed the channel by the time it returns. */
  lemma {:induction false} PushesAreSent<M>(cap: nat, polling: bool, steps: seq<Step<M>>)
    requires Run(cap, polling, steps).Some?
    ensures var s := Run(cap, polling, steps).value;
            && Accounted(s)
            && |s.pushers| == |Started(steps)|
            && (forall p :: 0 <= p < |s.pushers| ==> s.pushers[p].msg == Started(steps)[p])
            && Settled(s)
  {
    hide Accounted, Apply, Settled;
    if steps == [] {
      InitialAccounted<M>(cap, polling);
    } else {
      var n := |steps| - 1;
      var s := Run(cap, polling, steps[..n]).value;
      PushesAreSent(cap, polling, steps[..n]);
      AccountedKept(s, steps[n]);
      MessagesStay(s, steps[n]);
      RunKeeps(cap, polling, steps[..n]);
      SettledKept(s, steps[n]);
    }
  }

  ghost predicate Settled<M>(s: State<M>) {
    && (forall i :: 0 <= i < |s.fates| && s.fates[i].Late? ==> s.closed)
    && (s.winner.Some? && s.winner.value < |s.closers| && s.closers[s.winner.value].Left? ==> s.chanCloses == 1)
    && (forall c :: 0 <= c < |s.closers| && s.closers[c].Left? ==> s.closed)
  }

  lemma SettledKept<M>(s: State<M>, step: Step<M>)
    requires Control(s) && Settled(s) && Apply(s, step).Some?
    ensures Settled(Apply(s, step).value)
  {}

  lemma InitialAccounted<M>(cap: nat, polling: bool)
    ensures Accounted(Initial<M>(cap, polling)) && Settled(Initial<M>(cap, polling))
  {}

  ghost predicate Subsequence<M>(a: seq<M>, b: seq<M>) {
    a == [] ||
    (b != [] && (Subsequence(a, b[..|b|-1]) || (a[|a|-1] == b[|b|-1] && Subsequence(a[..|a|-1], b[..|b|-1]))))
  }

  lemma SubsequenceSnoc<M>(a: seq<M>, b: seq<M>, x: M)
    requires Subsequence(a, b)
    ensures Subsequence(a, b + [x]) && Subsequence(a + [x], b + [x])
  {
    assert (b + [x])[..|b|] == b && (a + [x])[..|a|] == a;
  }

  lemma {:induction false} DeliveredInOrder<M>(fs: seq<Fate<M>>)
    ensures Subsequence(DeliveredMsgs(fs), FateMsgs(fs))
  {
    if fs != [] {
      DeliveredInOrder(fs[..|fs|-1]);
      SubsequenceSnoc(DeliveredMsgs(fs[..|fs|-1]), FateMsgs(fs[..|fs|-1]), fs[|fs|-1].msg);
      assert DeliveredMsgs(fs[..|fs|-1]) + [] == DeliveredMsgs(fs[..|fs|-1]);
    }
  }

  /** The polled messages that reached the channel are an in-order subsequence of those received;
      one that did not was dropped on a full buffer or arrived after the close; and the consumer
      sees everything sent, in order. */
  lemma PolledInOrder<M>(cap: nat, polling: bool, steps: seq<Step<M>>)
    requires Run(cap, polling, steps).Some?
    ensures var s := Run(cap, polling, steps).value;
            && Subsequence(PolledMsgs(s.sent), s.received)
            && (forall i :: 0 <= i < |s.fates| && s.fates[i].Dropped? ==> s.fates[i].buffered == s.cap)
            && s.consumed + s.buffer == SentMsgs(s.sent)
  {
    RunKeeps(cap, polling, steps);
    var s := Run(cap, polling, steps).value;
    DeliveredInOrder(s.fates);
    if s.poller.Got? {
      SubsequenceSnoc(DeliveredMsgs(s.fates), FateMsgs(s.fates), s.poller.msg);
    } else {
      assert FateMsgs(s.fates) + [] == FateMsgs(s.fates);
    }
  }
}
