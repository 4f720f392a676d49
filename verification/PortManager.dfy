/** The call manager of the Erlang port: callers, the reader, timers and stop as interleaved
    steps. A critical section is one step, except that draining keeps the lock over many steps
    and that a reply is sent after the lock is released. */
module PortManager {
  import opened Options
  import opened Etf

  const SEQ_SPACE: nat := 0x1_0000_0000

  /** What a caller can find in its channel. */
  datatype CallResult =
    | Reply(seqId: int, value: Option<Term>)
    | ErlangError(seqId: int, reason: Option<Term>)
    | UnexpectedTag(seqId: int)
    | Closed

  datatype Outcome = Received(result: CallResult) | SendFailed | TimedOut | ManagerStopped

  /** Where one `Call` stands. */
  datatype Pc = Numbered | Registered | Failing | Waiting | Expiring | Finished(outcome: Outcome)

  /** A call with its one-slot channel; `sends` counts the results ever sent to it. */
  datatype Call = Call(pc: Pc, slot: Option<CallResult>, sends: nat)

  datatype Reader = Reading | Holding(call: nat, result: CallResult) | Draining(last: bool) | Drained | Dead

  datatype State = State(calls: seq<Call>, pending: map<nat, nat>, reader: Reader, stopped: bool)

  function Initial(): State { State([], map[], Reading, false) }

  /** The sequence number of the call that was numbered `c`-th, counting from zero. */
  function Seq(c: nat): nat { (c + 1) % SEQ_SPACE }

  /** The drain loop runs with the lock held. */
  predicate Locked(s: State) { s.reader.Draining? }

  // ---- Replies

  function SeqOf(t: Term): Option<int> {
    match t
    case Int(i) => Some(i)
    case GoInt(i) => Some(i)
    case _ => None
  }

  function At(ts: seq<Term>, i: nat): Option<Term> {
    if i < |ts| then Some(ts[i]) else None
  }

  /** The result a decoded term stands for, if it names a sequence number at all. */
  function ResultOf(t: Term): Option<CallResult> {
    if !t.Tuple? || |t.elems| < 2 || SeqOf(t.elems[1]).None? then None
    else
      var n := SeqOf(t.elems[1]).value;
      var tag := t.elems[0];
      if tag == Atom([114, 101, 112, 108, 121]) then Some(Reply(n, At(t.elems, 2)))
      else if tag == Atom([101, 114, 114, 111, 114]) then Some(ErlangError(n, At(t.elems, 2)))
      else Some(UnexpectedTag(n))
  }

  // ---- Steps

  datatype Step =
    | Begin
    | Register(c: nat)
    | WriteDone(c: nat, ok: bool)
    | Unregister(c: nat)
    | Receive(c: nat)
    | Expire(c: nat)
    | SeeStop(c: nat)
    | Dispatch(t: Term)
    | Send
    | DrainStart(oversized: bool)
    | DrainOne(c: nat)
    | DrainEnd
    | Stop

  function Move(s: State, c: nat, pc: Pc): State
    requires c < |s.calls|
  {
    s.(calls := s.calls[c := s.calls[c].(pc := pc)])
  }

  function Deliver(s: State, c: nat, r: CallResult): State
    requires c < |s.calls|
  {
    s.(calls := s.calls[c := s.calls[c].(slot := Some(r), sends := s.calls[c].sends + 1)])
  }

  predicate AtPc(s: State, c: nat, pc: Pc) { c < |s.calls| && s.calls[c].pc == pc }

  /** A channel send goes through only when the slot is free. */
  predicate SlotFree(s: State, c: nat) { c < |s.calls| && s.calls[c].slot.None? }

  function Apply(s: State, step: Step): Option<State> {
    match step
    case Begin => Some(s.(calls := s.calls + [Call(Numbered, None, 0)]))
    case Register(c) =>
      if AtPc(s, c, Numbered) && !Locked(s) then Some(Move(s, c, Registered).(pending := s.pending[Seq(c) := c]))
          else None
    case WriteDone(c, ok) =>
      if AtPc(s, c, Registered) then Some(Move(s, c, if ok then Waiting else Failing)) else None
    case Unregister(c) =>
      if !Locked(s) && AtPc(s, c, Failing) then Some(Move(s, c, Finished(SendFailed)).(pending := s.pending - {Seq(c)}))
      else if !Locked(s) && AtPc(s, c,
                                 Expiring) then Some(Move(s, c, Finished(TimedOut)).(pending := s.pending - {Seq(c)}))
      else None
    case Receive(c) =>
      if AtPc(s, c, Waiting) && !SlotFree(s, c)
      then Some(s.(calls := s.calls[c := s.calls[c].(pc := Finished(Received(s.calls[c].slot.value)), slot := None)]))
          else None
    case Expire(c) =>
      if AtPc(s, c, Waiting) then Some(Move(s, c, Expiring)) else None
    case SeeStop(c) =>
      if AtPc(s, c, Waiting) && s.stopped then Some(Move(s, c, Finished(ManagerStopped))) else None
    case Dispatch(t) =>
      if !s.reader.Reading? then None
      else
        var r := ResultOf(t);
        if r.None? then Some(s)
        else
          var key := r.value.seqId % SEQ_SPACE;
          if key in s.pending then Some(s.(pending := s.pending - {key}, reader := Holding(s.pending[key], r.value)))
              else Some(s)
    case Send =>
      if s.reader.Holding? && SlotFree(s, s.reader.call)
      then Some(Deliver(s, s.reader.call, s.reader.result).(reader := Reading)) else None
    case DrainStart(oversized) =>
      if s.reader.Reading? then Some(s.(reader := Draining(!oversized)))
      else if s.reader.Drained? then Some(s.(reader := Draining(true)))
      else None
    case DrainOne(c) =>
      if s.reader.Draining? && Seq(c) in s.pending && s.pending[Seq(c)] == c && SlotFree(s, c)
      then Some(Deliver(s, c, Closed).(pending := s.pending - {Seq(c)})) else None
    case DrainEnd =>
      if s.reader.Draining? && s.pending == map[]
      then Some(s.(reader := if s.reader.last then Dead else Drained)) else None
    case Stop => Some(s.(stopped := true))
  }

  // ---- Invariant

  predicate Owned(s: State, c: nat) { Seq(c) in s.pending && s.pending[Seq(c)] == c }

  predicate Held(s: State, c: nat) { s.reader.Holding? && s.reader.call == c }

  /** The result names the call's own sequence number modulo 2^32, unless the connection closed. */
  predicate For(c: nat, r: CallResult) { r.Closed? || r.seqId % SEQ_SPACE == Seq(c) }

  ghost predicate CallOk(s: State, c: nat)
    requires c < |s.calls|
  {
    var call := s.calls[c];
    && call.sends <= 1
    && (call.slot.Some? ==> call.sends == 1 && For(c, call.slot.value))
    && (Owned(s, c) ==> call.sends == 0 && !Held(s, c))
    && (Held(s, c) ==> call.sends == 0 && For(c, s.reader.result))
    && (call.pc.Numbered? ==> call.sends == 0 && !Owned(s, c) && !Held(s, c))
    && (call.pc.Finished? && call.pc.outcome.Received? ==>
        For(c, call.pc.outcome.result) && call.sends == 1 && call.slot.None?)
    && ((call.pc.Registered? || call.pc.Waiting?) ==> Owned(s, c) || Held(s, c) || call.slot.Some?)
  }

  ghost predicate Inv(s: State) {
    && (forall k :: k in s.pending ==> s.pending[k] < |s.calls| && Seq(s.pending[k]) == k)
    && (s.reader.Holding? ==> s.reader.call < |s.calls|)
    && forall c :: 0 <= c < |s.calls| ==> CallOk(s, c)
  }

  /** Sequence numbers are distinct for up to 2^32 calls, and no further. */
  lemma SeqDistinct(n: nat)
    ensures n <= SEQ_SPACE <==> forall c, d :: 0 <= c < d < n ==> Seq(c) != Seq(d)
  {
    if n <= SEQ_SPACE {
      forall c: nat, d: nat | 0 <= c < d < n ensures Seq(c) != Seq(d) {
        if d == SEQ_SPACE - 1 { assert Seq(d) == 0; }
      }
    } else {
      assert Seq(0) == Seq(SEQ_SPACE);
    }
  }

  lemma SeqInjective(c: nat, d: nat)
    requires c < SEQ_SPACE && d < SEQ_SPACE && Seq(c) == Seq(d)
    ensures c == d
  {}

  predicate ReaderStep(step: Step) {
    step.Dispatch? || step.Send? || step.DrainStart? || step.DrainOne? || step.DrainEnd?
  }

  predicate Distinct(n: nat) {
    forall c, d :: 0 <= c < n && 0 <= d < n && Seq(c) == Seq(d) ==> c == d
  }

  lemma CallerKeeps(s: State, step: Step)
    requires Inv(s) && !ReaderStep(step) && !step.Unregister? && Apply(s, step).Some?
             && Distinct(|Apply(s, step).value.calls|)
    ensures Inv(Apply(s, step).value)
  {
    var s' := Apply(s, step).value;
    hide Seq;
    forall c | 0 <= c < |s'.calls| ensures CallOk(s', c) {
      if c < |s.calls| { assert CallOk(s, c); }
    }
  }

  lemma UnregisterKeeps(s: State, step: Step)
    requires Inv(s) && step.Unregister? && Apply(s, step).Some? && Distinct(|Apply(s, step).value.calls|)
    ensures Inv(Apply(s, step).value)
  {
    var s' := Apply(s, step).value;
    hide Seq;
    forall c | 0 <= c < |s'.calls| ensures CallOk(s', c) { assert CallOk(s, c); }
  }

  lemma ReaderKeeps(s: State, step: Step)
    requires Inv(s) && ReaderStep(step) && !step.DrainOne? && Apply(s, step).Some?
             && Distinct(|Apply(s, step).value.calls|)
    ensures Inv(Apply(s, step).value)
  {
    var s' := Apply(s, step).value;
    hide Seq, ResultOf;
    forall c | 0 <= c < |s'.calls| ensures CallOk(s', c) { assert CallOk(s, c); }
  }

  lemma DrainOneKeeps(s: State, step: Step)
    requires Inv(s) && step.DrainOne? && Apply(s, step).Some? && Distinct(|Apply(s, step).value.calls|)
    ensures Inv(Apply(s, step).value)
  {
    var s' := Apply(s, step).value;
    hide Seq, ResultOf;
    forall c | 0 <= c < |s'.calls| ensures CallOk(s', c) { assert CallOk(s, c); }
  }

  lemma StepKeeps(s: State, step: Step)
    requires Inv(s) && Apply(s, step).Some? && |Apply(s, step).value.calls| <= SEQ_SPACE
    ensures Inv(Apply(s, step).value)
  {
    var n := |Apply(s, step).value.calls|;
    forall c, d | 0 <= c < n && 0 <= d < n && Seq(c) == Seq(d) ensures c == d { SeqInjective(c, d); }
    hide Inv, Apply;
    if step.Unregister? { UnregisterKeeps(s, step); }
    else if step.DrainOne? { DrainOneKeeps(s, step); }
    else if ReaderStep(step) { ReaderKeeps(s, step); }
    else { CallerKeeps(s, step); }
  }

  // ---- Runs

  /** The state after the steps of a run, if each was enabled. */
  function Run(steps: seq<Step>): Option<State> {
    if steps == [] then Some(Initial())
    else
      var before := Run(steps[..|steps|-1]);
      if before.None? then None else Apply(before.value, steps[|steps|-1])
  }

  lemma CallsGrow(s: State, step: Step)
    requires Apply(s, step).Some?
    ensures |s.calls| <= |Apply(s, step).value.calls|
  {}

  lemma {:induction false} RunKeeps(steps: seq<Step>)
    requires Run(steps).Some? && |Run(steps).value.calls| <= SEQ_SPACE
    ensures Inv(Run(steps).value)
  {
    if steps != [] {
      var n := |steps| - 1;
      var s := Run(steps[..n]).value;
      CallsGrow(s, steps[n]);
      RunKeeps(steps[..n]);
      StepKeeps(s, steps[n]);
    }
  }

  /** In every run of at most 2^32 calls: no channel gets a second result, every result found or
      returned is the call's own, and a waiting call is still registered, about to be answered,
      or answered. */
  lemma CallsAreAnsweredOnce(steps: seq<Step>, c: nat)
    requires Run(steps).Some? && |Run(steps).value.calls| <= SEQ_SPACE && c < |Run(steps).value.calls|
    ensures var s := Run(steps).value;
            var call := s.calls[c];
            && call.sends <= 1
            && (call.slot.Some? ==> For(c, call.slot.value))
            && (call.pc.Finished? && call.pc.outcome.Received? ==> For(c, call.pc.outcome.result))
            && (call.pc.Waiting? ==> Owned(s, c) || Held(s, c) || call.slot.Some?)
  {
    RunKeeps(steps);
    assert CallOk(Run(steps).value, c);
  }

  /** In every run of at most 2^32 calls neither `dispatch` nor `drainPending` can block on a send. */
  lemma SendsNeverBlock(steps: seq<Step>)
    requires Run(steps).Some? && |Run(steps).value.calls| <= SEQ_SPACE
    ensures var s := Run(steps).value;
            && (s.reader.Holding? ==> Apply(s, Send).Some?)
            && (s.reader.Draining? ==> forall k :: k in s.pending ==> Apply(s, DrainOne(s.pending[k])).Some?)
  {
    RunKeeps(steps);
    var s := Run(steps).value;
    if s.reader.Holding? { assert CallOk(s, s.reader.call); }
    forall k | k in s.pending && s.reader.Draining? ensures Apply(s, DrainOne(s.pending[k])).Some? {
      assert CallOk(s, s.pending[k]);
    }
  }

  /** When the final drain ends, every call still waiting has its result in its channel. */
  lemma DrainAnswersAll(steps: seq<Step>, c: nat)
    requires steps != [] && steps[|steps|-1] == DrainEnd
    requires Run(steps).Some? && |Run(steps).value.calls| <= SEQ_SPACE && c < |Run(steps).value.calls|
    ensures Run(steps).value.calls[c].pc.Waiting? ==> Run(steps).value.calls[c].slot.Some?
  {
    RunKeeps(steps);
    assert CallOk(Run(steps).value, c);
  }

  // ---- What a result says

  /** The packet is a tuple with this first element and this sequence number. */
  predicate Packet(t: Term, first: Term, n: int) {
    && t.Tuple? && |t.elems| >= 2 && t.elems[0] == first
    && ((t.elems[1].Int? && t.elems[1].i == n) || (t.elems[1].GoInt? && t.elems[1].i == n))
  }

  predicate Third(t: Term, v: Option<Term>)
    requires t.Tuple?
  {
    if |t.elems| >= 3 then v == Some(t.elems[2]) else v == None
  }

  /** What each kind of result needs: the atom `reply`, the atom `error`, or any other first element. */
  predicate Brings(t: Term, r: CallResult) {
    match r
    case Reply(n, v) => Packet(t, Atom([114, 101, 112, 108, 121]), n) && Third(t, v)
    case ErlangError(n, v) => Packet(t, Atom([101, 114, 114, 111, 114]), n) && Third(t, v)
    case UnexpectedTag(n) =>
      && t.Tuple? && |t.elems| >= 2 && Packet(t, t.elems[0], n)
      && t.elems[0] != Atom([114, 101, 112, 108, 121]) && t.elems[0] != Atom([101, 114, 114, 111, 114])
    case Closed => false
  }

  lemma ResultIs(t: Term, r: CallResult)
    ensures ResultOf(t) == Some(r) <==> Brings(t, r)
  {}

  /** The run has a step that brings call `c` this result: a packet, or its turn in a drain. */
  ghost predicate Comes(steps: seq<Step>, c: nat, r: CallResult) {
    if r.Closed? then DrainOne(c) in steps else exists t :: Dispatch(t) in steps && Brings(t, r)
  }

  ghost predicate Sourced(steps: seq<Step>, s: State) {
    && (s.reader.Holding? ==> Comes(steps, s.reader.call, s.reader.result))
    && forall c :: 0 <= c < |s.calls| ==> CallSourced(steps, c, s.calls[c])
  }

  ghost predicate CallSourced(steps: seq<Step>, c: nat, call: Call) {
    && (call.slot.Some? ==> Comes(steps, c, call.slot.value))
    && (call.pc.Finished? && call.pc.outcome.Received? ==> Comes(steps, c, call.pc.outcome.result))
  }

  lemma ComesLater(steps: seq<Step>, step: Step, c: nat, r: CallResult)
    requires Comes(steps, c, r)
    ensures Comes(steps + [step], c, r)
  {
    hide Brings;
    if !r.Closed? {
      var t :| Dispatch(t) in steps && Brings(t, r);
      assert Dispatch(t) in steps + [step];
    }
  }

  lemma SourcedLater(steps: seq<Step>, step: Step, s: State)
    requires Sourced(steps, s)
    ensures Sourced(steps + [step], s)
  {
    hide Comes;
    if s.reader.Holding? { ComesLater(steps, step, s.reader.call, s.reader.result); }
    forall c | 0 <= c < |s.calls| ensures CallSourced(steps + [step], c, s.calls[c]) {
      var call := s.calls[c];
      assert CallSourced(steps, c, call);
      if call.slot.Some? { ComesLater(steps, step, c, call.slot.value); }
      if call.pc.Finished? && call.pc.outcome.Received? { ComesLater(steps, step, c, call.pc.outcome.result); }
    }
  }

  lemma StepSourced(steps: seq<Step>, step: Step, s: State)
    requires Sourced(steps, s) && Apply(s, step).Some? && step in steps
    ensures Sourced(steps, Apply(s, step).value)
  {
    hide Seq, ResultOf, Comes;
    var s' := Apply(s, step).value;
    if step.Dispatch? && s'.reader.Holding? {
      assert Comes(steps, s'.reader.call, s'.reader.result) by {
        ResultIs(step.t, s'.reader.result);
        Brought(steps, step.t, s'.reader.call, s'.reader.result);
      }
    }
    if step.DrainOne? { Drawn(steps, step.c); }
    forall c | 0 <= c < |s'.calls| ensures CallSourced(steps, c, s'.calls[c]) {
      if c < |s.calls| { assert CallSourced(steps, c, s.calls[c]); }
    }
  }

  lemma Brought(steps: seq<Step>, t: Term, c: nat, r: CallResult)
    requires Dispatch(t) in steps && Brings(t, r)
    ensures Comes(steps, c, r)
  {}

  lemma Drawn(steps: seq<Step>, c: nat)
    requires DrainOne(c) in steps
    ensures Comes(steps, c, Closed)
  {}

  /** In every run, however long, a result in a channel or returned to a caller is what a packet of
      the run says, and `Closed` comes only from a drain of that very call. */
  lemma {:induction false} ResultsAreSourced(steps: seq<Step>)
    requires Run(steps).Some?
    ensures Sourced(steps, Run(steps).value)
  {
    hide Comes, Apply;
    if steps != [] {
      var n := |steps| - 1;
      ResultsAreSourced(steps[..n]);
      SourcedLater(steps[..n], steps[n], Run(steps[..n]).value);
      assert steps[..n] + [steps[n]] == steps;
      StepSourced(steps, steps[n], Run(steps[..n]).value);
    }
  }

  lemma PacketDelivered(s: State, t: Term, r: CallResult, c: nat)
    requires Inv(s) && s.reader.Reading? && Brings(t, r) && Owned(s, c) && r.seqId % SEQ_SPACE == Seq(c)
    ensures c < |s.calls| && s.calls[c].slot.None? && s.calls[c].sends == 0
    ensures var holding := s.(pending := s.pending - {Seq(c)}, reader := Holding(c, r));
            && Apply(s, Dispatch(t)) == Some(holding)
            && Apply(holding, Send) == Some(Answered(s, c, r))
  {
    ResultIs(t, r);
    assert CallOk(s, c);
    hide Seq, ResultOf, Brings, Inv;
  }

  function Answered(s: State, c: nat, r: CallResult): State
    requires c < |s.calls|
  {
    s.(calls := s.calls[c := s.calls[c].(slot := Some(r), sends := s.calls[c].sends + 1)],
       pending := s.pending - {Seq(c)}, reader := Reading)
  }

  /** A packet for a registered call, once sent, is in the channel of exactly that call, and a
      caller that waits there returns it. */
  lemma PacketReachesCall(steps: seq<Step>, t: Term, r: CallResult, c: nat)
    requires Run(steps).Some? && |Run(steps).value.calls| <= SEQ_SPACE && Run(steps).value.reader.Reading?
    requires Brings(t, r) && Owned(Run(steps).value, c) && r.seqId % SEQ_SPACE == Seq(c)
    ensures var s := Run(steps).value;
            var sent := Run(steps + [Dispatch(t)] + [Send]);
            && c < |s.calls| && sent == Some(Answered(s, c, r))
            && (s.calls[c].pc.Waiting? ==>
                  var last := Run(steps + [Dispatch(t)] + [Send] + [Receive(c)]);
                  last.Some? && last.value.calls[c] == Call(Finished(Received(r)), None, 1))
  {
    RunKeeps(steps);
    var s := Run(steps).value;
    PacketDelivered(s, t, r, c);
    RunSnoc(steps, Dispatch(t));
    RunSnoc(steps + [Dispatch(t)], Send);
    RunSnoc(steps + [Dispatch(t)] + [Send], Receive(c));
    hide Run, Seq, ResultOf, Brings, Inv;
  }

  /** Anything else read from the wire changes nothing: no result, or none for a registered call. */
  lemma OtherPacketsIgnored(s: State, t: Term)
    requires s.reader.Reading?
    requires forall r :: Brings(t, r) ==> r.seqId % SEQ_SPACE !in s.pending
    ensures Apply(s, Dispatch(t)) == Some(s)
  {
    hide Brings;
    if ResultOf(t).Some? { ResultIs(t, ResultOf(t).value); }
  }

  // ---- Past 2^32 calls

  /** One call registers and waits; `n` more are numbered. */
  function WrapRun(n: nat): seq<Step> {
    if n == 0 then [Begin, Register(0), WriteDone(0, true)] else WrapRun(n - 1) + [Begin]
  }

  function NumberedCalls(n: nat): seq<Call> {
    if n == 0 then [] else NumberedCalls(n - 1) + [Call(Numbered, None, 0)]
  }

  lemma {:induction false} NumberedCallsAre(n: nat)
    ensures |NumberedCalls(n)| == n && forall i :: 0 <= i < n ==> NumberedCalls(n)[i] == Call(Numbered, None, 0)
  {
    if n > 0 { NumberedCallsAre(n - 1); }
  }

  function WrapState(n: nat): State {
    State([Call(Waiting, None, 0)] + NumberedCalls(n), map[1 := 0], Reading, false)
  }

  lemma RunSnoc(steps: seq<Step>, step: Step)
    ensures Run(steps + [step]) == if Run(steps).None? then None else Apply(Run(steps).value, step)
  {
    assert (steps + [step])[..|steps|] == steps;
  }

  lemma FirstCallWaits()
    ensures Run(WrapRun(0)) == Some(WrapState(0))
  {
    RunSnoc([], Begin);
    RunSnoc([Begin], Register(0));
    RunSnoc([Begin, Register(0)], WriteDone(0, true));
    assert [] + [Begin] == [Begin] && [Begin] + [Register(0)] == [Begin, Register(0)];
    assert [Begin, Register(0)] + [WriteDone(0, true)] == WrapRun(0);
    assert Run([]) == Some(Initial());
    hide Run;
    assert Seq(0) == 1;
    var numbered := State([Call(Numbered, None, 0)], map[], Reading, false);
    var registered := State([Call(Registered, None, 0)], map[1 := 0], Reading, false);
    assert Initial().calls + [Call(Numbered, None, 0)] == numbered.calls;
    assert Run([Begin]) == Some(numbered);
    assert Apply(numbered, Register(0)) == Some(registered) by {
      assert numbered.calls[0 := Call(Registered, None, 0)] == registered.calls;
    }
    assert registered.calls[0 := Call(Waiting, None, 0)] == [Call(Waiting, None, 0)] + [];
  }

  lemma {:induction false} WrapRunReaches(n: nat)
    ensures Run(WrapRun(n)) == Some(WrapState(n))
  {
    if n == 0 {
      FirstCallWaits();
    } else {
      WrapRunReaches(n - 1);
      RunSnoc(WrapRun(n - 1), Begin);
      hide Run;
      assert WrapState(n - 1).calls + [Call(Numbered, None, 0)] == WrapState(n).calls;
    }
  }

  /** The bound is sharp: in a run of one call more than 2^32, registering the last replaces the
      first, which waits on without being registered, held or answered; a reply to either of
      them now goes to the last. */
  lemma WrapAroundLosesCall(n: nat)
    requires n == SEQ_SPACE
    ensures var r := Run(WrapRun(n) + [Register(n)]);
            && r.Some? && |r.value.calls| == SEQ_SPACE + 1
            && AtPc(r.value, 0, Waiting) && r.value.calls[0].slot.None?
            && !Owned(r.value, 0) && !Held(r.value, 0)
            && Seq(n) == Seq(0) && Owned(r.value, n)
  {
    hide WrapRun, NumberedCalls;
    WrapRunReaches(n);
    NumberedCallsAre(n);
    RunSnoc(WrapRun(n), Register(n));
    hide Run;
    assert Seq(n) == 1;
    assert WrapState(n).calls[n] == NumberedCalls(n)[n - 1];
  }
}
