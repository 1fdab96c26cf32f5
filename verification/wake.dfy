/** Parking and waking, over the rings themselves.

    One thread sleeps on some rings, whose consumer it is: the writer thread on
    the commit ring, or a connection's thread on its three. One thread pushes
    into them and looks at the flag after each push. Others send control
    messages and wake without looking. Each load, store, park and unpark is one
    step, in any order, and a ring's own steps are those of `RingMachine`. */
module Wake {
  import opened Basics
  import opened RingMachine
  import opened RingProofs
  import opened RingRefinement
  import opened RingLedger

  /** Where the sleeper is in its loop. */
  datatype Sleeper =
    | Receiving
    | Draining
    | Raising
    | Checking(ring: nat)
    | Comparing(ring: nat, write: nat)
    | Parked
    | Lowering

  datatype Pusher = Away | Pushing(ring: nat) | Looking | Unparking

  datatype World<T> = World(
    rings: seq<State<T>>,
    flag: bool,
    token: bool,
    sleeper: Sleeper,
    pusher: Pusher,
    control: seq<nat>,
    sending: set<nat>
  )

  datatype Act<T> =
    | Receive | Pop(ring: nat) | Again | Raise | Check | Park | Return | Lower
    | Begin(ring: nat, value: T, offering: bool) | Push | Look | Unpark
    | Send(message: nat) | WakeAfter(message: nat)

  predicate Quiet<T>(w: World<T>) {
    forall j | 0 <= j < |w.rings| :: w.rings[j].cons.CIdle?
  }

  /** What one end of a ring does next. */
  function PopLabel<T>(s: State<T>): Label<T> { if s.cons.CIdle? then CallPop else Consume }

  predicate Enabled<T>(w: World<T>, a: Act<T>) {
    match a
    case Receive => w.sleeper.Receiving?
    case Pop(r) => w.sleeper.Draining? && r < |w.rings| && Shaped(w.rings[r])
    case Again => w.sleeper.Draining? && Quiet(w)
    case Raise => (w.sleeper.Draining? && Quiet(w)) || w.sleeper.Raising?
    case Check => w.sleeper.Checking? || (w.sleeper.Comparing? && w.sleeper.ring < |w.rings|)
    case Park => w.sleeper.Checking? && w.sleeper.ring >= |w.rings|
    case Return => w.sleeper.Parked?
    case Lower => w.sleeper.Lowering?
    case Begin(r, _, _) => w.pusher.Away? && r < |w.rings| && Shaped(w.rings[r]) && w.rings[r].prod.PIdle?
    case Push =>
      w.pusher.Pushing? && w.pusher.ring < |w.rings| && Shaped(w.rings[w.pusher.ring])
      && RingMachine.Enabled(w.rings[w.pusher.ring], Produce)
    case Look => w.pusher.Looking?
    case Unpark => w.pusher.Looking? || w.pusher.Unparking?
    case Send(m) => m !in w.control && m !in w.sending
    case WakeAfter(m) => m in w.sending
  }

  function With<T>(w: World<T>, r: nat, l: Label<T>): World<T>
    requires r < |w.rings| && Shaped(w.rings[r]) && RingMachine.Enabled(w.rings[r], l)
  {
    w.(rings := w.rings[r := RingMachine.Next(w.rings[r], l)])
  }

  function Next<T>(w: World<T>, a: Act<T>): World<T>
    requires Enabled(w, a)
  {
    match a
    // The sleeper takes every message there is, then looks at its rings.
    case Receive => if w.control == [] then w.(sleeper := Draining) else w.(control := w.control[1..])
    case Pop(r) => With(w, r, PopLabel(w.rings[r]))
    case Again => w.(sleeper := Receiving)
    // `park_unless`: raise the flag, ask each ring once more, park.
    case Raise => if w.sleeper.Draining? then w.(sleeper := Raising) else w.(flag := true, sleeper := Checking(0))
    case Check => (
      match w.sleeper
      case Checking(r) => if r < |w.rings| then w.(sleeper := Comparing(r, w.rings[r].write)) else w
      case Comparing(r, written) =>
        w.(sleeper := if written > w.rings[r].read then Lowering else Checking(r + 1))
      case _ => w
    )
    case Park => w.(sleeper := Parked)
    // A park returns on a token, which it takes, or for no reason.
    case Return => w.(token := false, sleeper := Lowering)
    case Lower => w.(flag := false, sleeper := Receiving)
    // A push, then `wake_if_parked`, or `wake` after a boundary's refusal.
    case Begin(r, v, offering) =>
      With(w, r, if offering then CallOffer(v) else CallPush(v)).(pusher := Pushing(r))
    case Push =>
      var w' := With(w, w.pusher.ring, Produce);
      if w'.rings[w.pusher.ring].prod.PIdle? then w'.(pusher := Looking) else w'
    case Look => w.(pusher := if w.flag then Unparking else Away)
    case Unpark => w.(token := true, pusher := Away)
    // A control message is sent, and then the sleeper is woken whatever it
    // is doing.
    case Send(m) => w.(control := w.control + [m], sending := w.sending + {m})
    case WakeAfter(m) => w.(token := true, sending := w.sending - {m})
  }

  // ---- The invariant -------------------------------------------------------

  /** The sleeper has found ring `j` empty with the flag up. */
  predicate Cleared<T>(w: World<T>, j: nat) {
    || (w.sleeper.Checking? && j < w.sleeper.ring)
    || (w.sleeper.Comparing? && j < w.sleeper.ring)
    || w.sleeper.Parked?
  }

  /** A wake is on its way, or has come. */
  predicate Waking<T>(w: World<T>) { w.token || w.pusher.Looking? || w.pusher.Unparking? }

  /** The sleeper will park without looking at its messages again. */
  predicate PastMessages<T>(w: World<T>) { !w.sleeper.Receiving? && !w.sleeper.Lowering? }

  ghost predicate RingsOk<T>(w: World<T>) {
    forall j: nat | j < |w.rings| ::
      && Inv(w.rings[j])
      && (w.rings[j].prod.PIdle? || w.pusher == Pushing(j))
      && (w.rings[j].cons.CIdle? || w.sleeper.Draining?)
  }

  ghost predicate WakeOk<T>(w: World<T>) {
    && (w.flag <==> w.sleeper.Checking? || w.sleeper.Comparing? || w.sleeper.Parked? || w.sleeper.Lowering?)
    && (w.pusher.Pushing? ==> w.pusher.ring < |w.rings|)
    && (forall j: nat | j < |w.rings| && Cleared(w, j) :: w.rings[j].write > w.rings[j].read ==> Waking(w))
    && (w.sleeper.Comparing? ==>
          w.sleeper.ring < |w.rings| && (w.rings[w.sleeper.ring].write > w.sleeper.write ==> Waking(w)))
    && (PastMessages(w) ==> forall m | m in w.control :: m in w.sending || w.token)
  }

  ghost predicate Ok<T>(w: World<T>) { RingsOk(w) && WakeOk(w) }

  function Start<T>(capacities: seq<nat>): World<T> {
    World(seq(|capacities|, i requires 0 <= i < |capacities| => Init<T>(capacities[i])),
          false, false, Receiving, Away, [], {})
  }

  lemma StartOk<T>(capacities: seq<nat>)
    requires forall i | 0 <= i < |capacities| :: capacities[i] > 0
    ensures Ok(Start<T>(capacities))
  {
    forall j: nat | j < |capacities| ensures Inv(Init<T>(capacities[j])) { InitOk<T>(capacities[j]); }
  }

  /** What a ring's step means out here. */
  lemma RingStep<T>(s: State<T>, l: Label<T>)
    requires Inv(s) && RingMachine.Enabled(s, l)
    ensures Shaped(s) && Inv(RingMachine.Next(s, l))
    ensures var s' := RingMachine.Next(s, l);
            if l.CallPop? || l.Consume? then s'.write == s.write && s'.prod == s.prod
            else s'.read == s.read && s'.cons == s.cons && (s'.write != s.write ==> s'.prod.PIdle? && l.Produce?)
  {
    StepRefines(s, l);
    if l.CallPop? || l.Consume? { ConsumerTouches(s, l); } else { ProducerTouches(s, l); Published(s, l); }
  }

  lemma Published<T>(s: State<T>, l: Label<T>)
    requires Shaped(s) && RingMachine.Enabled(s, l) && !l.CallPop? && !l.Consume?
    ensures var s' := RingMachine.Next(s, l); s'.write != s.write ==> s'.prod.PIdle? && l.Produce?
  {
  }

  lemma PopKeeps<T>(w: World<T>, r: nat)
    requires Ok(w) && Enabled(w, Act.Pop(r))
    ensures Ok(Next(w, Act.Pop(r)))
  {
    hide Inv, RingMachine.Next;
    RingStep(w.rings[r], PopLabel(w.rings[r]));
  }

  lemma PushKeeps<T>(w: World<T>)
    requires Ok(w) && Enabled(w, Push)
    ensures Ok(Next(w, Push))
  {
    hide Inv, RingMachine.Next;
    RingStep(w.rings[w.pusher.ring], Produce);
  }

  lemma BeginKeeps<T>(w: World<T>, a: Act<T>)
    requires Ok(w) && Enabled(w, a) && a.Begin?
    ensures Ok(Next(w, a))
  {
    hide Inv, RingMachine.Next;
    RingStep(w.rings[a.ring], if a.offering then CallOffer(a.value) else CallPush(a.value));
  }

  lemma SleeperKeeps<T>(w: World<T>, a: Act<T>)
    requires Ok(w) && Enabled(w, a)
    requires a.Receive? || a.Again? || a.Raise? || a.Check? || a.Park? || a.Return? || a.Lower?
    ensures Ok(Next(w, a))
  {
    hide Inv, RingMachine.Next;
  }

  lemma OthersKeep<T>(w: World<T>, a: Act<T>)
    requires Ok(w) && Enabled(w, a) && (a.Look? || a.Unpark? || a.Send? || a.WakeAfter?)
    ensures Ok(Next(w, a))
  {
    hide Inv, RingMachine.Next;
  }

  lemma ActKeeps<T>(w: World<T>, a: Act<T>)
    requires Ok(w) && Enabled(w, a)
    ensures Ok(Next(w, a))
  {
    hide Ok, Next, Enabled;
    match a
    case Pop(r) => PopKeeps(w, r);
    case Push => PushKeeps(w);
    case Begin(_, _, _) => BeginKeeps(w, a);
    case Look => OthersKeep(w, a);
    case Unpark => OthersKeep(w, a);
    case Send(_) => OthersKeep(w, a);
    case WakeAfter(_) => OthersKeep(w, a);
    case _ => SleeperKeeps(w, a);
  }

  predicate Path<T>(w: World<T>, acts: seq<Act<T>>)
    decreases |acts|
  {
    acts == [] || (Enabled(w, acts[0]) && Path(Next(w, acts[0]), acts[1..]))
  }

  function Final<T>(w: World<T>, acts: seq<Act<T>>): World<T>
    requires Path(w, acts)
    decreases |acts|
  {
    if acts == [] then w else Final(Next(w, acts[0]), acts[1..])
  }

  lemma {:induction false} PathKeeps<T>(w: World<T>, acts: seq<Act<T>>)
    requires Ok(w) && Path(w, acts)
    ensures Ok(Final(w, acts))
    decreases |acts|
  {
    if acts != [] {
      ActKeeps(w, acts[0]);
      PathKeeps(Next(w, acts[0]), acts[1..]);
    }
  }

  /** A record in a ring whose producer is not between its two publishing
      stores shows in the indices. */
  lemma LiveShowsSoon<T>(s: State<T>)
    requires Inv(s) && !s.prod.PAdvance? && Oldest(s) < |s.log|
    ensures s.write > s.read
  {
  }

  /** No wake is lost, over every run: a sleeper blocked with no token, while
      the pusher is not between publishing an index and finishing its look,
      has an empty ring for every ring whose publishing is over, and has taken
      every message but those whose senders are still to wake it. */
  lemma NoLostWake<T>(capacities: seq<nat>, acts: seq<Act<T>>)
    requires forall i | 0 <= i < |capacities| :: capacities[i] > 0
    requires Path(Start<T>(capacities), acts)
    ensures var w := Final(Start<T>(capacities), acts);
            w.sleeper.Parked? && !Waking(w) ==>
              && (forall m | m in w.control :: m in w.sending)
              && (forall j: nat | j < |w.rings| && !w.rings[j].prod.PAdvance? ::
                    Oldest(w.rings[j]) == |w.rings[j].log|)
  {
    StartOk<T>(capacities);
    PathKeeps(Start<T>(capacities), acts);
    var w := Final(Start<T>(capacities), acts);
    if w.sleeper.Parked? && !Waking(w) {
      forall j: nat | j < |w.rings| && !w.rings[j].prod.PAdvance?
        ensures Oldest(w.rings[j]) == |w.rings[j].log|
      {
        QueueOk(w.rings[j]);
        if Oldest(w.rings[j]) < |w.rings[j].log| { LiveShowsSoon(w.rings[j]); }
      }
    }
  }

  // ---- And sleep is reached -------------------------------------------------

  /** What the sleeper does by itself between taking its last message and
      sleeping. */
  ghost predicate Own<T>(acts: seq<Act<T>>) {
    forall a | a in acts :: a.Receive? || a.Raise? || a.Check? || a.Park?
  }

  ghost predicate Shown<T>(w: World<T>, from: nat) {
    exists j: nat :: from <= j < |w.rings| && w.rings[j].write > w.rings[j].read
  }

  lemma FirstOf<T>(w: World<T>, a: Act<T>, rest: seq<Act<T>>)
    requires Enabled(w, a) && Path(Next(w, a), rest)
    ensures Path(w, [a] + rest) && Final(w, [a] + rest) == Final(Next(w, a), rest)
  {
    assert ([a] + rest)[1..] == rest;
    hide Enabled, Next;
  }

  /** The look at the rings from `r` on, undisturbed. */
  lemma {:induction false} LooksOn<T>(w: World<T>, r: nat) returns (acts: seq<Act<T>>)
    requires w.sleeper == Checking(r) && r <= |w.rings|
    ensures Path(w, acts) && Own(acts)
    ensures Final(w, acts) == w.(sleeper := if Shown(w, r) then Lowering else Parked)
    decreases |w.rings| - r
  {
    var rest: seq<Act<T>> := [];
    if r == |w.rings| {
      acts := [Park] + rest;
      FirstOf(w, Park, rest);
    } else {
      var comparing := Next(w, Check);
      var next := Next(comparing, Check);
      if next.sleeper.Lowering? {
        assert w.rings[r].write > w.rings[r].read;
      } else {
        rest := LooksOn(next, r + 1);
        assert Shown(w, r) <==> Shown(next, r + 1);
      }
      FirstOf(comparing, Check, rest);
      FirstOf(w, Check, [Check] + rest);
      acts := [Check] + ([Check] + rest);
    }
  }

  lemma QuietShows<T>(s: State<T>)
    requires Inv(s) && s.prod.PIdle? && s.cons.CIdle?
    ensures s.write > s.read <==> Oldest(s) < |s.log|
  {
  }

  /** With no message waiting and no push under way, the sleeper's own steps take
      it to its park exactly when there is nothing in its rings, and round again
      when there is. */
  lemma ParksWhenEmpty<T>(w: World<T>) returns (acts: seq<Act<T>>)
    requires Ok(w) && w.sleeper.Receiving? && w.control == [] && forall j: nat | j < |w.rings| :: w.rings[j].prod.PIdle?
    ensures Path(w, acts) && Own(acts)
    ensures var w' := Final(w, acts);
            && w'.rings == w.rings && w'.flag && (w'.sleeper.Parked? || w'.sleeper.Lowering?)
            && (w'.sleeper.Parked? <==> forall j: nat | j < |w.rings| :: Oldest(w.rings[j]) == |w.rings[j].log|)
  {
    forall j: nat | j < |w.rings|
      ensures w.rings[j].write > w.rings[j].read <==> Oldest(w.rings[j]) != |w.rings[j].log|
    {
      QueueOk(w.rings[j]);
      QuietShows(w.rings[j]);
    }
    hide Inv, Oldest;
    var draining := w.(sleeper := Draining);
    var raising, checking := w.(sleeper := Raising), w.(flag := true, sleeper := Checking(0));
    assert Next(w, Receive) == draining && Quiet(draining) && Next(draining, Raise) == raising && Next(raising, Raise) == checking;
    var rest := LooksOn(checking, 0);
    FirstOf(raising, Raise, rest);
    FirstOf(draining, Raise, [Raise] + rest);
    FirstOf(w, Receive, [Raise] + ([Raise] + rest));
    acts := [Receive] + ([Raise] + ([Raise] + rest));
    hide Path, Final;
  }
}
