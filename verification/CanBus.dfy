/** `CanBus` of naviq_mts160/naviq_mts160/canbus.py, one method at a time: nothing
    interleaves inside `_open` and `_close` (BusOwnership has the interleavings).

    `can.Bus`, `recv` and `send` are choices of the environment. */
module CanBus {
  import opened Bytes

  datatype Message = Message(canId: nat, data: seq<byte>, isExtended: bool,
                             isError: bool, isRemote: bool, isRx: bool)

  datatype Frame = Frame(canId: nat, data: seq<byte>, isExtended: bool)

  /** What one turn of the reader meets: whether a missing bus can be opened, and what `recv` does. */
  datatype Recv = Raises | Nothing | Got(m: Message)
  datatype Turn = Turn(opens: bool, recv: Recv)

  /** What happens to a started bus: a turn of the reader's loop, a call of `send`, a call of `stop`. */
  datatype Event =
    | ReaderTurn(turn: Turn)
    | SendCall(canId: nat, data: seq<byte>, accepted: bool)
    | StopCall

  /** Whether the bus is open, and whether the reader is to stop. */
  datatype Link = Link(open: bool, stopping: bool)

  /** A received frame and the listeners registered when it came. */
  datatype Reception = Reception(frame: Frame, listeners: seq<nat>)

  /** A listener called with a frame. */
  datatype Call = Call(listener: nat, frame: Frame)

  // ------------------------------------------------------------ notifications

  /** Connected first, then strictly alternating. */
  ghost predicate Alternates(notifications: seq<bool>) {
    forall i | 0 <= i < |notifications| :: notifications[i] == (i % 2 == 0)
  }

  // ----------------------------------------------------------------- delivery

  /** The listener loop for one frame. */
  function CallsFor(listeners: seq<nat>, frame: Frame): seq<Call> {
    if listeners == [] then [] else
      CallsFor(listeners[..|listeners| - 1], frame) + [Call(listeners[|listeners| - 1], frame)]
  }

  function Calls(rx: seq<Reception>): seq<Call> {
    if rx == [] then [] else Calls(rx[..|rx| - 1]) + CallsFor(rx[|rx| - 1].listeners, rx[|rx| - 1].frame)
  }

  function FramesOf(rx: seq<Reception>): seq<Frame> {
    if rx == [] then [] else FramesOf(rx[..|rx| - 1]) + [rx[|rx| - 1].frame]
  }

  /** The frames one listener is called with, in order. */
  function Heard(calls: seq<Call>, listener: nat): seq<Frame> {
    if calls == [] then [] else
      Heard(calls[..|calls| - 1], listener)
      + if calls[|calls| - 1].listener == listener then [calls[|calls| - 1].frame] else []
  }

  function Registrations(listeners: seq<nat>, l: nat): nat {
    if listeners == [] then 0 else
      Registrations(listeners[..|listeners| - 1], l) + if listeners[|listeners| - 1] == l then 1 else 0
  }

  /** One call for each registration, in the order of registration, with the frame. */
  lemma {:induction false} CallsInOrder(listeners: seq<nat>, frame: Frame)
    ensures |CallsFor(listeners, frame)| == |listeners|
    ensures forall i | 0 <= i < |listeners| :: CallsFor(listeners, frame)[i] == Call(listeners[i], frame)
    decreases |listeners|
  {
    if listeners != [] {
      CallsInOrder(listeners[..|listeners| - 1], frame);
    }
  }

  lemma {:induction false} FramesInOrder(rx: seq<Reception>)
    ensures |FramesOf(rx)| == |rx|
    ensures forall i | 0 <= i < |rx| :: FramesOf(rx)[i] == rx[i].frame
    decreases |rx|
  {
    if rx != [] {
      FramesInOrder(rx[..|rx| - 1]);
    }
  }

  lemma {:induction false} HeardConcat(a: seq<Call>, b: seq<Call>, l: nat)
    ensures Heard(a + b, l) == Heard(a, l) + Heard(b, l)
    decreases |b|
  {
    if b == [] {
      assert a + b == a;
    } else {
      var front := b[..|b| - 1];
      HeardConcat(a, front, l);
      assert (a + b)[..|a + b| - 1] == a + front;
    }
  }

  /** A listener is called once per registration. */
  lemma {:induction false} HeardPerRegistration(listeners: seq<nat>, frame: Frame, l: nat)
    ensures |Heard(CallsFor(listeners, frame), l)| == Registrations(listeners, l)
    ensures (var heard := Heard(CallsFor(listeners, frame), l);
             forall i | 0 <= i < |heard| :: heard[i] == frame)
    decreases |listeners|
  {
    if listeners != [] {
      var front, last := listeners[..|listeners| - 1], listeners[|listeners| - 1];
      HeardPerRegistration(front, frame, l);
      var calls := CallsFor(listeners, frame);
      assert calls[..|calls| - 1] == CallsFor(front, frame);
    }
  }

  /** A listener that is registered once hears every received frame exactly once, in order. */
  lemma {:induction false} EveryFrameHeardOnce(rx: seq<Reception>, l: nat)
    requires forall i | 0 <= i < |rx| :: Registrations(rx[i].listeners, l) == 1
    ensures Heard(Calls(rx), l) == FramesOf(rx)
    decreases |rx|
  {
    if rx != [] {
      var front, last := rx[..|rx| - 1], rx[|rx| - 1];
      EveryFrameHeardOnce(front, l);
      HeardConcat(Calls(front), CallsFor(last.listeners, last.frame), l);
      HeardPerRegistration(last.listeners, last.frame, l);
      assert Heard(CallsFor(last.listeners, last.frame), l) == [last.frame];
    }
  }

  // ------------------------------------------------------------------ the bus

  class CanBus {
    var bus: Option<nat>
    var connected: bool
    var listeners: seq<nat>
    var stopping: bool
    var rxCount: nat
    var txCount: nat
    var errorFrames: nat
    var reconnects: nat
    var openFailures: nat
    /** What every state listener has been told; every call made to a frame listener. */
    var notifications: seq<bool>
    /** Frames the bus accepted for sending. */
    var transmitted: seq<Frame>
    var calls: seq<Call>
    ghost var rx: seq<Reception>
    ghost var echoes: nat
    /** Messages `recv` has returned, and buses opened so far. */
    ghost var received: nat
    var opens: nat

    ghost predicate Valid()
      reads this
    {
      && (connected <==> bus.Some?)
      && Alternates(notifications)
      && (connected <==> |notifications| % 2 == 1)
      && received == rxCount + errorFrames + echoes
      && rxCount == |rx|
      && txCount == |transmitted|
      && calls == Calls(rx)
    }

    constructor ()
      ensures Valid() && bus.None? && notifications == [] && listeners == [] && rx == [] && !stopping
    {
      bus, connected, stopping, listeners := None, false, false, [];
      rxCount, txCount, errorFrames, reconnects, openFailures, opens := 0, 0, 0, 0, 0, 0;
      notifications, calls, transmitted := [], [], [];
      rx, echoes, received := [], 0, 0;
    }

    method AddListener(cb: nat)
      requires Valid()
      modifies this`listeners
      ensures Valid() && listeners == old(listeners) + [cb]
    {
      listeners := listeners + [cb];
    }

    /** By identity: a bound method made anew for the call is nobody's registration. */
    method RemoveListener(cb: nat)
      requires Valid()
      modifies this`listeners
      ensures Valid() && cb !in listeners
      ensures cb !in old(listeners) ==> listeners == old(listeners)
      ensures forall l | l != cb :: Registrations(listeners, l) == Registrations(old(listeners), l)
    {
      var kept: seq<nat> := [];
      for i := 0 to |listeners|
        invariant cb !in kept
        invariant cb !in listeners[..i] ==> kept == listeners[..i]
        invariant forall l | l != cb :: Registrations(kept, l) == Registrations(listeners[..i], l)
      {
        assert listeners[..i + 1][..i] == listeners[..i];
        if listeners[i] != cb {
          assert (kept + [listeners[i]])[..|kept|] == kept;
          kept := kept + [listeners[i]];
        }
      }
      assert listeners[..|listeners|] == listeners;
      listeners := kept;
    }

    // -------------------------------------------------------------- lifecycle

    method Open(succeeds: bool)
      requires Valid() && bus.None?
      modifies this`bus, this`connected, this`notifications, this`openFailures, this`opens
      ensures Valid() && (bus.Some? <==> succeeds)
      ensures notifications == old(notifications) + if succeeds then [true] else []
      ensures openFailures == old(openFailures) + if succeeds then 0 else 1
    {
      if !succeeds {
        openFailures := openFailures + 1;
        return;
      }
      bus := Some(opens);
      opens := opens + 1;
      connected := true;
      notifications := notifications + [true];
    }

    method Close()
      requires Valid()
      modifies this`bus, this`connected, this`notifications
      ensures Valid() && bus.None?
      ensures notifications == old(notifications) + if old(bus).Some? then [false] else []
    {
      bus := None;
      if connected {
        connected := false;
        notifications := notifications + [false];
      }
    }

    method Start(openNow: bool, succeeds: bool) returns (ok: bool)
      requires Valid() && bus.None?
      modifies this`bus, this`connected, this`notifications, this`openFailures, this`opens, this`stopping
      ensures Valid() && !stopping
      ensures notifications == old(notifications) + if ok then [true] else []
      ensures openFailures == old(openFailures) + if openNow && !succeeds then 1 else 0
      ensures ok == (openNow && succeeds) && (ok <==> bus.Some?)
    {
      ok := false;
      if openNow {
        Open(succeeds);
        ok := bus.Some?;
      }
      stopping := false;
    }

    method Stop()
      requires Valid()
      modifies this`stopping, this`bus, this`connected, this`notifications
      ensures Valid() && stopping && bus.None? && !connected
      ensures notifications == old(notifications) + if old(bus).Some? then [false] else []
    {
      stopping := true;
      Close();
    }

    // -------------------------------------------------------------------- I/O

    /** False is the source's CanBusError; a failed send also closes the bus. Frames go out with
        11-bit identifiers. */
    method Send(canId: nat, data: seq<byte>, accepted: bool) returns (ok: bool)
      requires Valid()
      modifies this`bus, this`connected, this`notifications, this`txCount, this`transmitted
      ensures Valid()
      ensures ok <==> old(bus).Some? && accepted
      ensures ok ==> bus == old(bus) && notifications == old(notifications)
      ensures !ok ==> bus.None?
      ensures !ok ==> notifications == old(notifications) + if old(bus).Some? then [false] else []
      ensures transmitted == old(transmitted) + if ok then [Frame(canId, data, false)] else []
    {
      if bus.None? {
        return false;
      }
      if !accepted {
        Close();
        return false;
      }
      transmitted := transmitted + [Frame(canId, data, false)];
      txCount := txCount + 1;
      ok := true;
    }

    /** One turn of `_run`; none once the stop flag is seen. */
    method TakeTurn(t: Turn)
      requires Valid()
      modifies this`bus, this`connected, this`notifications, this`openFailures, this`opens, this`reconnects,
               this`rxCount, this`errorFrames, this`calls, this`rx, this`echoes, this`received
      ensures Valid()
      ensures stopping ==> bus == old(bus)
      ensures !stopping ==> (bus.Some? <==> if old(bus).Some? then t.recv != Raises else t.opens)
      ensures reconnects == old(reconnects) + if !stopping && old(bus).Some? && t.recv.Raises? then 1 else 0
      ensures received == old(received) + if !stopping && old(bus).Some? && t.recv.Got? then 1 else 0
      ensures rx == if !stopping && old(bus).Some? && t.recv.Got? && DataFrame(t.recv.m)
                    then old(rx) + [Reception(ToFrame(t.recv.m), listeners)] else old(rx)
      ensures notifications == old(notifications) + if bus.Some? != old(bus).Some? then [bus.Some?] else []
    {
      if stopping {
        return;
      }
      if bus.None? {
        Open(t.opens);
        return;
      }
      match t.recv
      case Raises =>
        reconnects := reconnects + 1;
        Close();
      case Nothing =>
      case Got(m) =>
        Sort(m);
    }

    /** A message from `recv`: counted as an error, dropped as an echo, or handed on. */
    method Sort(m: Message)
      requires Valid()
      modifies this`received, this`errorFrames, this`echoes, this`rxCount, this`calls, this`rx
      ensures Valid() && received == old(received) + 1
      ensures errorFrames == old(errorFrames) + if m.isError || m.isRemote then 1 else 0
      ensures rx == if !m.isError && !m.isRemote && m.isRx
                    then old(rx) + [Reception(Frame(m.canId, m.data, m.isExtended), listeners)] else old(rx)
    {
      received := received + 1;
      if m.isError || m.isRemote {
        errorFrames := errorFrames + 1;
      } else if !m.isRx {
        echoes := echoes + 1;
      } else {
        rxCount := rxCount + 1;
        Deliver(ToFrame(m));
      }
    }

    /** The loop over the registered listeners; it catches what they raise. */
    method Deliver(frame: Frame)
      modifies this`calls, this`rx
      requires calls == Calls(rx)
      ensures rx == old(rx) + [Reception(frame, listeners)]
      ensures calls == Calls(rx)
    {
      for i := 0 to |listeners|
        invariant rx == old(rx)
        invariant calls == old(calls) + CallsFor(listeners[..i], frame)
      {
        calls := calls + [Call(listeners[i], frame)];
        assert listeners[..i + 1][..i] == listeners[..i];
        var raised: bool := *;
        if raised {
          // logged and ignored
          continue;
        }
      }
      assert listeners[..|listeners|] == listeners;
      rx := rx + [Reception(frame, listeners)];
      assert rx[..|rx| - 1] == old(rx);
    }

    ghost function View(): Link
      reads this
    {
      Link(bus.Some?, stopping)
    }

    method Happen(e: Event)
      requires Valid()
      modifies this`bus, this`connected, this`notifications, this`openFailures, this`opens, this`reconnects,
               this`rxCount, this`errorFrames, this`calls, this`rx, this`echoes, this`received,
               this`txCount, this`transmitted, this`stopping
      ensures Valid() && View() == Next(old(View()), e)
      ensures rx == old(rx) + ReceivedIn(old(View()), e, listeners)
      ensures notifications == old(notifications) + ToldIn(old(View()), e)
      ensures transmitted == old(transmitted) + SentIn(old(View()), e)
    {
      match e
      case ReaderTurn(t) => TakeTurn(t);
      case SendCall(canId, data, accepted) => var _ := Send(canId, data, accepted);
      case StopCall => Stop();
    }

    /** Whatever the reader, the senders and `stop` do, one call at a time. */
    method Run(events: seq<Event>)
      requires Valid()
      modifies this`bus, this`connected, this`notifications, this`openFailures, this`opens, this`reconnects,
               this`rxCount, this`errorFrames, this`calls, this`rx, this`echoes, this`received,
               this`txCount, this`transmitted, this`stopping
      ensures Valid() && View() == After(old(View()), events)
      ensures rx == old(rx) + Receptions(old(View()), events, listeners)
      ensures notifications == old(notifications) + Transitions(old(View()), events)
      ensures transmitted == old(transmitted) + Transmissions(old(View()), events)
    {
      for i := 0 to |events|
        invariant Valid() && View() == After(old(View()), events[..i])
        invariant rx == old(rx) + Receptions(old(View()), events[..i], listeners)
        invariant notifications == old(notifications) + Transitions(old(View()), events[..i])
        invariant transmitted == old(transmitted) + Transmissions(old(View()), events[..i])
      {
        ghost var front := events[..i];
        assert events[..i + 1] == front + [events[i]];
        EventsSnoc(old(View()), front, events[i]);
        ReceptionsSnoc(old(View()), front, events[i], listeners, old(rx));
        TransitionsSnoc(old(View()), front, events[i], old(notifications));
        TransmissionsSnoc(old(View()), front, events[i], old(transmitted));
        Happen(events[i]);
      }
      assert events[..|events|] == events;
    }
  }

  predicate DataFrame(m: Message) { !m.isError && !m.isRemote && m.isRx }

  function ToFrame(m: Message): Frame { Frame(m.canId, m.data, m.isExtended) }

  function Next(link: Link, e: Event): Link {
    match e
    case ReaderTurn(t) =>
      if link.stopping then link else link.(open := if link.open then !t.recv.Raises? else t.opens)
    case SendCall(_, _, accepted) => link.(open := link.open && accepted)
    case StopCall => Link(false, true)
  }

  function ReceivedIn(link: Link, e: Event, listeners: seq<nat>): seq<Reception> {
    if e.ReaderTurn? && link == Link(true, false) && e.turn.recv.Got? && DataFrame(e.turn.recv.m)
    then [Reception(ToFrame(e.turn.recv.m), listeners)] else []
  }

  /** A notification exactly where an event changes the connection. */
  function ToldIn(link: Link, e: Event): seq<bool> {
    if Next(link, e).open != link.open then [Next(link, e).open] else []
  }

  function SentIn(link: Link, e: Event): seq<Frame> {
    if e.SendCall? && link.open && e.accepted then [Frame(e.canId, e.data, false)] else []
  }

  /** What an event does, in full. A closed, running bus is opened by a turn that can; an open one
      receives, and closes where `recv` raises; a send goes out as it is or closes the bus; after
      `stop` the reader does nothing. */
  lemma EventEffects(link: Link, e: Event, listeners: seq<nat>)
    ensures Next(link, e).stopping == (link.stopping || e == StopCall)
    ensures e == StopCall ==> !Next(link, e).open
    ensures e.SendCall? ==> (Next(link, e).open <==> link.open && e.accepted)
    ensures e.ReaderTurn? && link.stopping ==> Next(link, e).open == link.open
    ensures e.ReaderTurn? && !link.stopping && !link.open ==> (Next(link, e).open <==> e.turn.opens)
    ensures e.ReaderTurn? && !link.stopping && link.open ==> (Next(link, e).open <==> e.turn.recv != Raises)
    ensures !link.open && Next(link, e).open ==> ToldIn(link, e) == [true]
    ensures link.open && !Next(link, e).open ==> ToldIn(link, e) == [false]
    ensures link.open == Next(link, e).open ==> ToldIn(link, e) == []
    ensures forall id, data | e == SendCall(id, data, true) && link.open :: SentIn(link, e) == [Frame(id, data, false)]
    ensures !e.SendCall? || !link.open || !e.accepted ==> SentIn(link, e) == []
    ensures forall t, id, data, extended ::
              e == ReaderTurn(t) && link.open && !link.stopping
              && t.recv == Got(Message(id, data, extended, false, false, true)) ==>
                ReceivedIn(link, e, listeners) == [Reception(Frame(id, data, extended), listeners)]
    ensures !e.ReaderTurn? || !link.open || link.stopping || !e.turn.recv.Got?
            || e.turn.recv.m.isError || e.turn.recv.m.isRemote || !e.turn.recv.m.isRx ==>
              ReceivedIn(link, e, listeners) == []
  {
  }

  function After(link: Link, events: seq<Event>): Link {
    if events == [] then link else Next(After(link, events[..|events| - 1]), events[|events| - 1])
  }

  /** The data frames received while connected. */
  function Receptions(link: Link, events: seq<Event>, listeners: seq<nat>): seq<Reception> {
    if events == [] then [] else
      var front := events[..|events| - 1];
      Receptions(link, front, listeners) + ReceivedIn(After(link, front), events[|events| - 1], listeners)
  }

  function Transitions(link: Link, events: seq<Event>): seq<bool> {
    if events == [] then [] else
      var front := events[..|events| - 1];
      Transitions(link, front) + ToldIn(After(link, front), events[|events| - 1])
  }

  /** The frames accepted for sending. */
  function Transmissions(link: Link, events: seq<Event>): seq<Frame> {
    if events == [] then [] else
      var front := events[..|events| - 1];
      Transmissions(link, front) + SentIn(After(link, front), events[|events| - 1])
  }

  lemma {:induction false} EventsSnoc(link: Link, events: seq<Event>, e: Event)
    ensures After(link, events + [e]) == Next(After(link, events), e)
  {
    assert (events + [e])[..|events|] == events;
  }

  lemma AppendTwice<T>(a: seq<T>, b: seq<T>, c: seq<T>)
    ensures a + (b + c) == a + b + c
  {
  }

  lemma {:induction false} ReceptionsSnoc(link: Link, events: seq<Event>, e: Event, listeners: seq<nat>,
                                          rx: seq<Reception>)
    ensures rx + Receptions(link, events + [e], listeners)
         == rx + Receptions(link, events, listeners) + ReceivedIn(After(link, events), e, listeners)
  {
    var front, last := Receptions(link, events, listeners), ReceivedIn(After(link, events), e, listeners);
    assert (events + [e])[..|events|] == events;
    assert Receptions(link, events + [e], listeners) == front + last;
    AppendTwice(rx, front, last);
  }

  lemma {:induction false} TransitionsSnoc(link: Link, events: seq<Event>, e: Event, said: seq<bool>)
    ensures said + Transitions(link, events + [e])
         == said + Transitions(link, events) + ToldIn(After(link, events), e)
  {
    var front, last := Transitions(link, events), ToldIn(After(link, events), e);
    assert (events + [e])[..|events|] == events;
    assert Transitions(link, events + [e]) == front + last;
    AppendTwice(said, front, last);
  }

  lemma {:induction false} TransmissionsSnoc(link: Link, events: seq<Event>, e: Event, out: seq<Frame>)
    ensures out + Transmissions(link, events + [e])
         == out + Transmissions(link, events) + SentIn(After(link, events), e)
  {
    var front, last := Transmissions(link, events), SentIn(After(link, events), e);
    assert (events + [e])[..|events|] == events;
    assert Transmissions(link, events + [e]) == front + last;
    AppendTwice(out, front, last);
  }

  lemma AlternatesSnoc(notifications: seq<bool>)
    requires Alternates(notifications)
    ensures Alternates(notifications + [|notifications| % 2 == 0])
  {
  }

  /** Whatever the bus, the senders and `stop` do, state listeners hear connected, disconnected,
      connected, ... and the last word is the truth. */
  lemma {:induction false} TransitionsAlternate(stopping: bool, events: seq<Event>)
    ensures Alternates(Transitions(Link(false, stopping), events))
    ensures After(Link(false, stopping), events).open <==> |Transitions(Link(false, stopping), events)| % 2 == 1
    decreases |events|
  {
    if events != [] {
      var link := Link(false, stopping);
      var front, e := events[..|events| - 1], events[|events| - 1];
      TransitionsAlternate(stopping, front);
      AlternatesSnoc(Transitions(link, front));
      if ToldIn(After(link, front), e) == [] {
        assert Transitions(link, events) == Transitions(link, front);
      }
    }
  }

  /** Nothing happens on a stopped bus. */
  lemma {:induction false} StoppedStays(link: Link, events: seq<Event>, n: nat, listeners: seq<nat>)
    requires n <= |events| && After(link, events[..n]) == Link(false, true)
    ensures After(link, events) == Link(false, true)
    ensures Receptions(link, events, listeners) == Receptions(link, events[..n], listeners)
    ensures Transmissions(link, events) == Transmissions(link, events[..n])
    ensures Transitions(link, events) == Transitions(link, events[..n])
    decreases |events|
  {
    if n == |events| {
      assert events[..n] == events;
    } else {
      var front := events[..|events| - 1];
      assert front[..n] == events[..n];
      StoppedStays(link, front, n, listeners);
    }
  }

  /** Once `stop` has been called the bus is never open again, and nothing is received, sent or
      announced any more. */
  lemma {:induction false} StoppedForGood(link: Link, before: seq<Event>, after: seq<Event>, listeners: seq<nat>)
    ensures (var stopped := before + [StopCall];
             && After(link, stopped + after) == Link(false, true)
             && Receptions(link, stopped + after, listeners) == Receptions(link, stopped, listeners)
             && Transmissions(link, stopped + after) == Transmissions(link, stopped)
             && Transitions(link, stopped + after) == Transitions(link, stopped))
  {
    var stopped := before + [StopCall];
    EventsSnoc(link, before, StopCall);
    assert (stopped + after)[..|stopped|] == stopped;
    StoppedStays(link, stopped + after, |stopped|, listeners);
  }
}
