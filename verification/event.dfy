/**
 * `OneTimeEvent` of `src/event.js`: a latch over a promise. `signal()`
 * resolves the promise the first time only; `then(observer)` attaches an
 * observer to the promise, so an observer attached before the signal runs
 * when it comes and one attached afterwards runs too.
 *
 * Observers are identified by numbers. "Delivered" means handed to the
 * promise machinery for running: the model keeps the order in which that
 * happens, not the microtask timing.
 */
module Event {

  type Observer = nat

  class OneTimeEvent {
    /** `_signal`. */
    var fired: bool
    /** How often `_resolve` has been called. */
    var resolveCalls: nat
    /** Observers attached before the signal, waiting on the promise. */
    var pending: seq<Observer>
    /** Observers the settled promise has run or scheduled, in that order. */
    var delivered: seq<Observer>
    /** Every observer ever attached with `then`, in order. */
    ghost var attached: seq<Observer>

    /** Before the signal nothing is delivered and `_resolve` was never called;
        after it nothing waits and `_resolve` was called exactly once; and
        every attachment is either delivered or waiting, in attachment order. */
    ghost predicate Valid()
      reads this
    {
      && (!fired ==> delivered == [] && resolveCalls == 0)
      && (fired ==> pending == [] && resolveCalls == 1)
      && delivered + pending == attached
    }

    constructor()
      ensures Valid()
      ensures !fired && attached == []
    {
      fired := false;
      resolveCalls := 0;
      pending := [];
      delivered := [];
      attached := [];
    }

    /** `signal()`: only the first call sets the flag and resolves the promise,
        which delivers every waiting observer in attachment order. */
    method Signal()
      requires Valid()
      modifies this
      ensures Valid()
      ensures fired
      ensures attached == old(attached)
      ensures old(fired) ==> delivered == old(delivered) && resolveCalls == old(resolveCalls)
      ensures !old(fired) ==> delivered == old(pending) && resolveCalls == 1
    {
      if !fired {
        fired := true;
        resolveCalls := resolveCalls + 1;
        delivered := delivered + pending;
        pending := [];
      }
    }

    /** `then(observer)`: waits for the signal, or is delivered at once when
        the promise is already resolved. */
    method Then(o: Observer)
      requires Valid()
      modifies this
      ensures Valid()
      ensures fired == old(fired) && resolveCalls == old(resolveCalls)
      ensures attached == old(attached) + [o]
      ensures fired ==> delivered == old(delivered) + [o]
      ensures !fired ==> delivered == [] && pending == old(pending) + [o]
    {
      if fired {
        delivered := delivered + [o];
      } else {
        pending := pending + [o];
      }
      attached := attached + [o];
    }
  }

  /** One call on the event. */
  datatype Call = SignalCall | ThenCall(observer: Observer)

  /** The observers attached by a sequence of calls, in order. */
  function Attachments(calls: seq<Call>): (os: seq<Observer>)
    ensures |os| <= |calls|
  {
    if |calls| == 0 then []
    else (if calls[0].ThenCall? then [calls[0].observer] else []) + Attachments(calls[1..])
  }

  /** Some call in the sequence is a signal. */
  predicate Signalled(calls: seq<Call>)
  {
    exists i :: 0 <= i < |calls| && calls[i].SignalCall?
  }

  /** How often `o` occurs in `os`. */
  function Occurrences(os: seq<Observer>, o: Observer): nat
  {
    if |os| == 0 then 0 else (if os[0] == o then 1 else 0) + Occurrences(os[1..], o)
  }

  /** How often `then(o)` is called in a sequence of calls. */
  function ThenCalls(calls: seq<Call>, o: Observer): nat
  {
    if |calls| == 0 then 0 else (if calls[0] == ThenCall(o) then 1 else 0) + ThenCalls(calls[1..], o)
  }

  lemma {:induction false} AttachmentsAppend(calls: seq<Call>, c: Call)
    ensures Attachments(calls + [c]) == Attachments(calls) + (if c.ThenCall? then [c.observer] else [])
  {
    if |calls| > 0 {
      assert (calls + [c])[1..] == calls[1..] + [c];
      AttachmentsAppend(calls[1..], c);
    }
  }

  /** Runs the calls on a fresh event. With no signal among them nothing is
      delivered and `_resolve` is never called; with one, every observer
      attached, before or after the signal, is delivered in attachment order,
      and `_resolve` was called exactly once however many signals there were. */
  method Replay(calls: seq<Call>) returns (delivered: seq<Observer>, resolveCalls: nat)
    ensures Signalled(calls) ==> delivered == Attachments(calls) && resolveCalls == 1
    ensures Signalled(calls) ==> forall o :: Occurrences(delivered, o) == ThenCalls(calls, o)
    ensures !Signalled(calls) ==> delivered == [] && resolveCalls == 0
  {
    var e := new OneTimeEvent();
    for i := 0 to |calls|
      invariant e.Valid()
      invariant e.attached == Attachments(calls[..i])
      invariant e.fired <==> Signalled(calls[..i])
    {
      assert calls[..i + 1] == calls[..i] + [calls[i]];
      AttachmentsAppend(calls[..i], calls[i]);
      match calls[i]
      case SignalCall =>
        e.Signal();
      case ThenCall(o) =>
        e.Then(o);
    }
    assert calls[..|calls|] == calls;
    delivered, resolveCalls := e.delivered, e.resolveCalls;
    forall o {
      DeliveredOncePerAttachment(calls, o);
    }
  }

  /** Exactly once: after a signal, every observer is delivered exactly as
      many times as it was attached, whatever the order of the calls. */
  lemma {:induction false} DeliveredOncePerAttachment(calls: seq<Call>, o: Observer)
    ensures Occurrences(Attachments(calls), o) == ThenCalls(calls, o)
  {
    if |calls| > 0 {
      DeliveredOncePerAttachment(calls[1..], o);
      OccurrencesAppend(if calls[0].ThenCall? then [calls[0].observer] else [], Attachments(calls[1..]), o);
    }
  }

  lemma {:induction false} OccurrencesAppend(a: seq<Observer>, b: seq<Observer>, o: Observer)
    ensures Occurrences(a + b, o) == Occurrences(a, o) + Occurrences(b, o)
  {
    if |a| > 0 {
      assert (a + b)[1..] == a[1..] + b;
      OccurrencesAppend(a[1..], b, o);
    } else {
      assert a + b == b;
    }
  }

  /** A late observer is not lost: on a new event signalled twice, attaching
      one observer delivers it, and `_resolve` was called once. */
  method LateObserverIsDelivered(o: Observer) returns (delivered: seq<Observer>, resolveCalls: nat)
    ensures delivered == [o] && resolveCalls == 1
  {
    var e := new OneTimeEvent();
    e.Signal();
    e.Signal();
    e.Then(o);
    delivered, resolveCalls := e.delivered, e.resolveCalls;
  }
}
