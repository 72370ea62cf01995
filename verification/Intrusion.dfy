/**
 The two peers of `RekeySync` on a network that hands them bytes of its own:
 arbitrary strings, replays, frames of the other direction, at any moment.  A
 string is taken exactly if it is sealed under the key and counter due; all
 others change nothing, so a frame is taken at most once.
 */
module Intrusion {
  import opened Octets
  import opened Primitives
  import opened CipherStates
  import opened Transports
  import opened RekeySync

  /** An event of the peers, or bytes that reach a peer beside its channel. */
  datatype Act = Own(event: Event) | HandA(ct: Bytes) | HandB(ct: Bytes)

  /** As a delivery; what is rejected is not counted among the outcomes of frames. */
  function HandToA(s: Suite, w: World, ct: Bytes): World {
    var (t, plain) := OpenThenRekey(s, w.a.t, ct);
    if plain.None? then w.(a := w.a.(t := t))
    else
      var epoch := w.a.epoch + Rekeys(Opened(s, w.a.t, ct).0);
      w.(a := w.a.(t := t, epoch := epoch, outcomes := w.a.outcomes + [plain]))
  }

  function ActStep(s: Suite, w: World, act: Act): World {
    match act
    case Own(event) => Step(s, w, event)
    case HandA(ct) => HandToA(s, w, ct)
    case HandB(ct) => Swap(HandToA(s, Swap(w), ct))
  }

  function ActRun(s: Suite, w: World, acts: seq<Act>): World
    decreases |acts|
  {
    if acts == [] then w else ActRun(s, ActStep(s, w, acts[0]), acts[1..])
  }

  /** The events alone. */
  function Erase(acts: seq<Act>): seq<Event> {
    if acts == [] then [] else (if acts[0].Own? then [acts[0].event] else []) + Erase(acts[1..])
  }

  /** Sealed under the very key and counter a receiver waits for. */
  ghost predicate Due(s: Suite, c: Cipher, ct: Bytes) {
    exists p: Bytes :: ct == s.seal(c.k, WireNonceOf(c.n), [], p)
  }

  /** Bytes handed to a peer change nothing if and only if they are not due. */
  lemma HandIsInert(s: Suite, w: World, ct: Bytes)
    requires Ideal(s) && w.a.t.recv.hasKey
    ensures HandToA(s, w, ct) == w <==> !Due(s, w.a.t.recv, ct)
  {
    var c := w.a.t.recv;
    var out := s.unseal(c.k, WireNonceOf(c.n), [], ct);
    if out.Some? {
      assert ct == s.seal(c.k, WireNonceOf(c.n), [], out.value);
      assert |HandToA(s, w, ct).a.outcomes| == |w.a.outcomes| + 1;
    }
  }

  /** All that is handed over in a run is not due at its moment. */
  ghost predicate AllForeign(s: Suite, w: World, acts: seq<Act>)
    decreases |acts|
  {
    acts != [] ==>
      && (acts[0].HandA? ==> !Due(s, w.a.t.recv, acts[0].ct))
      && (acts[0].HandB? ==> !Due(s, w.b.t.recv, acts[0].ct))
      && AllForeign(s, ActStep(s, w, acts[0]), acts[1..])
  }

  predicate AllKeyed(w: World) {
    w.a.t.send.hasKey && w.a.t.recv.hasKey && w.b.t.send.hasKey && w.b.t.recv.hasKey
  }

  lemma StepKeepsKeyed(s: Suite, w: World, event: Event)
    requires AllKeyed(w)
    ensures AllKeyed(Step(s, w, event))
  {
  }

  lemma ForeignActIsInert(s: Suite, w: World, act: Act)
    requires Ideal(s) && AllKeyed(w) && !act.Own?
    requires act.HandA? ==> !Due(s, w.a.t.recv, act.ct)
    requires act.HandB? ==> !Due(s, w.b.t.recv, act.ct)
    ensures ActStep(s, w, act) == w
  {
    hide HandToA, Due, Ideal;
    if act.HandA? {
      HandIsInert(s, w, act.ct);
    } else {
      HandIsInert(s, Swap(w), act.ct);
    }
  }

  /** Foreign bytes, as many as one likes, wherever they come in: the run is the run without them. */
  lemma {:induction false} ForeignBytesErase(s: Suite, w: World, acts: seq<Act>)
    requires Ideal(s) && AllKeyed(w) && AllForeign(s, w, acts)
    ensures ActRun(s, w, acts) == Run(s, w, Erase(acts))
    decreases |acts|
  {
    hide Step, Ideal, Due, AllKeyed, HandToA;
    if acts != [] {
      var rest := Erase(acts[1..]);
      if acts[0].Own? {
        StepKeepsKeyed(s, w, acts[0].event);
        assert ([acts[0].event] + rest)[1..] == rest;
      } else {
        ForeignActIsInert(s, w, acts[0]);
        assert [] + rest == rest;
      }
      ForeignBytesErase(s, ActStep(s, w, acts[0]), acts[1..]);
    }
  }

  // ---- What is due, of all genuine frames ----

  /** A frame ever sealed for a peer is due if and only if its epoch and counter are those the peer waits for. */
  lemma DueIsPosition(s: Suite, k: Key, c: Cipher, epoch: nat, f: InFlight)
    requires Ideal(s) && FreshKeySchedule(s) && Stamped(s, k, f)
    requires c.k == EpochKey(s, k, epoch) && c.n < REKEY_INTERVAL
    ensures Due(s, c, f.ct) <==> f.epoch == epoch && f.n == c.n
  {
    if Due(s, c, f.ct) {
      var p: Bytes :| f.ct == s.seal(c.k, WireNonceOf(c.n), [], p);
      assert s.unseal(c.k, WireNonceOf(c.n), [], f.ct) == Some(p);
      assert c.k == EpochKey(s, k, f.epoch) && WireNonceOf(c.n) == WireNonceOf(f.n);
      WireNonceInjective(c.n, f.n);
    }
  }

  /** Where A stands in the direction towards it. */
  function Reached(p: Peer): nat {
    Position(p.epoch, p.t.recv.n)
  }

  lemma StepAdvances(s: Suite, k1: Key, k2: Key, w: World, event: Event)
    requires Ideal(s) && FreshKeySchedule(s) && Aligned(s, k1, k2, w)
    ensures Reached(Step(s, w, event).a) >= Reached(w.a)
    ensures event.DeliverA? && w.toA != [] ==>
              Position(w.toA[0].epoch, w.toA[0].n) < Reached(Step(s, w, event).a)
  {
    match event
    case SendA(p) => SendEffect(s, k1, k2, w, p);
    case SendB(_) =>
    case DeliverB =>
    case DeliverA =>
      if w.toA != [] {
        HeadIsOldOrDue(s, k2, w.b, w.a, w.toA);
        if w.toA[0].epoch < w.a.epoch {
          OldFrameEffect(s, k1, k2, w);
        } else {
          DueFrameEffect(s, k1, k2, w);
        }
      }
  }

  lemma {:induction false} RunAdvances(s: Suite, k1: Key, k2: Key, w: World, events: seq<Event>)
    requires Ideal(s) && FreshKeySchedule(s) && Aligned(s, k1, k2, w)
    ensures Reached(Run(s, w, events).a) >= Reached(w.a)
    decreases |events|
  {
    hide Step, Ideal, FreshKeySchedule, Aligned, Reached;
    if events != [] {
      StepAdvances(s, k1, k2, w, events[0]);
      StepKeepsAligned(s, k1, k2, w, events[0]);
      RunAdvances(s, k1, k2, Step(s, w, events[0]), events[1..]);
    }
  }

  /**
   Each frame at most once: at the end of any run A is delivered its next frame;
   whatever happens afterwards, the same ciphertext handed to A again, at any
   time, changes nothing.
   */
  lemma TakenAtMostOnce(s: Suite, k1: Key, k2: Key, before: seq<Event>, after: seq<Event>)
    requires Ideal(s) && FreshKeySchedule(s)
    requires Run(s, Fresh(k1, k2), before).toA != []
    ensures var w := Run(s, Fresh(k1, k2), before);
            var later := Run(s, Step(s, w, DeliverA), after);
            HandToA(s, later, w.toA[0].ct) == later
  {
    var w := Run(s, Fresh(k1, k2), before);
    var w1 := Step(s, w, DeliverA);
    var later := Run(s, w1, after);
    FreshIsAligned(s, k1, k2);
    hide Fresh, Run, Step, Ideal, FreshKeySchedule, HandToA, Direction, Due;
    RunKeepsAligned(s, k1, k2, Fresh(k1, k2), before);
    StepKeepsAligned(s, k1, k2, w, DeliverA);
    RunKeepsAligned(s, k1, k2, w1, after);
    StepAdvances(s, k1, k2, w, DeliverA);
    RunAdvances(s, k1, k2, w1, after);
    HeadIsOldOrDue(s, k2, w.b, w.a, w.toA);
    DueIsPosition(s, k2, later.a.t.recv, later.a.epoch, w.toA[0]);
    HandIsInert(s, later, w.toA[0].ct);
  }
}
