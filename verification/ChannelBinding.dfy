/**
 The exported handshake hash binds the channel: two sessions that export the same
 32 octets went through the same transcript, whatever else happened to either.
 */
module ChannelBinding {
  import opened Octets
  import opened Primitives
  import opened CipherStates
  import opened Hmac
  import opened SymmetricStates
  import opened Handshakes
  import opened HandshakeRuns
  import opened Sessions
  import opened Binding

  /** The hash cut to the 32 octets of the channel binding is still collision-free. */
  ghost predicate TruncationCommits(s: Suite) {
    forall x: Bytes, y: Bytes :: s.hash(x)[..32] == s.hash(y)[..32] ==> x == y
  }

  lemma SymbolicTruncationCommits()
    requires Lawful(Symbolic())
    ensures TruncationCommits(Symbolic())
  {
    var s: Suite := Symbolic();
    forall x: Bytes, y: Bytes | s.hash(x)[..32] == s.hash(y)[..32] ensures x == y {
      SymHashCommits(x, y);
    }
  }

  /** A session whose handshake hash is the fold of a transcript that starts with the prologue. */
  ghost predicate Transcribed(s: Suite, pattern: Pattern, x: Session) {
    && x.party.pattern == pattern && Bound(s, Start(s, pattern), x.party.sym)
    && x.party.sym.log != [] && x.party.sym.log[0] == PROLOGUE
  }

  lemma CallTranscribes(s: Suite, pattern: Pattern, p: Party, c: Call)
    requires p.pattern == pattern && Bound(s, Start(s, pattern), p.sym) && p.sym.log != []
    ensures var q := HandshakeRuns.Apply(s, p, c).0;
            && q.pattern == pattern && Bound(s, Start(s, pattern), q.sym)
            && q.sym.log != [] && q.sym.log[0] == p.sym.log[0]
  {
    CallChains(s, Start(s, pattern), p, c);
    match c
    case WriteCall(eph, _) =>
      WriteScriptKeys(s, p, ScriptOf(p.pattern, p.step), ActsAsInitiator(p.step, true), eph, []);
    case ReadCall(m) =>
      ReadScriptKeys(s, p, ScriptOf(p.pattern, p.step), ActsAsInitiator(p.step, false), m);
    hide WriteScript, ReadScript, Bound;
  }

  lemma EnterTranscribes(s: Suite, pattern: Pattern, x: Session, e: Entry)
    requires Transcribed(s, pattern, x)
    ensures Transcribed(s, pattern, Enter(s, x, e))
  {
    hide Start, Fold;
    if e.StepEntry? {
      CallTranscribes(s, pattern, x.party, ReadCall(e.incoming));
      CallTranscribes(s, pattern, Read(s, x.party, e.incoming).0, WriteCall(e.eph, []));
      CallTranscribes(s, pattern, x.party, WriteCall(e.eph, []));
      hide Read, Write, Bound;
    }
  }

  lemma {:induction false} RunTranscribes(s: Suite, pattern: Pattern, x: Session, entries: seq<Entry>)
    requires Transcribed(s, pattern, x)
    ensures Transcribed(s, pattern, Sessions.Run(s, x, entries).0)
    decreases |entries|
  {
    hide Transcribed, Enter;
    if entries != [] {
      EnterTranscribes(s, pattern, x, entries[0]);
      RunTranscribes(s, pattern, Enter(s, x, entries[0]), entries[1..]);
    }
  }

  /** The session of a setup after a run. */
  function Ran(s: Suite, x: Setup, entries: seq<Entry>): Session {
    Sessions.Run(s, OpenSession(s, x.pattern, x.initiator, x.sSk, x.sPk, x.preKnown), entries).0
  }

  lemma RanTranscribes(s: Suite, x: Setup, entries: seq<Entry>)
    ensures Transcribed(s, x.pattern, Ran(s, x, entries))
  {
    var x0 := OpenSession(s, x.pattern, x.initiator, x.sSk, x.sPk, x.preKnown);
    OpenIsUntouched(s, x.pattern, x.initiator, x.sSk, x.sPk, x.preKnown);
    hide Open, Sessions.Run, Bound, Start;
    RunTranscribes(s, x.pattern, x0, entries);
  }

  /** The hash of a non-empty transcript is an image of the hash, so its first half determines it. */
  lemma HalfHashTellsTranscript(s: Suite, pa: Pattern, a: Session, pb: Pattern, b: Session)
    requires Ideal(s) && TruncationCommits(s)
    requires Transcribed(s, pa, a) && Transcribed(s, pb, b)
    requires a.party.sym.h[..32] == b.party.sym.h[..32]
    ensures pa == pb && a.party.sym.log == b.party.sym.log && a.party.sym.h == b.party.sym.h
  {
    var x, y := a.party.sym.log, b.party.sym.log;
    var fx: Bytes, fy: Bytes := Fold(s, Start(s, pa), x[..|x| - 1]), Fold(s, Start(s, pb), y[..|y| - 1]);
    assert a.party.sym.h == s.hash(fx + x[|x| - 1]) && b.party.sym.h == s.hash(fy + y[|y| - 1]);
    StartsArePlainAndDistinct(s);
    FoldInjective(s, Start(s, pa), x, Start(s, pb), y);
  }

  /**
   Any two sessions, opened on any keys, in any role, after any runs, refused and
   foreign messages included: what they export is equal if and only if they have
   one pattern and mixed the same strings in the same order.
   */
  lemma EqualBindingsEqualTranscripts(s: Suite, x: Setup, ex: seq<Entry>, y: Setup, ey: seq<Entry>)
    requires Ideal(s) && TruncationCommits(s)
    requires Export(s, Ran(s, x, ex)).1.Some? && Export(s, Ran(s, y, ey)).1.Some?
    ensures Export(s, Ran(s, x, ex)).1.value.handshakeHash == Export(s, Ran(s, y, ey)).1.value.handshakeHash
        <==> x.pattern == y.pattern && Ran(s, x, ex).party.sym.log == Ran(s, y, ey).party.sym.log
  {
    var a, b := Ran(s, x, ex), Ran(s, y, ey);
    RanTranscribes(s, x, ex);
    RanTranscribes(s, y, ey);
    ExportGives(s, a);
    ExportGives(s, b);
    hide Ran, Export, Ideal, TruncationCommits, TwoOutputs;
    assert Export(s, a).1.value.handshakeHash == a.party.sym.h[..32];
    assert Export(s, b).1.value.handshakeHash == b.party.sym.h[..32];
    if a.party.sym.h[..32] == b.party.sym.h[..32] {
      HalfHashTellsTranscript(s, x.pattern, a, y.pattern, b);
    }
  }
}
