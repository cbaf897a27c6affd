/**
 Boot-gate pacing (backend/api/boot_gate.py:27-128): a clean verdict is final, a degraded one is probed again, five times
 at once and then on a doubling gap of account updates.
 */
module BootGate {
  import opened Prelude

  const MAX_DEGRADED_ATTEMPTS: nat := 5
  const MAX_BACKOFF_UPDATES: nat := 2048

  datatype State = State(ran: bool, degraded: bool, attempts: nat, deferred: nat, backoff: nat)

  function Fresh(): State {
    State(false, false, 0, 0, 8)
  }

  function LeastOf(a: nat, b: nat): nat {
    if a <= b then a else b
  }

  /** One account update: the state it leaves and whether to probe. */
  function Decide(s: State, equityKnown: bool): (State, bool) {
    if !equityKnown then (s, false)
    else if s.ran && !s.degraded then (s, false)
    else if s.ran && s.attempts >= MAX_DEGRADED_ATTEMPTS then
      var counted := s.(deferred := s.deferred + 1);
      if counted.deferred < s.backoff then (counted, false)
      else
        (counted.(deferred := 0, backoff := LeastOf(s.backoff * 2, MAX_BACKOFF_UPDATES), ran := true,
                  attempts := s.attempts + 1),
         true)
    else (s.(ran := true, attempts := s.attempts + 1), true)
  }

  class BootGateState {
    var ran: bool
    var degraded: bool
    var attempts: nat
    var deferred: nat
    var backoff: nat

    ghost function View(): State
      reads this
    {
      State(ran, degraded, attempts, deferred, backoff)
    }

    constructor ()
      ensures View() == Fresh()
    {
      ran, degraded, attempts, deferred, backoff := false, false, 0, 0, 8;
    }

    method ShouldRun(equityKnown: bool) returns (probe: bool)
      modifies this
      ensures (View(), probe) == Decide(old(View()), equityKnown)
    {
      if !equityKnown {
        return false;
      }
      if ran && !degraded {
        return false;
      }
      if ran && attempts >= MAX_DEGRADED_ATTEMPTS {
        deferred := deferred + 1;
        if deferred < backoff {
          return false;
        }
        deferred := 0;
        backoff := LeastOf(backoff * 2, MAX_BACKOFF_UPDATES);
      }
      ran := true;
      attempts := attempts + 1;
      return true;
    }

    /** The caller stores the verdict of a probe, unless the probe itself raised: that is swallowed with nothing stored. */
    method Update(equityKnown: bool, verdict: Verdict) returns (probe: bool)
      modifies this
      ensures View() == Step(old(View()), equityKnown, verdict)
      ensures probe == Decide(old(View()), equityKnown).1
    {
      probe := ShouldRun(equityKnown);
      if probe && !verdict.Raised? {
        degraded := verdict.Degraded?;
      }
    }
  }

  /**
   How a probe ends: with nothing wrong, with a lane degraded, or with no verdict at all. A raise inside one lane's preflight is
   a degraded lane (backend/api/boot_gate.py:216-239). `Raised` is a raise outside it, from looking up a lane's broker, reading
   the report or journalling it, which ends the probe and reaches the node's handler (backend/api/engine_node.py:9778-9779).
   */
  datatype Verdict = Clean | Degraded | Raised

  /** An update and, when it probes, the verdict. */
  function Step(s: State, equityKnown: bool, verdict: Verdict): State {
    var (next, probe) := Decide(s, equityKnown);
    if probe && !verdict.Raised? then next.(degraded := verdict.Degraded?) else next
  }

  datatype Update = Update(equityKnown: bool, verdict: Verdict)

  function Run(s: State, updates: seq<Update>): State
    decreases |updates|
  {
    if updates == [] then s
    else
      var n := |updates| - 1;
      Step(Run(s, updates[..n]), updates[n].equityKnown, updates[n].verdict)
  }

  /** How many of the updates probe. */
  function ProbesIn(s: State, updates: seq<Update>): nat
    decreases |updates|
  {
    if updates == [] then 0
    else
      var n := |updates| - 1;
      ProbesIn(s, updates[..n]) + (if Decide(Run(s, updates[..n]), updates[n].equityKnown).1 then 1 else 0)
  }

  // ---- unknown equity and a clean verdict ----------------------------------------------------------

  /** The updates that say what the equity is. */
  function Known(updates: seq<Update>): seq<Update> {
    Filter(updates, (u: Update) => u.equityKnown)
  }

  lemma {:induction false} KnownLast(updates: seq<Update>)
    requires updates != []
    ensures var n := |updates| - 1;
            Known(updates) == if updates[n].equityKnown then Known(updates[..n]) + [updates[n]] else Known(updates[..n])
  {
    var n := |updates| - 1;
    var f := (u: Update) => u.equityKnown;
    assert updates == updates[..n] + [updates[n]];
    FilterConcat(updates[..n], [updates[n]], f);
    assert [updates[n]][1..] == [];
    assert Known(updates[..n]) + [] == Known(updates[..n]);
  }

  /** Updates without equity change nothing: a run is where its known-equity updates alone would lead. */
  lemma {:induction false} UnknownEquityIsInvisible(s: State, updates: seq<Update>)
    ensures Run(s, updates) == Run(s, Known(updates))
    ensures ProbesIn(s, updates) == ProbesIn(s, Known(updates))
    decreases |updates|
  {
    if updates != [] {
      var n := |updates| - 1;
      UnknownEquityIsInvisible(s, updates[..n]);
      KnownLast(updates);
      hide Known;
      if updates[n].equityKnown {
        var k := Known(updates[..n]);
        assert (k + [updates[n]])[..|k|] == k;
      }
    }
  }

  /** A clean verdict is final: no update probes any more, whatever it would find. */
  lemma {:induction false} CleanIsFinal(s: State, updates: seq<Update>)
    requires s.ran && !s.degraded
    ensures Run(s, updates) == s && ProbesIn(s, updates) == 0
    decreases |updates|
  {
    if updates != [] {
      CleanIsFinal(s, updates[..|updates| - 1]);
    }
  }

  // ---- a lane that never heals ---------------------------------------------------------------------

  /** The state after `n` known-equity updates that all find the stack degraded. */
  function After(n: nat): State {
    if n == 0 then Fresh() else Step(After(n - 1), true, Degraded)
  }

  /** The `n`th such update probes. */
  predicate Probes(n: nat)
    requires n > 0
  {
    Decide(After(n - 1), true).1
  }

  function ProbesBy(n: nat): nat {
    if n == 0 then 0 else ProbesBy(n - 1) + (if Probes(n) then 1 else 0)
  }

  /** Just probed, past the fast retries, with this gap to the next probe. */
  predicate Waiting(n: nat, gap: nat) {
    var s := After(n);
    s.ran && s.degraded && s.attempts >= MAX_DEGRADED_ATTEMPTS && s.deferred == 0 && s.backoff == gap > 0
  }

  /** Within the gap nothing probes; at its end one update does, and the gap doubles up to its ceiling. */
  lemma {:induction false} GapPasses(n: nat, gap: nat, k: nat)
    requires Waiting(n, gap) && k < gap
    ensures After(n + k) == After(n).(deferred := k)
    ensures ProbesBy(n + k) == ProbesBy(n)
    ensures forall i :: n < i <= n + k ==> !Probes(i)
  {
    if k > 0 {
      GapPasses(n, gap, k - 1);
    }
  }

  lemma {:induction false} GapEnds(n: nat, gap: nat)
    requires Waiting(n, gap)
    ensures Waiting(n + gap, LeastOf(gap * 2, MAX_BACKOFF_UPDATES))
    ensures Probes(n + gap) && ProbesBy(n + gap) == ProbesBy(n) + 1
    ensures forall i :: n < i < n + gap ==> !Probes(i)
  {
    GapPasses(n, gap, gap - 1);
  }

  lemma {:induction false} FastRetries()
    ensures forall i :: 1 <= i <= 5 ==> Probes(i)
    ensures ProbesBy(5) == 5 && Waiting(5, 8)
  {
    var s := State(true, true, 1, 0, 8);
    assert After(1) == s;
    assert After(2) == s.(attempts := 2);
    assert After(3) == s.(attempts := 3);
    assert After(4) == s.(attempts := 4);
    assert After(5) == s.(attempts := 5);
    assert Probes(1) && Probes(2) && Probes(3) && Probes(4) && Probes(5);
    assert ProbesBy(1) == 1 && ProbesBy(2) == 2 && ProbesBy(3) == 3 && ProbesBy(4) == 4;
  }

  /** The updates a permanently degraded boot probes at, before the gap reaches its ceiling. */
  const EARLY := {1, 2, 3, 4, 5, 13, 29, 61, 125, 253, 509, 1021, 2045}

  lemma {:induction false} DoublingGaps()
    ensures Waiting(2045, MAX_BACKOFF_UPDATES) && ProbesBy(2045) == 13
    ensures forall i :: 1 <= i <= 2045 ==> (Probes(i) <==> i in EARLY)
  {
    hide Probes, ProbesBy, Waiting;
    FastRetries();
    GapEnds(5, 8);
    GapEnds(13, 16);
    GapEnds(29, 32);
    GapEnds(61, 64);
    GapEnds(125, 128);
    GapEnds(253, 256);
    GapEnds(509, 512);
    GapEnds(1021, 1024);
  }

  /** From then on the probes are exactly every `MAX_BACKOFF_UPDATES` updates. */
  lemma {:induction false} HourlyProbes(m: nat)
    ensures Waiting(2045 + m * MAX_BACKOFF_UPDATES, MAX_BACKOFF_UPDATES)
    ensures ProbesBy(2045 + m * MAX_BACKOFF_UPDATES) == 13 + m
  {
    hide Probes, ProbesBy, Waiting;
    if m == 0 {
      DoublingGaps();
    } else {
      HourlyProbes(m - 1);
      GapEnds(2045 + (m - 1) * MAX_BACKOFF_UPDATES, MAX_BACKOFF_UPDATES);
    }
  }

  /**
   The whole schedule of a boot that stays degraded: the update probes exactly when it is one of the early ones or a
   whole number of ceilings after the last of them.
   */
  lemma {:induction false} ProbeSchedule(n: nat)
    requires n > 0
    ensures Probes(n) <==> if n <= 2045 then n in EARLY else (n - 2045) % MAX_BACKOFF_UPDATES == 0
  {
    hide Probes, ProbesBy, Waiting;
    if n <= 2045 {
      DoublingGaps();
    } else {
      var m := (n - 2046) / MAX_BACKOFF_UPDATES;
      HourlyProbes(m);
      GapEnds(2045 + m * MAX_BACKOFF_UPDATES, MAX_BACKOFF_UPDATES);
    }
  }

  /** How many probes a permanently degraded boot has made: thirteen, and one more each ceiling. */
  lemma {:induction false} ProbeCount(n: nat)
    requires n >= 2045
    ensures ProbesBy(n) == 13 + (n - 2045) / MAX_BACKOFF_UPDATES
  {
    hide Probes, ProbesBy, Waiting;
    var m := (n - 2045) / MAX_BACKOFF_UPDATES;
    HourlyProbes(m);
    GapPasses(2045 + m * MAX_BACKOFF_UPDATES, MAX_BACKOFF_UPDATES, (n - 2045) % MAX_BACKOFF_UPDATES);
  }

  /** It never goes quiet: some update in every ceiling's worth of updates probes. */
  lemma {:induction false} NeverSilent(n: nat)
    ensures exists i :: n < i <= n + MAX_BACKOFF_UPDATES && Probes(i)
  {
    var i :=
      if n < 5 then n + 1 else if n < 13 then 13 else if n < 29 then 29 else if n < 61 then 61 else if n < 125 then 125
      else if n < 253 then 253 else if n < 509 then 509 else if n < 1021 then 1021 else if n < 2045 then 2045
      else 2045 + ((n - 2045) / MAX_BACKOFF_UPDATES + 1) * MAX_BACKOFF_UPDATES;
    ProbeSchedule(i);
  }

  lemma {:induction false} StaysDegraded(n: nat)
    requires n > 0
    ensures After(n).ran && After(n).degraded
  {
    if n > 1 {
      StaysDegraded(n - 1);
    }
  }

  /**
   The same count over any run of account updates that never finds the stack clean, those without equity among them: probes
   that raise count as the degraded ones they follow, so long as the first of all found a lane degraded.
   */
  lemma {:induction false} DegradedRun(updates: seq<Update>)
    requires forall u :: u in updates ==> !u.verdict.Clean?
    requires Known(updates) != [] ==> Known(updates)[0].verdict.Degraded?
    ensures Run(Fresh(), updates) == After(|Known(updates)|)
    ensures ProbesIn(Fresh(), updates) == ProbesBy(|Known(updates)|)
    decreases |updates|
  {
    if updates != [] {
      var n := |updates| - 1;
      assert updates[n] in updates && forall u :: u in updates[..n] ==> u in updates;
      KnownLast(updates);
      DegradedRun(updates[..n]);
      var k := |Known(updates[..n])|;
      if k > 0 {
        StaysDegraded(k);
      }
    }
  }

  // ---- when it goes silent -------------------------------------------------------------------------

  /** The verdicts of the updates that probe, in order. */
  function Verdicts(s: State, updates: seq<Update>): seq<Verdict>
    decreases |updates|
  {
    if updates == [] then []
    else
      var n := |updates| - 1;
      Verdicts(s, updates[..n])
      + (if Decide(Run(s, updates[..n]), updates[n].equityKnown).1 then [updates[n].verdict] else [])
  }

  /** No update, however many there are and whatever they say, probes any more. */
  ghost predicate Silent(s: State) {
    forall more :: ProbesIn(s, more) == 0
  }

  lemma {:induction false} RunFirst(s: State, u: Update, rest: seq<Update>)
    ensures Run(s, [u] + rest) == Run(Step(s, u.equityKnown, u.verdict), rest)
    ensures ProbesIn(s, [u] + rest)
         == (if Decide(s, u.equityKnown).1 then 1 else 0) + ProbesIn(Step(s, u.equityKnown, u.verdict), rest)
    decreases |rest|
  {
    hide Decide, Step;
    if rest == [] {
      assert [u] + rest == [u] && [u][..0] == [];
    } else {
      var n := |rest| - 1;
      assert ([u] + rest)[..|[u] + rest| - 1] == [u] + rest[..n];
      RunFirst(s, u, rest[..n]);
    }
  }

  /** A gate that has not run, or whose last stored verdict is degraded, probes again if only enough updates follow. */
  lemma {:induction false} ProbesEventually(s: State)
    requires !s.ran || s.degraded
    ensures !Silent(s)
    decreases s.backoff - s.deferred
  {
    var u := Update(true, Degraded);
    var next := Step(s, true, Degraded);
    if Decide(s, true).1 {
      RunFirst(s, u, []);
      assert ProbesIn(s, [u] + []) != 0;
    } else {
      ProbesEventually(next);
      var more :| ProbesIn(next, more) != 0;
      RunFirst(s, u, more);
      assert ProbesIn(s, [u] + more) != 0;
    }
  }

  lemma {:induction false} SilentIsClean(s: State)
    ensures Silent(s) <==> s.ran && !s.degraded
  {
    if s.ran && !s.degraded {
      forall more
        ensures ProbesIn(s, more) == 0
      {
        CleanIsFinal(s, more);
      }
    } else {
      ProbesEventually(s);
    }
  }

  /** What a boot's probes have left in the state. */
  lemma {:induction false} VerdictsTell(updates: seq<Update>)
    ensures var s, v := Run(Fresh(), updates), Verdicts(Fresh(), updates);
            && (s.ran <==> v != [])
            && (s.ran && !s.degraded <==> v != [] && (v[0].Raised? || Clean in v))
            && (!s.ran ==> !s.degraded)
    decreases |updates|
  {
    if updates != [] {
      var n := |updates| - 1;
      VerdictsTell(updates[..n]);
      var v, w := Verdicts(Fresh(), updates[..n]), [updates[n].verdict];
      assert Clean in v + w <==> Clean in v || updates[n].verdict == Clean;
    }
  }

  /**
   Exactly when a boot goes silent for good: some probe found the stack clean, or the very first one raised. A probe that
   raises stores no verdict, and what the state holds before the first is read as clean.
   */
  lemma {:induction false} GoesSilentIff(updates: seq<Update>)
    ensures var v := Verdicts(Fresh(), updates);
            Silent(Run(Fresh(), updates)) <==> v != [] && (v[0].Raised? || Clean in v)
  {
    VerdictsTell(updates);
    SilentIsClean(Run(Fresh(), updates));
  }

  /** One raise at the first probe, and a stack degraded ever after is never probed again. */
  lemma {:induction false} FirstRaiseSilences(more: seq<Update>)
    ensures ProbesIn(Fresh(), [Update(true, Raised)] + more) == 1
  {
    RunFirst(Fresh(), Update(true, Raised), more);
    CleanIsFinal(Step(Fresh(), true, Raised), more);
  }
}
