/** The decision core of the device event loop: the timespec arithmetic it
    uses, the handling of one wakeup of the timed wait, and a whole run of
    the loop over the wakeups that the environment delivers. The wait itself
    (a condition variable with an absolute deadline) and the clock are not
    modelled: each wakeup arrives as the wait's outcome together with the
    clock reading taken just before the wait began. */
module EventLoop {

  const NanosPerSec: int := 1000000000
  /** Polling period: the deadline of each wait lies one second ahead. */
  const LoopWaitMs: int := 1000
  /** Every tenth pass reports the complete state of every service. */
  const NLoopsToFull: int := 10

  datatype Timespec = Timespec(sec: int, nsec: int)

  predicate Normal(t: Timespec) {
    0 <= t.nsec < NanosPerSec
  }

  /** The instant a timespec stands for, in nanoseconds. */
  function Nanos(t: Timespec): (n: int) {
    t.sec * NanosPerSec + t.nsec
  }

  /** C integer division, which truncates toward zero (Dafny's rounds down
      for a negative dividend). */
  function TruncDiv(a: int, b: int): (q: int)
    requires b > 0
    ensures a >= 0 ==> 0 <= a - q * b < b
    ensures a < 0 ==> -b < a - q * b <= 0
  {
    if a >= 0 then a / b else -((-a) / b)
  }

  /** INT_MAX, and the number of values of a 32-bit `int`. */
  const IntMax: int := 0x7FFF_FFFF
  const IntModulus: int := 0x1_0000_0000

  /** Conversion of a `long` to a 32-bit `int`: the value of the `int`
      range that is congruent to x modulo 2^32, as the compilers the
      library is built with convert (and as C++20 requires). */
  function ToInt(x: int): (v: int)
    ensures -IntMax - 1 <= v <= IntMax
    ensures (x - v) % IntModulus == 0
    ensures -IntMax - 1 <= x <= IntMax ==> v == x
  {
    var m := x % IntModulus;
    if m > IntMax then m - IntModulus else m
  }

  /** The expression of timespec_diffms, computed in `long`: whole seconds
      apart times 1000 plus the nanosecond difference divided, with
      truncation, by one million. */
  function LongDiffMs(early: Timespec, recent: Timespec): (ms: int) {
    (recent.sec - early.sec) * 1000 + TruncDiv(recent.nsec - early.nsec, 1000000)
  }

  /** timespec_diffms: the `long` difference returned as an `int`. */
  function DiffMs(early: Timespec, recent: Timespec): (ms: int) {
    ToInt(LongDiffMs(early, recent))
  }

  /** timespec_addnanos, for a non-negative amount: the sum, normalised. */
  function AddNanos(t: Timespec, n: int): (r: Timespec)
    requires Normal(t) && n >= 0
    ensures Normal(r)
    ensures Nanos(r) == Nanos(t) + n
  {
    var total := t.nsec + n;
    Timespec(t.sec + total / NanosPerSec, total % NanosPerSec)
  }

  /** Instants at most INT_MAX milliseconds apart, either way. */
  predicate WithinInt(a: Timespec, b: Timespec) {
    -IntMax * 1000000 <= Nanos(b) - Nanos(a) <= IntMax * 1000000
  }

  /** The `long` difference is the elapsed time in milliseconds to within
      one millisecond either way, whatever the two timespecs are. DiffMs
      always lies in the `int` range and is congruent to it modulo 2^32;
      for instants at most INT_MAX milliseconds apart it is equal to it,
      so it is within one millisecond of the elapsed time too. */
  lemma DiffMsBounds(a: Timespec, b: Timespec)
    ensures Nanos(b) - Nanos(a) - 1000000 < LongDiffMs(a, b) * 1000000 < Nanos(b) - Nanos(a) + 1000000
    ensures -IntMax - 1 <= DiffMs(a, b) <= IntMax
    ensures (LongDiffMs(a, b) - DiffMs(a, b)) % IntModulus == 0
    ensures WithinInt(a, b) ==> DiffMs(a, b) == LongDiffMs(a, b)
    ensures WithinInt(a, b) ==>
      Nanos(b) - Nanos(a) - 1000000 < DiffMs(a, b) * 1000000 < Nanos(b) - Nanos(a) + 1000000
  {
    var q := TruncDiv(b.nsec - a.nsec, 1000000);
    assert LongDiffMs(a, b) * 1000000 == (b.sec - a.sec) * NanosPerSec + q * 1000000;
    assert Nanos(b) - Nanos(a) == (b.sec - a.sec) * NanosPerSec + (b.nsec - a.nsec);
  }

  /** Consequences for the one-second threshold of the loop, for instants
      at most INT_MAX milliseconds apart: those at most 999 ms apart are
      under it, those a second or more apart are not, and a later instant
      is never a negative distance away. */
  lemma DiffMsThreshold(a: Timespec, b: Timespec)
    ensures -IntMax * 1000000 <= Nanos(b) - Nanos(a) <= 999000000 ==> DiffMs(a, b) < LoopWaitMs
    ensures 1000000000 <= Nanos(b) - Nanos(a) <= IntMax * 1000000 ==> DiffMs(a, b) >= LoopWaitMs
    ensures 0 <= Nanos(b) - Nanos(a) <= IntMax * 1000000 ==> DiffMs(a, b) >= 0
  {
    DiffMsBounds(a, b);
  }

  /** Beyond INT_MAX milliseconds the conversion wraps: instants 2^31 ms
      apart are the most negative `int` apart, and instants 2^32 + 500 ms
      (about 49.7 days) apart are 500 ms apart, under the threshold. */
  lemma DiffMsWraps()
    ensures DiffMs(Timespec(0, 0), Timespec(2147483, 648000000)) == -IntMax - 1
    ensures DiffMs(Timespec(0, 0), Timespec(4294967, 796000000)) == 500
  {
    assert LongDiffMs(Timespec(0, 0), Timespec(2147483, 648000000)) == IntMax + 1;
    assert LongDiffMs(Timespec(0, 0), Timespec(4294967, 796000000)) == IntModulus + 500;
  }

  /** Pushing two normalised instants by the same one-second period leaves
      their DiffMs unchanged: comparing deadlines is comparing wake times. */
  lemma DeadlineDiff(a: Timespec, b: Timespec)
    requires Normal(a) && Normal(b)
    ensures DiffMs(AddNanos(a, NanosPerSec), AddNanos(b, NanosPerSec)) == DiffMs(a, b)
  {
    var a' := AddNanos(a, NanosPerSec);
    var b' := AddNanos(b, NanosPerSec);
    SameInstant(a', Timespec(a.sec + 1, a.nsec));
    SameInstant(b', Timespec(b.sec + 1, b.nsec));
  }

  /** Two normalised timespecs for the same instant are equal. */
  lemma SameInstant(x: Timespec, y: Timespec)
    requires Normal(x) && Normal(y) && Nanos(x) == Nanos(y)
    ensures x == y
  {
    assert (x.sec - y.sec) * NanosPerSec == y.nsec - x.nsec;
  }

  /** How the timed wait ended. Exit: shouldExit() was called meanwhile,
      which sets the exit flag and wakes the loop; Signalled: an early
      wakeup from loopWakeup(); Timeout: the deadline passed; Failed: any
      other error of the wait. */
  datatype WaitResult = Exit | Signalled | Timeout | Failed

  /** One wakeup: the wait's outcome and the clock reading from which the
      deadline was computed. */
  datatype Wake = Wake(result: WaitResult, now: Timespec)

  /** The loop's own variables. */
  datatype LoopState = LoopState(count: int, didearly: bool, earlytime: Timespec)

  /** The variables before the first wait. earlytime is only read once
      didearly is set, which also sets earlytime. */
  const Initial: LoopState := LoopState(0, false, Timespec(0, 0))

  /** What one wakeup leads to: leave the loop, skip to the next wait, or
      run a polling pass with the given new state and full-state flag. */
  datatype Step = Stop | Skip | Process(next: LoopState, all: bool)

  /** The pass that follows a wakeup that is not skipped. */
  function Pass(count: int, didearly: bool, earlytime: Timespec): (s: Step) {
    var c := count + 1;
    Process(LoopState(c, didearly, earlytime), c != 0 && c % NLoopsToFull == 0)
  }

  /** One iteration of the loop after its wait returns; `needExit` is the
      exit flag as the loop reads it then. */
  function Decide(needExit: bool, st: LoopState, w: Wake): (s: Step)
    requires Normal(w.now)
  {
    var wkuptime := AddNanos(w.now, LoopWaitMs * 1000 * 1000);
    if needExit then Stop
    else match w.result
      case Exit => Stop
      case Failed => Stop
      case Timeout => Pass(st.count, false, st.earlytime)
      case Signalled =>
        if st.didearly then
          if DiffMs(st.earlytime, wkuptime) < LoopWaitMs then Skip
          else Pass(st.count, true, wkuptime)
        else Pass(st.count, true, wkuptime)
  }

  /** What one wakeup does: the exit flag or a failed wait stops the loop;
      an early wakeup is skipped exactly when an earlier early wakeup is
      recorded less than a second before it, and otherwise records its
      deadline; a timeout forgets the early wakeup; every pass adds one to
      the counter and asks for the full state when the counter reaches a
      non-zero multiple of ten. */
  lemma DecideRules(needExit: bool, st: LoopState, w: Wake)
    requires Normal(w.now)
    ensures var s := Decide(needExit, st, w);
      && (s.Process? ==> s.next.count == st.count + 1)
      && (s.Process? ==> (s.all <==> s.next.count != 0 && s.next.count % NLoopsToFull == 0))
      && (needExit || w.result == Failed ==> s == Stop)
      && (s.Skip? <==> !needExit && w.result == Signalled && st.didearly &&
                       DiffMs(st.earlytime, AddNanos(w.now, NanosPerSec)) < LoopWaitMs)
      && (w.result == Signalled && !s.Skip? && !needExit ==>
            s.Process? && s.next.didearly && s.next.earlytime == AddNanos(w.now, NanosPerSec))
      && (w.result == Timeout && !needExit ==> s.Process? && !s.next.didearly && s.next.earlytime == st.earlytime)
  {
  }

  /** The outcome of running the loop over a sequence of wakeups: the final
      variables, the full-state flag of every pass in order, and the exit
      flag at the end. When the wakeups run out before the loop stops, the
      result describes the loop at that point. */
  datatype LoopRun = LoopRun(final: LoopState, flags: seq<bool>, needExit: bool)

  predicate AllNormal(wakes: seq<Wake>) {
    forall k :: 0 <= k < |wakes| ==> Normal(wakes[k].now)
  }

  function Run(needExit: bool, st: LoopState, wakes: seq<Wake>): (r: LoopRun)
    requires AllNormal(wakes)
    decreases |wakes|
  {
    if wakes == [] then LoopRun(st, [], needExit)
    else
      var ne := needExit || wakes[0].result == Exit;
      match Decide(ne, st, wakes[0])
      case Stop => LoopRun(st, [], ne)
      case Skip => Run(ne, st, wakes[1..])
      case Process(next, all) =>
        var r := Run(ne, next, wakes[1..]);
        LoopRun(r.final, [all] + r.flags, r.needExit)
  }

  /** The run from wakeup i on, in terms of what that wakeup decides. */
  lemma RunStep(needExit: bool, st: LoopState, wakes: seq<Wake>, i: nat)
    requires AllNormal(wakes) && i < |wakes|
    ensures AllNormal(wakes[i + 1..])
    ensures var ne := needExit || wakes[i].result == Exit;
      match Decide(ne, st, wakes[i])
      case Stop => Run(needExit, st, wakes[i..]) == LoopRun(st, [], ne)
      case Skip => Run(needExit, st, wakes[i..]) == Run(ne, st, wakes[i + 1..])
      case Process(next, all) =>
        var r := Run(ne, next, wakes[i + 1..]);
        Run(needExit, st, wakes[i..]) == LoopRun(r.final, [all] + r.flags, r.needExit)
  {
    assert wakes[i..][0] == wakes[i] && wakes[i..][1..] == wakes[i + 1..];
  }

  /** The counter goes up by exactly one per pass, and pass k (from 0) asks
      for the full state exactly when the counter it sets is a multiple of
      ten. */
  lemma RunCount(needExit: bool, st: LoopState, wakes: seq<Wake>)
    requires AllNormal(wakes) && st.count >= 0
    ensures Run(needExit, st, wakes).final.count == st.count + |Run(needExit, st, wakes).flags|
    ensures forall k :: 0 <= k < |Run(needExit, st, wakes).flags| ==>
      (Run(needExit, st, wakes).flags[k] <==> (st.count + k + 1) % NLoopsToFull == 0)
  {
    RunCounter(needExit, st, wakes);
    RunFlags(needExit, st, wakes);
  }

  lemma {:induction false} RunCounter(needExit: bool, st: LoopState, wakes: seq<Wake>)
    requires AllNormal(wakes)
    ensures Run(needExit, st, wakes).final.count == st.count + |Run(needExit, st, wakes).flags|
    decreases |wakes|
  {
    if wakes != [] {
      var ne := needExit || wakes[0].result == Exit;
      RunStep(needExit, st, wakes, 0);
      assert wakes[0..] == wakes;
      match Decide(ne, st, wakes[0])
      case Stop =>
      case Skip =>
        RunCounter(ne, st, wakes[1..]);
      case Process(next, all) =>
        DecideRules(ne, st, wakes[0]);
        RunCounter(ne, next, wakes[1..]);
    }
  }

  lemma {:induction false} RunFlags(needExit: bool, st: LoopState, wakes: seq<Wake>)
    requires AllNormal(wakes) && st.count >= 0
    ensures forall k :: 0 <= k < |Run(needExit, st, wakes).flags| ==>
      (Run(needExit, st, wakes).flags[k] <==> (st.count + k + 1) % NLoopsToFull == 0)
    decreases |wakes|
  {
    if wakes != [] {
      var ne := needExit || wakes[0].result == Exit;
      RunStep(needExit, st, wakes, 0);
      assert wakes[0..] == wakes;
      match Decide(ne, st, wakes[0])
      case Stop =>
      case Skip =>
        RunFlags(ne, st, wakes[1..]);
      case Process(next, all) =>
        DecideRules(ne, st, wakes[0]);
        RunFlags(ne, next, wakes[1..]);
        var fs := Run(ne, next, wakes[1..]).flags;
        assert Run(needExit, st, wakes).flags == [all] + fs;
        forall k | 0 <= k < |[all] + fs|
          ensures ([all] + fs)[k] <==> (st.count + k + 1) % NLoopsToFull == 0
        {
          if k > 0 {
            assert ([all] + fs)[k] == fs[k - 1];
            assert next.count + (k - 1) + 1 == st.count + k + 1;
          }
        }
    }
  }

  /** Once an Exit wakeup comes, nothing after it is processed: the run over
      a longer trace is the run that ends with that wakeup. */
  lemma {:induction false} RunStopsAtExit(needExit: bool, st: LoopState, pre: seq<Wake>, w: Wake, post: seq<Wake>)
    requires AllNormal(pre + [w] + post)
    requires w.result == Exit
    ensures AllNormal(pre + [w])
    ensures Run(needExit, st, pre + [w] + post) == Run(needExit, st, pre + [w])
    decreases |pre|
  {
    var all := pre + [w] + post;
    assert forall k :: 0 <= k < |pre + [w]| ==> (pre + [w])[k] == all[k];
    if pre == [] {
      assert all[0] == w && (pre + [w])[0] == w;
    } else {
      assert all[0] == pre[0] && (pre + [w])[0] == pre[0];
      assert all[1..] == pre[1..] + [w] + post;
      assert (pre + [w])[1..] == pre[1..] + [w];
      var ne := needExit || pre[0].result == Exit;
      match Decide(ne, st, pre[0])
      case Stop =>
      case Skip =>
        RunStopsAtExit(ne, st, pre[1..], w, post);
      case Process(next, a) =>
        RunStopsAtExit(ne, next, pre[1..], w, post);
    }
  }

  /** An Exit wakeup ends the loop at once with the exit flag set, and a
      failed wait ends it at once with the flag as it was; neither runs a
      pass. */
  lemma FirstWakeStops(needExit: bool, st: LoopState, w: Wake, post: seq<Wake>)
    requires AllNormal([w] + post)
    ensures w.result == Exit ==> Run(needExit, st, [w] + post) == LoopRun(st, [], true)
    ensures w.result == Failed ==> Run(needExit, st, [w] + post) == LoopRun(st, [], needExit)
  {
    assert ([w] + post)[0] == w;
  }

  /** Early wakeups are coalesced: two signals at most 999 ms apart, the
      first one after a normal wakeup, give a single pass; two signals a
      second up to INT_MAX milliseconds apart give two. */
  lemma TwoSignals(st: LoopState, t1: Timespec, t2: Timespec)
    requires !st.didearly && Normal(t1) && Normal(t2)
    ensures Nanos(t1) <= Nanos(t2) <= Nanos(t1) + 999000000 ==>
      |Run(false, st, [Wake(Signalled, t1), Wake(Signalled, t2)]).flags| == 1
    ensures Nanos(t1) + 1000000000 <= Nanos(t2) <= Nanos(t1) + IntMax * 1000000 ==>
      |Run(false, st, [Wake(Signalled, t1), Wake(Signalled, t2)]).flags| == 2
  {
    var ws := [Wake(Signalled, t1), Wake(Signalled, t2)];
    var d1 := AddNanos(t1, NanosPerSec);
    var d2 := AddNanos(t2, NanosPerSec);
    DiffMsThreshold(d1, d2);
    var s1 := Decide(false, st, ws[0]);
    assert s1 == Pass(st.count, true, d1);
    var st1 := s1.next;
    assert ws[1..] == [Wake(Signalled, t2)];
    assert ws[1..][1..] == [];
    var s2 := Decide(false, st1, ws[1]);
    var r2 := Run(false, st1, ws[1..]);
    if Nanos(t1) <= Nanos(t2) <= Nanos(t1) + 999000000 {
      assert s2 == Skip;
      assert r2 == Run(false, st1, ws[1..][1..]);
    }
    if Nanos(t1) + 1000000000 <= Nanos(t2) <= Nanos(t1) + IntMax * 1000000 {
      assert s2.Process?;
      assert r2.flags == [s2.all] + Run(false, s2.next, ws[1..][1..]).flags;
    }
    assert Run(false, st, ws).flags == [s1.all] + r2.flags;
  }

  /** The wrap reaches the loop: after an early wakeup at the epoch, a
      second one 2^32 + 500 ms later is taken for a coalesced wakeup and
      runs no pass. */
  lemma WrappedGapSkips(st: LoopState)
    requires !st.didearly
    ensures |Run(false, st, [Wake(Signalled, Timespec(0, 0)), Wake(Signalled, Timespec(4294967, 796000000))]).flags| == 1
  {
    var ws := [Wake(Signalled, Timespec(0, 0)), Wake(Signalled, Timespec(4294967, 796000000))];
    var d1 := AddNanos(ws[0].now, NanosPerSec);
    var d2 := AddNanos(ws[1].now, NanosPerSec);
    SameInstant(d1, Timespec(1, 0));
    SameInstant(d2, Timespec(4294968, 796000000));
    assert LongDiffMs(d1, d2) == IntModulus + 500;
    var s1 := Decide(false, st, ws[0]);
    assert s1 == Pass(st.count, true, d1);
    assert ws[1..] == [ws[1]] && ws[1..][1..] == [];
    assert Decide(false, s1.next, ws[1]) == Skip;
    assert Run(false, st, ws).flags == [s1.all] + Run(false, s1.next, ws[1..]).flags;
  }
}
