/** A cap stated per second, kept by a window that opens at the first event
    after the last one closed. Times are in nanoseconds. */
module Rate {
  const SECOND: nat := 1_000_000_000

  datatype Opened = Opened(since: nat, count: nat)

  /** Whether the event falls past the window, which then reopens at it. */
  function Current(w: Opened, now: nat): Opened {
    if now >= w.since + SECOND then Opened(now, 0) else w
  }

  function Fits(w: Opened, now: nat, cap: nat): bool { Current(w, now).count < cap }

  function After(w: Opened, now: nat, cap: nat): Opened {
    var c := Current(w, now);
    if c.count < cap then c.(count := c.count + 1) else c
  }

  class Window {
    var since: nat
    var count: nat

    constructor (now: nat)
      ensures Opened(since, count) == Opened(now, 0)
    {
      since, count := now, 0;
    }

    /** Admit one event at `now` under `cap`; a refused one is not counted. A
        clock that has gone back reads as no time passed. */
    method Admit(now: nat, cap: nat) returns (fits: bool)
      modifies this
      ensures fits == Fits(old(Opened(since, count)), now, cap)
      ensures Opened(since, count) == After(old(Opened(since, count)), now, cap)
    {
      if (if now > since then now - since else 0) >= SECOND {
        since, count := now, 0;
      }
      if count < cap {
        count := count + 1;
        return true;
      }
      return false;
    }
  }

  // ---- Runs --------------------------------------------------------------------

  /** The window after events at `times`, and how many it admitted. */
  function Ran(w: Opened, times: seq<nat>, cap: nat): Opened
    decreases |times|
  {
    if times == [] then w else Ran(After(w, times[0], cap), times[1..], cap)
  }

  function Admitted(w: Opened, times: seq<nat>, cap: nat): nat
    decreases |times|
  {
    if times == [] then 0
    else (if Fits(w, times[0], cap) then 1 else 0) + Admitted(After(w, times[0], cap), times[1..], cap)
  }

  ghost predicate Monotone(times: seq<nat>) {
    forall i, j | 0 <= i < j < |times| :: times[i] <= times[j]
  }

  /** Events that all fall in the window open now admit what is left of it. */
  lemma {:induction false} OneWindow(w: Opened, times: seq<nat>, cap: nat)
    requires w.count <= cap && forall i | 0 <= i < |times| :: times[i] < w.since + SECOND
    ensures Admitted(w, times, cap) <= cap - w.count
    decreases |times|
  {
    if times != [] { OneWindow(After(w, times[0], cap), times[1..], cap); }
  }

  /** Events less than a second apart meet one reopening at most. */
  lemma {:induction false} TwoWindows(w: Opened, times: seq<nat>, cap: nat)
    requires w.count <= cap && Monotone(times)
    requires times != [] ==> w.since <= times[0] && times[|times| - 1] < times[0] + SECOND
    ensures Admitted(w, times, cap) <= 2 * cap - w.count
    decreases |times|
  {
    if times != [] {
      var next := After(w, times[0], cap);
      if times[0] >= w.since + SECOND {
        OneWindow(next, times[1..], cap);
      } else {
        TwoWindows(next, times[1..], cap);
      }
    }
  }

  lemma {:induction false} RunKeeps(w: Opened, times: seq<nat>, cap: nat)
    requires w.count <= cap && Monotone(times) && (times != [] ==> w.since <= times[0])
    ensures var w' := Ran(w, times, cap);
            w'.count <= cap && (times == [] ==> w' == w) && (times != [] ==> w'.since <= times[|times| - 1])
    decreases |times|
  {
    if times != [] { RunKeeps(After(w, times[0], cap), times[1..], cap); }
  }

  /** Of any run, any stretch shorter than a second admits at most twice the
      cap. */
  lemma AnySecond(start: nat, times: seq<nat>, cap: nat, i: nat, j: nat)
    requires i < j <= |times| && Monotone(times) && start <= times[0]
    requires times[j - 1] < times[i] + SECOND
    ensures Admitted(Ran(Opened(start, 0), times[..i], cap), times[i..j], cap) <= 2 * cap
  {
    RunKeeps(Opened(start, 0), times[..i], cap);
    TwoWindows(Ran(Opened(start, 0), times[..i], cap), times[i..j], cap);
  }

  /** One more event at the end of a run. */
  lemma {:induction false} OneMore(w: Opened, times: seq<nat>, t: nat, cap: nat)
    ensures Ran(w, times + [t], cap) == After(Ran(w, times, cap), t, cap)
    ensures Admitted(w, times + [t], cap) == Admitted(w, times, cap) + if Fits(Ran(w, times, cap), t, cap) then 1 else 0
    decreases |times|
  {
    if times == [] {
      assert times + [t] == [t] && [t][1..] == [];
    } else {
      assert (times + [t])[1..] == times[1..] + [t];
      OneMore(After(w, times[0], cap), times[1..], t, cap);
    }
  }

  /** Where the window open after `i` events began: it counts what it admitted
      since. */
  lemma {:induction false} CountsSince(start: nat, times: seq<nat>, cap: nat, i: nat) returns (j: nat)
    requires i < |times| && Monotone(times) && start <= times[0]
    ensures j <= i
    ensures var w := Ran(Opened(start, 0), times[..i], cap);
            && w.since <= times[j] && w.count == Admitted(Ran(Opened(start, 0), times[..j], cap), times[j..i], cap)
    decreases i
  {
    j := 0;
    if i > 0 {
      var from := Opened(start, 0);
      j := CountsSince(start, times, cap, i - 1);
      assert times[..i] == times[..i - 1] + [times[i - 1]];
      OneMore(from, times[..i - 1], times[i - 1], cap);
      var w := Ran(from, times[..i - 1], cap);
      if times[i - 1] >= w.since + SECOND {
        j := i - 1;
        assert times[j..i] == [] + [times[j]];
        OneMore(w, [], times[j], cap);
      } else {
        assert times[j..i] == times[j..i - 1] + [times[i - 1]];
        OneMore(Ran(from, times[..j], cap), times[j..i - 1], times[i - 1], cap);
        RanOn(from, times[..j], times[j..i - 1], cap);
        assert times[..j] + times[j..i - 1] == times[..i - 1];
      }
    }
  }

  lemma {:induction false} RanOn(w: Opened, a: seq<nat>, b: seq<nat>, cap: nat)
    ensures Ran(w, a + b, cap) == Ran(Ran(w, a, cap), b, cap)
    decreases |a|
  {
    if a == [] {
      assert a + b == b;
    } else {
      assert (a + b)[1..] == a[1..] + b;
      RanOn(After(w, a[0], cap), a[1..], b, cap);
    }
  }

  /** An event is refused only where the cap has been used up in the second
      before it. */
  lemma RefusedWhenFull(start: nat, times: seq<nat>, cap: nat, i: nat) returns (j: nat)
    requires i < |times| && Monotone(times) && start <= times[0]
    requires !Fits(Ran(Opened(start, 0), times[..i], cap), times[i], cap)
    ensures j <= i && times[i] < times[j] + SECOND
    ensures Admitted(Ran(Opened(start, 0), times[..j], cap), times[j..i], cap) >= cap
  {
    if cap == 0 { j := i; } else { j := CountsSince(start, times, cap, i); }
  }

  lemma {:induction false} SameInstant(w: Opened, t: nat, n: nat, cap: nat)
    requires w.count + n <= cap && t < w.since + SECOND
    ensures Admitted(w, seq(n, _ => t), cap) == n && Ran(w, seq(n, _ => t), cap) == w.(count := w.count + n)
    decreases n
  {
    if n > 0 {
      assert seq(n, _ => t)[1..] == seq(n - 1, _ => t);
      SameInstant(w.(count := w.count + 1), t, n - 1, cap);
    }
  }

  /** And twice the cap it can be: a full window's worth on each side of a
      boundary, one nanosecond apart. */
  lemma TwiceIsReached(cap: nat)
    ensures var before, after := seq(cap, _ => SECOND - 1), seq(cap, _ => SECOND);
            Admitted(Opened(0, 0), before, cap) + Admitted(Ran(Opened(0, 0), before, cap), after, cap) == 2 * cap
  {
    SameInstant(Opened(0, 0), SECOND - 1, cap, cap);
    var full := Ran(Opened(0, 0), seq(cap, _ => SECOND - 1), cap);
    if cap > 0 {
      assert seq(cap, _ => SECOND)[1..] == seq(cap - 1, _ => SECOND);
      SameInstant(Opened(SECOND, 1), SECOND, cap - 1, cap);
    }
  }
}
