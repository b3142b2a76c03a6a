/**
 * `doHealth`: ping the SDK's `Health`, then wait for the next tick, forever;
 * the first failed ping is fatal. Time is abstracted to ticks and the SDK to
 * the sequence of outcomes its pings return.
 */
module Heartbeat {
  import opened Wrappers

  /** One step of the loop: a `Health` call, or a wait on the ticker. */
  datatype Beat = Ping | Tick

  /** Index of the first failed ping. */
  function FirstFailure(outcomes: seq<bool>): (r: Option<nat>)
    ensures r.None? <==> forall i :: 0 <= i < |outcomes| ==> outcomes[i]
    ensures r.Some? ==> r.value < |outcomes| && !outcomes[r.value]
    ensures r.Some? ==> forall i :: 0 <= i < r.value ==> outcomes[i]
  {
    if outcomes == [] then None
    else if !outcomes[0] then Some(0)
    else
      match FirstFailure(outcomes[1..])
      case None => None
      case Some(k) => Some(k + 1)
  }

  /** The first failure is determined by its defining property. */
  lemma {:induction false} FirstFailureAt(outcomes: seq<bool>, k: nat)
    requires k < |outcomes| && !outcomes[k]
    requires forall i :: 0 <= i < k ==> outcomes[i]
    ensures FirstFailure(outcomes) == Some(k)
  {
    var r := FirstFailure(outcomes);
    assert r.Some?;
    assert !(r.value < k);
    assert !(r.value > k);
  }

  /** Number of `Health` calls in a trace. */
  function Pings(events: seq<Beat>): nat {
    if events == [] then 0
    else Pings(events[..|events| - 1]) + (if events[|events| - 1] == Ping then 1 else 0)
  }

  /** `n` rounds of the loop whose pings all succeed: each a `Health` call followed by a wait. */
  function Rounds(n: nat): (r: seq<Beat>)
    ensures |r| == 2 * n
  {
    if n == 0 then [] else Rounds(n - 1) + [Ping, Tick]
  }

  /** In a run of rounds, with or without a final ping, pings sit at the even positions and waits at the odd ones. */
  lemma {:induction false} RoundsAlternate(n: nat, lastPing: bool)
    ensures var r := if lastPing then Rounds(n) + [Ping] else Rounds(n);
      forall k :: 0 <= k < |r| ==> r[k] == (if k % 2 == 0 then Ping else Tick)
  {
    var r := if lastPing then Rounds(n) + [Ping] else Rounds(n);
    if n > 0 {
      RoundsAlternate(n - 1, false);
      var p := Rounds(n - 1);
      assert Rounds(n) == p + [Ping, Tick];
      forall k | 0 <= k < |r|
        ensures r[k] == (if k % 2 == 0 then Ping else Tick)
      {
        if k < |p| {
          assert r[k] == p[k];
        }
      }
    }
  }

  /** `n` rounds make `n` `Health` calls, and a ping after them makes one more. */
  lemma {:induction false} PingsRounds(n: nat)
    ensures Pings(Rounds(n)) == n
    ensures Pings(Rounds(n) + [Ping]) == n + 1
  {
    var r := Rounds(n);
    assert (r + [Ping])[..|r + [Ping]| - 1] == r;
    if n > 0 {
      PingsRounds(n - 1);
      var p := Rounds(n - 1);
      assert r[..|r| - 1] == p + [Ping];
    }
  }

  /**
   * The loop over the pings' outcomes. `Health` is called before the first
   * wait; on the first failure the loop ends fatally right after that ping,
   * so the trace is that many successful rounds and the failed ping, and the
   * number of `Health` calls is the failure's index plus one. If every
   * outcome succeeds, the trace is one round per outcome.
   */
  method DoHealth(outcomes: seq<bool>) returns (events: seq<Beat>, fatal: bool)
    ensures fatal <==> FirstFailure(outcomes).Some?
    ensures events == if fatal then Rounds(FirstFailure(outcomes).value) + [Ping] else Rounds(|outcomes|)
    ensures forall k :: 0 <= k < |events| ==> events[k] == (if k % 2 == 0 then Ping else Tick)
    ensures Pings(events) == if fatal then FirstFailure(outcomes).value + 1 else |outcomes|
  {
    events, fatal := [], false;
    var i := 0;
    while i < |outcomes| && !fatal
      invariant i <= |outcomes|
      invariant forall j :: 0 <= j < i ==> outcomes[j]
      invariant fatal ==> i < |outcomes| && !outcomes[i]
      invariant fatal ==> events == Rounds(i) + [Ping]
      invariant !fatal ==> events == Rounds(i)
      decreases |outcomes| - i, if fatal then 0 else 1
    {
      events := events + [Ping];
      if !outcomes[i] {
        fatal := true;
      } else {
        events := events + [Tick];
        i := i + 1;
      }
    }
    if fatal {
      FirstFailureAt(outcomes, i);
    } else {
      assert FirstFailure(outcomes).None?;
    }
    RoundsAlternate(i, fatal);
    PingsRounds(i);
  }
}
