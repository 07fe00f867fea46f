/** The desktop launch limiter: a burst of three, then one launch every half second. */
module LaunchLimiter {

  const BURST: real := 3.0
  const REFILL: real := 0.5

  function Min(a: real, b: real): (r: real) { if a < b then a else b }

  /** Tokens after refilling from `updated` to `now`; a clock that steps back refills nothing. */
  function Refilled(tokens: real, updated: real, now: real): (r: real) {
    Min(tokens + (if now > updated then now - updated else 0.0) / REFILL, BURST)
  }

  class TokenBucket {
    var tokens: real
    var updated: real

    ghost predicate Valid()
      reads this
    {
      0.0 <= tokens <= BURST
    }

    constructor (now: real)
      ensures Valid() && tokens == BURST && updated == now
    {
      tokens, updated := BURST, now;
    }

    method TakeToken(now: real) returns (granted: bool)
      requires Valid()
      modifies this
      ensures Valid() && updated == now
      ensures granted <==> Refilled(old(tokens), old(updated), now) >= 1.0
      ensures tokens == Refilled(old(tokens), old(updated), now) - (if granted then 1.0 else 0.0)
    {
      var elapsed := if now > updated then now - updated else 0.0;
      tokens := Min(tokens + elapsed / REFILL, BURST);
      updated := now;
      if tokens < 1.0 {
        return false;
      }
      tokens := tokens - 1.0;
      return true;
    }
  }

  /** The bucket after a request, and whether it was granted. */
  function Request(tokens: real, updated: real, now: real): (r: (real, bool)) {
    var t := Refilled(tokens, updated, now);
    if t >= 1.0 then (t - 1.0, true) else (t, false)
  }

  predicate Nondecreasing(times: seq<real>) {
    forall i, j :: 0 <= i <= j < |times| ==> times[i] <= times[j]
  }

  /** Tokens left and launches granted after serving `times` in order. */
  function Serve(tokens: real, updated: real, times: seq<real>): (r: (real, nat))
  {
    if times == [] then (tokens, 0)
    else
      var n := |times| - 1;
      var before := Serve(tokens, updated, times[..n]);
      var last := if n == 0 then updated else times[n - 1];
      var step := Request(before.0, last, times[n]);
      (step.0, before.1 + (if step.1 then 1 else 0))
  }

  /** Each grant spends a token; each half second earns at most one. */
  lemma {:induction false} ServeBalance(tokens: real, updated: real, times: seq<real>)
    requires 0.0 <= tokens <= BURST && Nondecreasing(times) && times != []
    ensures 0.0 <= Serve(tokens, updated, times).0 <= BURST
    ensures Serve(tokens, updated, times).0 + Serve(tokens, updated, times).1 as real
         <= BURST + (times[|times| - 1] - times[0]) / REFILL
  {
    var n := |times| - 1;
    if n > 0 {
      assert times[..n][0] == times[0] && times[..n][n - 1] == times[n - 1];
      ServeBalance(tokens, updated, times[..n]);
      assert times[n - 1] <= times[n];
    }
  }

  /** A request half a second or more after the previous one is always granted. */
  lemma SpacedRequestGranted(tokens: real, updated: real, now: real)
    requires 0.0 <= tokens <= 3.0 && now - updated >= 0.5
    ensures Request(tokens, updated, now).1
  {
  }

  /** A full bucket grants three requests at once and then none until half a second has passed. */
  lemma BurstOfThree(now: real, next: real)
    requires now <= next
    ensures Serve(3.0, now, [now, now, now]) == (0.0, 3)
    ensures Request(0.0, now, next).1 <==> next - now >= 0.5
  {
    assert [now][..0] == [];
    assert Serve(3.0, now, [now]) == (2.0, 1);
    assert [now, now][..1] == [now];
    assert Serve(3.0, now, [now, now]) == (1.0, 2);
    assert [now, now, now][..2] == [now, now];
  }

  /** Nothing runs dry or overflows: serving in two stretches is serving in one. */
  lemma {:induction false} ServeSplits(tokens: real, updated: real, a: seq<real>, b: seq<real>)
    requires a != []
    ensures var mid := Serve(tokens, updated, a);
            var rest := Serve(mid.0, a[|a| - 1], b);
            Serve(tokens, updated, a + b) == (rest.0, mid.1 + rest.1)
  {
    if b == [] {
      assert a + b == a;
    } else {
      var m := |b| - 1;
      assert (a + b)[..|a| + m] == a + b[..m];
      ServeSplits(tokens, updated, a, b[..m]);
    }
  }

  lemma NondecreasingSlices(times: seq<real>, i: nat, j: nat)
    requires Nondecreasing(times) && i < j <= |times|
    ensures Nondecreasing(times[..i]) && Nondecreasing(times[i..j])
    ensures times[i..j][0] == times[i] && times[i..j][j - i - 1] == times[j - 1]
  {
  }

  /** Serve any run of requests; every window inside it obeys the bound. */
  lemma EveryWindowBounded(tokens: real, updated: real, times: seq<real>, i: nat, j: nat)
    requires 0.0 <= tokens <= BURST && Nondecreasing(times) && i < j <= |times|
    ensures (Serve(tokens, updated, times[..j]).1 - Serve(tokens, updated, times[..i]).1) as real
         <= 3.0 + (times[j - 1] - times[i]) / 0.5
  {
    var window := times[i..j];
    assert times[..j] == times[..i] + window;
    NondecreasingSlices(times, i, j);
    if i == 0 {
      assert times[..j] == window;
      ServeBalance(tokens, updated, window);
    } else {
      var before := times[..i];
      ServeSplits(tokens, updated, before, window);
      ServeBalance(tokens, updated, before);
      ServeBalance(Serve(tokens, updated, before).0, before[i - 1], window);
    }
  }
}
