/**
 The per-key sliding-window rate limiter (src/acp/gateway/auth.py `_SlidingWindowLimiter`).

 The limiter keeps a deque and pops from its front. A caller reads the clock first and takes the lock afterwards, so
 calls can reach the deque with their times out of order. How far they are out of order, the skew, is what the bound
 loses: windows shorter by the skew still hold at most the limit, and without skew the limiter decides exactly as a
 reference that keeps every admission ever made and counts those newer than the cutoff.
 */
module Limiter {
  /** One call, with the time that it read before it waited for the lock; the calls come in the order of the lock. */
  datatype Call = Call(key: string, limit: int, now: real)

  predicate Counts(c: Call, key: string) {
    c.key == key && c.limit > 0
  }

  /** The key's counted calls are never behind an earlier one by more than the skew. */
  ghost predicate SkewedBy(calls: seq<Call>, key: string, skew: real) {
    forall i, j :: 0 <= i < j < |calls| && Counts(calls[i], key) && Counts(calls[j], key) ==>
                     calls[i].now <= calls[j].now + skew
  }

  ghost predicate AllBefore(calls: seq<Call>, key: string, t: real) {
    forall i :: 0 <= i < |calls| && Counts(calls[i], key) ==> calls[i].now <= t
  }

  ghost predicate InTimeOrder(calls: seq<Call>, key: string) {
    SkewedBy(calls, key, 0.0)
  }

  ghost predicate LimitedTo(calls: seq<Call>, key: string, limit: nat) {
    forall i :: 0 <= i < |calls| && Counts(calls[i], key) ==> calls[i].limit <= limit
  }

  // ---------------------------------------------------------------------------------------------
  // The limiter's own steps

  function Trimmed(deque: seq<real>, cutoff: real): seq<real> {
    if deque != [] && deque[0] <= cutoff then Trimmed(deque[1..], cutoff) else deque
  }

  function Deque(hits: map<string, seq<real>>, key: string): seq<real> {
    if key in hits then hits[key] else []
  }

  predicate Admits(window: real, hits: map<string, seq<real>>, c: Call) {
    c.limit <= 0 || |Trimmed(Deque(hits, c.key), c.now - window)| < c.limit
  }

  function AfterCall(window: real, hits: map<string, seq<real>>, c: Call): map<string, seq<real>> {
    if c.limit <= 0 then hits
    else
      var kept := Trimmed(Deque(hits, c.key), c.now - window);
      hits[c.key := if |kept| < c.limit then kept + [c.now] else kept]
  }

  function HitsAfter(window: real, calls: seq<Call>): map<string, seq<real>> {
    if calls == [] then map[] else AfterCall(window, HitsAfter(window, calls[..|calls| - 1]), calls[|calls| - 1])
  }

  /** The times of all calls of the key that the limiter admitted and recorded, in call order. */
  function Recorded(window: real, calls: seq<Call>, key: string): seq<real> {
    if calls == [] then []
    else
      var front, c := calls[..|calls| - 1], calls[|calls| - 1];
      Recorded(window, front, key)
      + (if Counts(c, key) && Admits(window, HitsAfter(window, front), c) then [c.now] else [])
  }

  class SlidingWindowLimiter {
    const window: real
    var hits: map<string, seq<real>>

    constructor (window: real)
      ensures this.window == window && hits == map[]
    {
      this.window, hits := window, map[];
    }

    /** A rejected call still drops what is too old, and records no hit. */
    method Check(key: string, limit: int, now: real) returns (admitted: bool)
      modifies this
      ensures admitted == Admits(window, old(hits), Call(key, limit, now))
      ensures hits == AfterCall(window, old(hits), Call(key, limit, now))
    {
      if limit <= 0 {
        return true;
      }
      var dq := if key in hits then hits[key] else [];
      var cutoff := now - window;
      while dq != [] && dq[0] <= cutoff
        invariant Trimmed(dq, cutoff) == Trimmed(Deque(hits, key), cutoff)
      {
        dq := dq[1..];
      }
      hits := hits[key := dq];
      if |dq| >= limit {
        return false;
      }
      hits := hits[key := dq + [now]];
      return true;
    }
  }

  // ---------------------------------------------------------------------------------------------
  // What holds for calls in any order

  lemma {:induction false} FirstNewer(deque: seq<real>, cutoff: real) returns (n: nat)
    ensures n <= |deque| && Trimmed(deque, cutoff) == deque[n..]
    ensures forall i :: 0 <= i < n ==> deque[i] <= cutoff
    ensures n < |deque| ==> deque[n] > cutoff
  {
    if deque != [] && deque[0] <= cutoff {
      var m := FirstNewer(deque[1..], cutoff);
      n := m + 1;
      assert deque[n..] == deque[1..][m..];
      assert forall i :: 0 < i < n ==> deque[i] == deque[1..][i - 1];
    } else {
      n := 0;
    }
  }

  /** The deque always holds the newest admissions: a suffix of all of them. What is gone from it was too old for
      some call of the key. */
  lemma {:induction false} DequeIsASuffix(window: real, calls: seq<Call>, key: string, t: real) returns (gone: nat)
    requires AllBefore(calls, key, t)
    ensures gone <= |Recorded(window, calls, key)|
    ensures Deque(HitsAfter(window, calls), key) == Recorded(window, calls, key)[gone..]
    ensures forall i :: 0 <= i < gone ==> Recorded(window, calls, key)[i] <= t - window
  {
    if calls == [] {
      gone := 0;
    } else {
      var front, c := calls[..|calls| - 1], calls[|calls| - 1];
      gone := DequeIsASuffix(window, front, key, t);
      if Counts(c, key) {
        assert c.now <= t;
        gone := TrimmedIsASuffix(window, front, c, gone, t);
      }
    }
  }

  /** At a counted call the deque, once trimmed, is a shorter suffix. */
  lemma TrimmedIsASuffix(window: real, front: seq<Call>, c: Call, before: nat, t: real) returns (gone: nat)
    requires c.now <= t && before <= |Recorded(window, front, c.key)|
    requires Deque(HitsAfter(window, front), c.key) == Recorded(window, front, c.key)[before..]
    requires forall i :: 0 <= i < before ==> Recorded(window, front, c.key)[i] <= t - window
    ensures before <= gone <= |Recorded(window, front, c.key)|
    ensures Trimmed(Deque(HitsAfter(window, front), c.key), c.now - window) == Recorded(window, front, c.key)[gone..]
    ensures forall i :: 0 <= i < gone ==> Recorded(window, front, c.key)[i] <= t - window
  {
    var all := Recorded(window, front, c.key);
    var n := FirstNewer(all[before..], c.now - window);
    gone := before + n;
    assert all[before..][n..] == all[gone..];
    forall i | before <= i < gone
      ensures all[i] <= t - window
    {
      assert all[i] == all[before..][i - before];
    }
  }

  /** Any two admissions with at least `limit` - 1 others between them are at least `gap` apart. */
  ghost predicate SpacedOut(hits: seq<real>, limit: nat, gap: real) {
    forall i, j :: 0 <= i && i + limit <= j < |hits| ==> hits[i] <= hits[j] - gap
  }

  /** However the calls of all keys interleave: any limit + 1 consecutive admissions of a key, or more, span at least
      the window less the skew. */
  lemma {:induction false} AdmissionsAreSpacedOut(window: real, calls: seq<Call>, key: string, limit: nat, skew: real)
    requires SkewedBy(calls, key, skew) && skew >= 0.0 && LimitedTo(calls, key, limit) && limit > 0
    ensures SpacedOut(Recorded(window, calls, key), limit, window - skew)
  {
    if calls != [] {
      var front, c := calls[..|calls| - 1], calls[|calls| - 1];
      AdmissionsAreSpacedOut(window, front, key, limit, skew);
      if Counts(c, key) && Admits(window, HitsAfter(window, front), c) {
        assert AllBefore(front, key, c.now + skew);
        NextIsSpacedOut(window, front, c, limit, skew);
      }
    }
  }

  lemma NextIsSpacedOut(window: real, front: seq<Call>, c: Call, limit: nat, skew: real)
    requires AllBefore(front, c.key, c.now + skew) && skew >= 0.0 && 0 < c.limit <= limit
    requires Admits(window, HitsAfter(window, front), c)
    requires SpacedOut(Recorded(window, front, c.key), limit, window - skew)
    ensures SpacedOut(Recorded(window, front, c.key) + [c.now], limit, window - skew)
  {
    var before := DequeIsASuffix(window, front, c.key, c.now + skew);
    var gone := TrimmedIsASuffix(window, front, c, before, c.now + skew);
    SpacedOutAppend(Recorded(window, front, c.key), c.now, limit, window - skew, gone);
  }

  lemma SpacedOutAppend(hits: seq<real>, hit: real, limit: nat, gap: real, gone: nat)
    requires SpacedOut(hits, limit, gap) && gone <= |hits| < gone + limit
    requires forall i :: 0 <= i < gone ==> hits[i] <= hit - gap
    ensures SpacedOut(hits + [hit], limit, gap)
  {
  }

  /** How many hits fall into the half-open window (after, after + window]. */
  function InWindow(hits: seq<real>, after: real, window: real): nat {
    if hits == [] then 0
    else InWindow(hits[..|hits| - 1], after, window) + (if after < hits[|hits| - 1] <= after + window then 1 else 0)
  }

  lemma {:induction false} OnlyLateOnesAreIn(hits: seq<real>, after: real, window: real, n: nat)
    requires n <= |hits| && forall i :: 0 <= i < |hits| - n ==> hits[i] <= after
    ensures InWindow(hits, after, window) <= n
  {
    if hits != [] {
      OnlyLateOnesAreIn(hits[..|hits| - 1], after, window, if n == 0 then 0 else n - 1);
    }
  }

  lemma {:induction false} FewInWindow(hits: seq<real>, after: real, window: real, limit: nat)
    requires SpacedOut(hits, limit, window)
    ensures InWindow(hits, after, window) <= limit
  {
    if hits != [] {
      var front, last := hits[..|hits| - 1], hits[|hits| - 1];
      if !(after < last <= after + window) {
        FewInWindow(front, after, window, limit);
      } else if |hits| <= limit {
        OnlyLateOnesAreIn(hits, after, window, |hits|);
      } else {
        OnlyLateOnesAreIn(hits, after, window, limit);
      }
    }
  }

  /** No half-open window as long as the configured one less the skew holds more recorded admissions of a key than
      its limit. Without skew that is every window of the configured length. */
  lemma WindowBound(window: real, calls: seq<Call>, key: string, limit: nat, skew: real, after: real)
    requires SkewedBy(calls, key, skew) && skew >= 0.0 && LimitedTo(calls, key, limit) && limit > 0
    ensures InWindow(Recorded(window, calls, key), after, window - skew) <= limit
  {
    AdmissionsAreSpacedOut(window, calls, key, limit, skew);
    FewInWindow(Recorded(window, calls, key), after, window - skew, limit);
  }

  // ---------------------------------------------------------------------------------------------
  // The reference

  function Newer(hits: seq<real>, cutoff: real): seq<real> {
    if hits == [] then []
    else Newer(hits[..|hits| - 1], cutoff) + (if hits[|hits| - 1] > cutoff then [hits[|hits| - 1]] else [])
  }

  /** Whether the reference lets a call through, given the key's admissions so far. */
  predicate Lets(window: real, past: seq<real>, c: Call) {
    c.limit <= 0 || |Newer(past, c.now - window)| < c.limit
  }

  /** The times of the key's admissions by the reference, in call order; a rejected or unlimited call adds nothing. */
  function Admitted(window: real, calls: seq<Call>, key: string): seq<real> {
    if calls == [] then []
    else
      var past, c := Admitted(window, calls[..|calls| - 1], key), calls[|calls| - 1];
      if Counts(c, key) && Lets(window, past, c) then past + [c.now] else past
  }

  /** The admissions that were newer than the cutoff at the key's last counted call. */
  function Remembered(window: real, calls: seq<Call>, key: string): seq<real> {
    if calls == [] then []
    else
      var c := calls[|calls| - 1];
      if Counts(c, key) then Newer(Admitted(window, calls, key), c.now - window)
      else Remembered(window, calls[..|calls| - 1], key)
  }

  // ---------------------------------------------------------------------------------------------
  // Filtering an ascending list

  ghost predicate Ascending(hits: seq<real>) {
    forall i, j :: 0 <= i < j < |hits| ==> hits[i] <= hits[j]
  }

  lemma {:induction false} NewerOfAscending(hits: seq<real>, cutoff: real, n: nat)
    requires Ascending(hits) && n <= |hits|
    requires forall i :: 0 <= i < n ==> hits[i] <= cutoff
    requires n < |hits| ==> hits[n] > cutoff
    ensures Newer(hits, cutoff) == hits[n..]
  {
    if n == |hits| {
      NewerOfOld(hits, cutoff);
    } else if n < |hits| {
      var front := hits[..|hits| - 1];
      if n < |front| {
        NewerOfAscending(front, cutoff, n);
      } else {
        NewerOfOld(front, cutoff);
      }
      assert hits[n..] == front[n..] + [hits[|hits| - 1]];
    }
  }

  lemma {:induction false} NewerOfOld(hits: seq<real>, cutoff: real)
    requires forall i :: 0 <= i < |hits| ==> hits[i] <= cutoff
    ensures Newer(hits, cutoff) == []
  {
    if hits != [] {
      NewerOfOld(hits[..|hits| - 1], cutoff);
    }
  }

  lemma NewerAppend(hits: seq<real>, hit: real, cutoff: real)
    ensures Newer(hits + [hit], cutoff) == Newer(hits, cutoff) + (if hit > cutoff then [hit] else [])
  {
    assert (hits + [hit])[..|hits|] == hits;
  }

  lemma {:induction false} NewerOfNewer(hits: seq<real>, early: real, late: real)
    requires early <= late
    ensures Newer(Newer(hits, early), late) == Newer(hits, late)
  {
    if hits != [] {
      var front, last := hits[..|hits| - 1], hits[|hits| - 1];
      NewerOfNewer(front, early, late);
      NewerAppend(Newer(front, early), last, late);
      assert Newer(front, early) + [] == Newer(front, early);
    }
  }

  predicate UpTo(hits: seq<real>, t: real) {
    forall i :: 0 <= i < |hits| ==> hits[i] <= t
  }

  lemma {:induction false} NewerIsAscending(hits: seq<real>, cutoff: real, t: real)
    requires Ascending(hits) && UpTo(hits, t)
    ensures Ascending(Newer(hits, cutoff)) && UpTo(Newer(hits, cutoff), t)
  {
    if hits != [] {
      var front, last := hits[..|hits| - 1], hits[|hits| - 1];
      NewerIsAscending(front, cutoff, last);
    }
  }

  // ---------------------------------------------------------------------------------------------
  // Admissions over a history

  lemma {:induction false} AdmittedUpTo(window: real, calls: seq<Call>, key: string, t: real)
    requires AllBefore(calls, key, t)
    ensures UpTo(Admitted(window, calls, key), t)
  {
    if calls != [] {
      AdmittedUpTo(window, calls[..|calls| - 1], key, t);
    }
  }

  lemma {:induction false} AdmittedInOrder(window: real, calls: seq<Call>, key: string)
    requires InTimeOrder(calls, key)
    ensures Ascending(Admitted(window, calls, key))
  {
    if calls != [] {
      var front, c := calls[..|calls| - 1], calls[|calls| - 1];
      AdmittedInOrder(window, front, key);
      if Counts(c, key) {
        AdmittedUpTo(window, front, key, c.now);
      }
    }
  }

  /** What the deque remembers is all that the next cutoff needs. */
  lemma {:induction false} RememberedSuffices(window: real, calls: seq<Call>, key: string, now: real)
    requires AllBefore(calls, key, now)
    ensures Newer(Remembered(window, calls, key), now - window) == Newer(Admitted(window, calls, key), now - window)
  {
    if calls != [] {
      var front, c := calls[..|calls| - 1], calls[|calls| - 1];
      if Counts(c, key) {
        assert c.now <= now;
        CountedSuffices(window, calls, key, now);
      } else {
        assert AllBefore(front, key, now);
        RememberedSuffices(window, front, key, now);
        SkipsCall(window, calls, key);
      }
    }
  }

  lemma CountedSuffices(window: real, calls: seq<Call>, key: string, now: real)
    requires calls != [] && Counts(calls[|calls| - 1], key) && calls[|calls| - 1].now <= now
    ensures Newer(Remembered(window, calls, key), now - window) == Newer(Admitted(window, calls, key), now - window)
  {
    hide Admitted, Remembered, Newer;
    RememberedAfter(window, calls, key);
    NewerOfNewer(Admitted(window, calls, key), calls[|calls| - 1].now - window, now - window);
  }

  lemma SkipsCall(window: real, calls: seq<Call>, key: string)
    requires calls != [] && !Counts(calls[|calls| - 1], key)
    ensures Admitted(window, calls, key) == Admitted(window, calls[..|calls| - 1], key)
    ensures Remembered(window, calls, key) == Remembered(window, calls[..|calls| - 1], key)
  {
  }

  lemma {:induction false} RememberedInOrder(window: real, calls: seq<Call>, key: string, now: real)
    requires InTimeOrder(calls, key) && AllBefore(calls, key, now)
    ensures Ascending(Remembered(window, calls, key)) && UpTo(Remembered(window, calls, key), now)
  {
    if calls != [] {
      var c := calls[|calls| - 1];
      if Counts(c, key) {
        AdmittedInOrder(window, calls, key);
        AdmittedUpTo(window, calls, key, now);
        NewerIsAscending(Admitted(window, calls, key), c.now - window, now);
      } else {
        RememberedInOrder(window, calls[..|calls| - 1], key, now);
      }
    }
  }

  // ---------------------------------------------------------------------------------------------
  // Refinement

  lemma {:induction false} TrimmedIsNewer(deque: seq<real>, cutoff: real)
    requires Ascending(deque)
    ensures Trimmed(deque, cutoff) == Newer(deque, cutoff)
  {
    var n := FirstNewer(deque, cutoff);
    NewerOfAscending(deque, cutoff, n);
  }

  /** One counted call: the remembered hits become the next remembered hits. */
  lemma CountedCallRefines(window: real, past: seq<Call>, c: Call, deque: seq<real>)
    requires window > 0.0 && c.limit > 0 && InTimeOrder(past, c.key) && AllBefore(past, c.key, c.now)
    requires deque == Remembered(window, past, c.key)
    ensures Trimmed(deque, c.now - window) == Newer(Admitted(window, past, c.key), c.now - window)
  {
    RememberedInOrder(window, past, c.key, c.now);
    RememberedSuffices(window, past, c.key, c.now);
    TrimmedIsNewer(deque, c.now - window);
  }

  // What the last call of a history makes of the key's admissions and of its deque, when it counts.

  function WithHit(hits: seq<real>, kept: seq<real>, c: Call): seq<real> {
    if |kept| < c.limit then hits + [c.now] else hits
  }

  lemma AdmittedAfter(window: real, calls: seq<Call>, key: string)
    requires calls != [] && Counts(calls[|calls| - 1], key)
    ensures var c, hits := calls[|calls| - 1], Admitted(window, calls[..|calls| - 1], key);
            Admitted(window, calls, key) == WithHit(hits, Newer(hits, c.now - window), c)
  {
  }

  lemma RememberedAfter(window: real, calls: seq<Call>, key: string)
    requires calls != [] && Counts(calls[|calls| - 1], key)
    ensures Remembered(window, calls, key) == Newer(Admitted(window, calls, key), calls[|calls| - 1].now - window)
  {
  }

  lemma HeldAfter(window: real, calls: seq<Call>, key: string)
    requires calls != [] && Counts(calls[|calls| - 1], key)
    ensures var c := calls[|calls| - 1];
            var kept := Trimmed(Deque(HitsAfter(window, calls[..|calls| - 1]), key), c.now - window);
            Deque(HitsAfter(window, calls), key) == WithHit(kept, kept, c)
  {
  }

  lemma NewerWithHit(hits: seq<real>, cutoff: real, c: Call)
    requires c.now > cutoff
    ensures Newer(WithHit(hits, Newer(hits, cutoff), c), cutoff) == WithHit(Newer(hits, cutoff), Newer(hits, cutoff), c)
  {
    NewerAppend(hits, c.now, cutoff);
  }

  lemma RemembersOneMore(window: real, calls: seq<Call>, key: string, hits: seq<real>, kept: seq<real>)
    requires window > 0.0 && calls != [] && Counts(calls[|calls| - 1], key)
    requires hits == Admitted(window, calls[..|calls| - 1], key)
    requires var cutoff := calls[|calls| - 1].now - window;
             kept == Trimmed(Deque(HitsAfter(window, calls[..|calls| - 1]), key), cutoff) == Newer(hits, cutoff)
    ensures Deque(HitsAfter(window, calls), key) == Remembered(window, calls, key)
  {
    HeldAfter(window, calls, key);
    AdmittedAfter(window, calls, key);
    RememberedAfter(window, calls, key);
    NewerWithHit(hits, calls[|calls| - 1].now - window, calls[|calls| - 1]);
  }

  /** The deque after any calls in time order holds exactly the admissions newer than the last cutoff, in order. */
  lemma {:induction false} DequeIsRemembered(window: real, calls: seq<Call>, key: string)
    requires window > 0.0 && InTimeOrder(calls, key)
    ensures Deque(HitsAfter(window, calls), key) == Remembered(window, calls, key)
  {
    if calls != [] {
      var past, c := calls[..|calls| - 1], calls[|calls| - 1];
      assert past + [c] == calls;
      DequeIsRemembered(window, past, key);
      if Counts(c, key) {
        LastIsLatest(past, c);
        CountedCallRefines(window, past, c, Deque(HitsAfter(window, past), key));
        RemembersOneMore(window, calls, key, Admitted(window, past, key),
                         Trimmed(Deque(HitsAfter(window, past), key), c.now - window));
      }
    }
  }

  lemma LastIsLatest(past: seq<Call>, c: Call)
    requires InTimeOrder(past + [c], c.key) && c.limit > 0
    ensures InTimeOrder(past, c.key) && AllBefore(past, c.key, c.now)
  {
    var all := past + [c];
    assert forall i :: 0 <= i < |past| ==> all[i] == past[i];
    assert all[|past|] == c;
  }

  /** The limiter decides every call of a history in time order as the reference does. */
  lemma DecidesAsTheReference(window: real, past: seq<Call>, c: Call)
    requires window > 0.0 && InTimeOrder(past + [c], c.key)
    ensures Admits(window, HitsAfter(window, past), c) == Lets(window, Admitted(window, past, c.key), c)
  {
    if c.limit > 0 {
      LastIsLatest(past, c);
      DecidesLatest(window, past, c);
    }
  }

  lemma DecidesLatest(window: real, past: seq<Call>, c: Call)
    requires window > 0.0 && c.limit > 0 && InTimeOrder(past, c.key) && AllBefore(past, c.key, c.now)
    ensures Admits(window, HitsAfter(window, past), c) == Lets(window, Admitted(window, past, c.key), c)
  {
    DequeIsRemembered(window, past, c.key);
    CountedCallRefines(window, past, c, Deque(HitsAfter(window, past), c.key));
  }

  /** And so, in time order, it records the admissions of the reference. */
  lemma {:induction false} RecordsAsTheReference(window: real, calls: seq<Call>, key: string)
    requires window > 0.0 && InTimeOrder(calls, key)
    ensures Recorded(window, calls, key) == Admitted(window, calls, key)
  {
    if calls != [] {
      var front, c := calls[..|calls| - 1], calls[|calls| - 1];
      RecordsAsTheReference(window, front, key);
      if Counts(c, key) {
        assert front + [c] == calls;
        DecidesAsTheReference(window, front, c);
      }
    }
  }

  // ---------------------------------------------------------------------------------------------
  // A limit of one needs no order

  /** With a limit of one the deque holds exactly the newest admission, and each admission has seen the one before
      it expire, whatever the order of the calls. */
  lemma {:induction false} OneIsHeld(window: real, calls: seq<Call>, key: string)
    requires window > 0.0 && LimitedTo(calls, key, 1)
    ensures HoldsOne(Deque(HitsAfter(window, calls), key), Recorded(window, calls, key), window)
  {
    if calls != [] {
      var front, c := calls[..|calls| - 1], calls[|calls| - 1];
      assert front + [c] == calls;
      OneIsHeld(window, front, key);
      if Counts(c, key) {
        assert c.limit <= 1;
        OneStaysHeld(window, front, c);
      } else {
        OtherCall(window, front, c, key);
      }
    }
  }

  ghost predicate HoldsOne(deque: seq<real>, all: seq<real>, window: real) {
    deque == (if all == [] then [] else [all[|all| - 1]]) && SpacedOut(all, 1, window)
  }

  lemma OneStaysHeld(window: real, front: seq<Call>, c: Call)
    requires window > 0.0 && c.limit == 1
    requires HoldsOne(Deque(HitsAfter(window, front), c.key), Recorded(window, front, c.key), window)
    ensures HoldsOne(Deque(HitsAfter(window, front + [c]), c.key), Recorded(window, front + [c], c.key), window)
  {
    hide HitsAfter, Recorded, Trimmed;
    OneMoreCall(window, front, c, Deque(HitsAfter(window, front), c.key), Recorded(window, front, c.key));
    OneMoreIsHeld(Recorded(window, front, c.key), c.now, window);
  }

  lemma OtherCall(window: real, past: seq<Call>, c: Call, key: string)
    requires !Counts(c, key)
    ensures Deque(HitsAfter(window, past + [c]), key) == Deque(HitsAfter(window, past), key)
    ensures Recorded(window, past + [c], key) == Recorded(window, past, key)
  {
    assert (past + [c])[..|past|] == past;
  }

  lemma OneMoreIsHeld(all: seq<real>, now: real, window: real)
    requires window > 0.0 && SpacedOut(all, 1, window)
    ensures var deque := if all == [] then [] else [all[|all| - 1]];
            var kept := Trimmed(deque, now - window);
            && (|kept| < 1 ==> kept == [] && SpacedOut(all + [now], 1, window))
            && (|kept| >= 1 ==> kept == deque)
  {
    if all != [] && all[|all| - 1] <= now - window {
      forall i, j | 0 <= i && i + 1 <= j < |all| + 1
        ensures (all + [now])[i] <= (all + [now])[j] - window
      {
        if j == |all| && i < |all| - 1 {
          assert all[i] <= all[|all| - 1] - window;
        }
      }
    }
  }

  lemma OneMoreCall(window: real, past: seq<Call>, c: Call, deque: seq<real>, recorded: seq<real>)
    requires Deque(HitsAfter(window, past), c.key) == deque && Recorded(window, past, c.key) == recorded && c.limit > 0
    ensures var kept := Trimmed(deque, c.now - window);
            var hit := if |kept| < c.limit then [c.now] else [];
            && Deque(HitsAfter(window, past + [c]), c.key) == kept + hit
            && Recorded(window, past + [c], c.key) == recorded + hit
            && (Admits(window, HitsAfter(window, past), c) <==> hit != [])
  {
    assert (past + [c])[..|past|] == past;
  }

  // ---------------------------------------------------------------------------------------------
  // For every other limit the skew is lost

  const KEY := "k"

  function Zeros(n: nat): seq<real> {
    seq(n, i => 0.0)
  }

  function EarlyCalls(limit: nat, n: nat): seq<Call> {
    seq(n, i => Call(KEY, limit, 0.0))
  }

  /** As many calls at 0 as the limit allows, one a window later, and one that read an earlier time but took the lock
      behind it. */
  function InTimeCalls(window: real, limit: nat): seq<Call> {
    EarlyCalls(limit, limit) + [Call(KEY, limit, window)]
  }

  function LateCalls(window: real, limit: nat, skew: real): seq<Call> {
    InTimeCalls(window, limit) + [Call(KEY, limit, window - skew)]
  }

  lemma {:induction false} ZerosExpire(n: nat, cutoff: real)
    requires cutoff >= 0.0
    ensures Trimmed(Zeros(n), cutoff) == []
  {
    if n > 0 {
      ZerosExpire(n - 1, cutoff);
      assert Zeros(n)[1..] == Zeros(n - 1);
    }
  }

  lemma {:induction false} EarlyHits(window: real, limit: nat, n: nat)
    requires window > 0.0 && n <= limit
    ensures Deque(HitsAfter(window, EarlyCalls(limit, n)), KEY) == Zeros(n)
    ensures Recorded(window, EarlyCalls(limit, n), KEY) == Zeros(n)
  {
    if n > 0 {
      var c := Call(KEY, limit, 0.0);
      EarlyHits(window, limit, n - 1);
      OneMoreCall(window, EarlyCalls(limit, n - 1), c, Zeros(n - 1), Zeros(n - 1));
      assert EarlyCalls(limit, n - 1) + [c] == EarlyCalls(limit, n) && Zeros(n - 1) + [0.0] == Zeros(n);
    }
  }

  lemma InTimeHits(window: real, limit: nat)
    requires window > 0.0 && limit > 0
    ensures Deque(HitsAfter(window, InTimeCalls(window, limit)), KEY) == [window]
    ensures Recorded(window, InTimeCalls(window, limit), KEY) == Zeros(limit) + [window]
  {
    EarlyHits(window, limit, limit);
    ZerosExpire(limit, window - window);
    OneMoreCall(window, EarlyCalls(limit, limit), Call(KEY, limit, window), Zeros(limit), Zeros(limit));
  }

  lemma LateHits(window: real, limit: nat, skew: real)
    requires window > 0.0 && limit > 1 && 0.0 <= skew < window
    ensures Recorded(window, LateCalls(window, limit, skew), KEY) == Zeros(limit) + [window] + [window - skew]
    ensures Admits(window, HitsAfter(window, InTimeCalls(window, limit)), Call(KEY, limit, window - skew))
  {
    InTimeHits(window, limit);
    OneMoreCall(window, InTimeCalls(window, limit), Call(KEY, limit, window - skew), [window], Zeros(limit) + [window]);
  }

  lemma LateSkew(window: real, limit: nat, skew: real)
    requires window > 0.0 && 0.0 <= skew < window
    ensures SkewedBy(LateCalls(window, limit, skew), KEY, skew) && LimitedTo(LateCalls(window, limit, skew), KEY, limit)
    ensures InTimeOrder(InTimeCalls(window, limit), KEY) && LimitedTo(InTimeCalls(window, limit), KEY, limit)
  {
    var calls := LateCalls(window, limit, skew);
    assert forall i :: 0 <= i < |calls| ==>
                         calls[i].limit == limit
                         && calls[i].now == if i < limit then 0.0 else if i == limit then window else window - skew;
    assert forall i :: 0 <= i <= limit ==> InTimeCalls(window, limit)[i] == calls[i];
  }

  lemma {:induction false} AllAreNewer(hits: seq<real>, cutoff: real)
    requires forall i :: 0 <= i < |hits| ==> hits[i] > cutoff
    ensures Newer(hits, cutoff) == hits
  {
    if hits != [] {
      AllAreNewer(hits[..|hits| - 1], cutoff);
    }
  }

  /** With any skew the reference refuses the late call. */
  lemma LateReference(window: real, limit: nat, skew: real)
    requires window > 0.0 && limit > 0 && 0.0 < skew < window
    ensures !Lets(window, Admitted(window, InTimeCalls(window, limit), KEY), Call(KEY, limit, window - skew))
  {
    hide HitsAfter, Recorded, Admitted, Newer;
    LateSkew(window, limit, skew);
    InTimeHits(window, limit);
    RecordsAsTheReference(window, InTimeCalls(window, limit), KEY);
    AllAreNewer(Zeros(limit) + [window], window - skew - window);
  }

  lemma InWindowAppend(hits: seq<real>, hit: real, after: real, window: real)
    ensures InWindow(hits + [hit], after, window)
         == InWindow(hits, after, window) + (if after < hit <= after + window then 1 else 0)
  {
    assert (hits + [hit])[..|hits|] == hits;
  }

  lemma {:induction false} ZerosInWindow(n: nat, after: real, window: real)
    requires after < 0.0 <= after + window
    ensures InWindow(Zeros(n), after, window) == n
  {
    if n > 0 {
      ZerosInWindow(n - 1, after, window);
      InWindowAppend(Zeros(n - 1), 0.0, after, window);
      assert Zeros(n - 1) + [0.0] == Zeros(n);
    }
  }

  /** For every limit above one and every skew below the window: all these calls are admitted, the late one against
      the reference, and every window longer than the bound's holds one admission too many. */
  lemma LateCallsOverfill(window: real, limit: nat, skew: real, extra: real)
    requires window > 0.0 && limit > 1 && 0.0 <= skew < window && extra > 0.0
    ensures Overfilled(window, limit, skew, LateCalls(window, limit, skew), -extra / 2.0, extra)
    ensures var past, late := InTimeCalls(window, limit), Call(KEY, limit, window - skew);
            && LateCalls(window, limit, skew) == past + [late] && Admits(window, HitsAfter(window, past), late)
            && (skew > 0.0 ==> !Lets(window, Admitted(window, past, KEY), late))
  {
    hide HitsAfter, Recorded, Admitted, Admits, Lets, InWindow, SkewedBy, LimitedTo;
    var after, length := -extra / 2.0, window - skew + extra;
    LateSkew(window, limit, skew);
    LateHits(window, limit, skew);
    if skew > 0.0 {
      LateReference(window, limit, skew);
    }
    ZerosInWindow(limit, after, length);
    InWindowAppend(Zeros(limit), window, after, length);
    InWindowAppend(Zeros(limit) + [window], window - skew, after, length);
  }

  /** Some window longer by `extra` than the one that WindowBound speaks of holds more than the limit. */
  ghost predicate Overfilled(window: real, limit: nat, skew: real, calls: seq<Call>, after: real, extra: real) {
    && SkewedBy(calls, KEY, skew) && LimitedTo(calls, KEY, limit)
    && InWindow(Recorded(window, calls, KEY), after, window - skew + extra) > limit
  }

  ghost predicate CanOverfill(window: real, limit: nat, skew: real, extra: real) {
    exists calls, after :: Overfilled(window, limit, skew, calls, after, extra)
  }

  lemma InTimeCallsOverfill(window: real, limit: nat, extra: real)
    requires window > 0.0 && limit > 0 && extra > 0.0
    ensures Overfilled(window, limit, 0.0, InTimeCalls(window, limit), -extra / 2.0, extra)
  {
    LateSkew(window, limit, 0.0);
    InTimeHits(window, limit);
    ZerosInWindow(limit, -extra / 2.0, window + extra);
    InWindowAppend(Zeros(limit), window, -extra / 2.0, window + extra);
  }

  /** A limit of one keeps to windows of the full length, in any order. */
  lemma OneNeedsNoOrder(window: real, calls: seq<Call>, key: string, after: real)
    requires window > 0.0 && LimitedTo(calls, key, 1)
    ensures InWindow(Recorded(window, calls, key), after, window) <= 1
  {
    OneIsHeld(window, calls, key);
    FewInWindow(Recorded(window, calls, key), after, window, 1);
  }

  /** The bound of WindowBound is the best possible, except for a limit of one under a skew. */
  lemma BoundIsTightIff(window: real, limit: nat, skew: real)
    requires window > 0.0 && limit > 0 && 0.0 <= skew < window
    ensures (forall extra :: extra > 0.0 ==> CanOverfill(window, limit, skew, extra)) <==> (limit > 1 || skew == 0.0)
  {
    if limit > 1 || skew == 0.0 {
      forall extra | extra > 0.0
        ensures CanOverfill(window, limit, skew, extra)
      {
        if limit > 1 {
          LateCallsOverfill(window, limit, skew, extra);
        } else {
          InTimeCallsOverfill(window, limit, extra);
        }
      }
    } else if CanOverfill(window, limit, skew, skew) {
      var calls, after :| Overfilled(window, limit, skew, calls, after, skew);
      OneNeedsNoOrder(window, calls, KEY, after);
    }
  }
}
