/** The sliding-window attempt limiter (internal/adminauth/handler.go, limiter). */
module Limiter {
  import opened Base

  /** The times newer than the cutoff, in order. */
  function Newer(times: seq<Time>, cutoff: Time): (r: seq<Time>)
    ensures |r| <= |times|
  {
    if times == [] then []
    else Newer(times[..|times| - 1], cutoff) + if times[|times| - 1] > cutoff then [times[|times| - 1]] else []
  }

  /** The filter inside Allow: kept times are moved to the front of the same backing array. */
  method FilterInPlace(times: array<Time>, len: nat, cutoff: Time) returns (kept: nat)
    requires len <= times.Length
    modifies times
    ensures kept <= len && times[..kept] == Newer(old(times[..len]), cutoff)
  {
    kept := 0;
    for i := 0 to len
      invariant kept <= i && times[..kept] == Newer(old(times[..i]), cutoff)
      invariant forall j :: i <= j < len ==> times[j] == old(times[j])
    {
      assert old(times[..i + 1])[..i] == old(times[..i]);
      if times[i] > cutoff {
        times[kept] := times[i];
        kept := kept + 1;
      }
    }
  }

  /** What one call does to a key's times. */
  function Attempt(times: seq<Time>, max: nat, window: nat, now: Time): (seq<Time>, bool) {
    var recent := Newer(times, now - window);
    if |recent| >= max then (recent, false) else (recent + [now], true)
  }

  /** A slice header: the first `len` elements of a backing array. */
  datatype Slice = Slice(backing: array<Time>, len: nat)

  class Limiter {
    const max: nat
    const window: nat
    var attempts: map<string, Slice>

    constructor (max: nat, window: nat)
      ensures this.max == max && this.window == window && attempts == map[]
    {
      this.max, this.window := max, window;
      attempts := map[];
    }

    /** Every key has its own backing array. */
    ghost predicate Valid()
      reads this
    {
      && (forall k :: k in attempts ==> attempts[k].len <= attempts[k].backing.Length)
      && (forall j, k :: j in attempts && k in attempts && j != k ==> attempts[j].backing != attempts[k].backing)
    }

    ghost function Backings(): set<array<Time>>
      reads this
    {
      set k | k in attempts :: attempts[k].backing
    }

    ghost function Times(key: string): seq<Time>
      requires Valid()
      reads this, Backings()
    {
      if key in attempts then attempts[key].backing[..attempts[key].len] else []
    }

    /** append: in place while the backing array has room, else into a longer copy. */
    method Append(s: Slice, at: Time) returns (r: Slice)
      requires s.len <= s.backing.Length
      modifies s.backing
      ensures r.len == s.len + 1 <= r.backing.Length
      ensures r.backing == s.backing || fresh(r.backing)
      ensures r.backing[..r.len] == old(s.backing[..s.len]) + [at]
    {
      if s.len < s.backing.Length {
        s.backing[s.len] := at;
        r := Slice(s.backing, s.len + 1);
      } else {
        var longer := new Time[2 * s.len + 1](_ => at);
        for i := 0 to s.len
          invariant s.backing[..] == old(s.backing[..])
          invariant longer[..i] == s.backing[..i] && longer.Length == 2 * s.len + 1 && longer[s.len] == at
          modifies longer
        {
          longer[i] := s.backing[i];
        }
        r := Slice(longer, s.len + 1);
      }
    }

    method Allow(key: string, now: Time) returns (ok: bool)
      requires Valid()
      modifies this, Backings()
      ensures Valid()
      ensures ok == Attempt(old(Times(key)), max, window, now).1
      ensures Times(key) == Attempt(old(Times(key)), max, window, now).0
      ensures forall other :: other != key ==> Times(other) == old(Times(other))
      ensures forall b :: b in Backings() ==> b in old(Backings()) || fresh(b)
    {
      var items: Slice;
      if key in attempts {
        items := attempts[key];
      } else {
        var empty := new Time[0];
        items := Slice(empty, 0);
      }
      var kept := FilterInPlace(items.backing, items.len, now - window);
      items := Slice(items.backing, kept);
      if kept >= max {
        attempts := attempts[key := items];
        return false;
      }
      items := Append(items, now);
      attempts := attempts[key := items];
      return true;
    }

    method Clear(key: string)
      requires Valid()
      modifies this
      ensures Valid()
      ensures Times(key) == [] && forall other :: other != key ==> Times(other) == old(Times(other))
    {
      attempts := attempts - {key};
    }
  }

  // ----- whole runs of one key -----

  function State(calls: seq<Time>, max: nat, window: nat): seq<Time> {
    if calls == [] then []
    else Attempt(State(calls[..|calls| - 1], max, window), max, window, calls[|calls| - 1]).0
  }

  predicate AcceptedAt(calls: seq<Time>, i: nat, max: nat, window: nat)
    requires i < |calls|
  {
    Attempt(State(calls[..i], max, window), max, window, calls[i]).1
  }

  /** The times of the accepted calls, in order. */
  function Accepted(calls: seq<Time>, max: nat, window: nat): seq<Time> {
    if calls == [] then []
    else
      var before := calls[..|calls| - 1];
      Accepted(before, max, window) + if AcceptedAt(calls, |calls| - 1, max, window) then [calls[|calls| - 1]] else []
  }

  predicate NonDecreasing(s: seq<Time>) {
    forall i, j :: 0 <= i < j < |s| ==> s[i] <= s[j]
  }

  lemma {:induction false} NewerJoin(a: seq<Time>, b: seq<Time>, cutoff: Time)
    ensures Newer(a + b, cutoff) == Newer(a, cutoff) + Newer(b, cutoff)
  {
    if b == [] {
      assert a + b == a;
    } else {
      NewerJoin(a, b[..|b| - 1], cutoff);
      assert (a + b)[..|a + b| - 1] == a + b[..|b| - 1];
    }
  }

  lemma {:induction false} NewerTwice(s: seq<Time>, early: Time, late: Time)
    requires early <= late
    ensures Newer(Newer(s, early), late) == Newer(s, late)
  {
    if s != [] {
      var last := s[|s| - 1];
      NewerTwice(s[..|s| - 1], early, late);
      NewerJoin(Newer(s[..|s| - 1], early), if last > early then [last] else [], late);
      NewerOne(last, late);
    }
  }

  lemma NewerOne(x: Time, cutoff: Time)
    ensures Newer([x], cutoff) == if x > cutoff then [x] else []
  {
  }

  /** One more call: its own time joins the accepted ones and the filtered state, or neither. */
  lemma OneMoreCall(calls: seq<Time>, max: nat, window: nat) returns (added: seq<Time>)
    requires calls != []
    ensures var before, now := calls[..|calls| - 1], calls[|calls| - 1];
      && State(calls, max, window) == Newer(State(before, max, window), now - window) + added
      && Accepted(calls, max, window) == Accepted(before, max, window) + added
      && (added == [now] || added == [])
  {
    hide Newer;
    added := if AcceptedAt(calls, |calls| - 1, max, window) then [calls[|calls| - 1]] else [];
  }

  /** What the limiter keeps for a key: of the accepted times, all those any later cutoff can still see. */
  lemma {:induction false} KeepsRecentAccepted(calls: seq<Time>, max: nat, window: nat, cutoff: Time)
    requires NonDecreasing(calls) && (calls != [] ==> calls[|calls| - 1] - window <= cutoff)
    ensures Newer(State(calls, max, window), cutoff) == Newer(Accepted(calls, max, window), cutoff)
  {
    hide Newer, State, Accepted;
    if calls == [] {
      NothingKept(max, window);
    } else {
      var before, now := calls[..|calls| - 1], calls[|calls| - 1];
      var added := OneMoreCall(calls, max, window);
      KeepsRecentAccepted(before, max, window, cutoff);
      NewerTwice(State(before, max, window), now - window, cutoff);
      NewerJoin(Newer(State(before, max, window), now - window), added, cutoff);
      NewerJoin(Accepted(before, max, window), added, cutoff);
    }
  }

  lemma NothingKept(max: nat, window: nat)
    ensures State([], max, window) == Accepted([], max, window) == []
  {
  }

  /** A call is accepted exactly when fewer than `max` calls were accepted in the window before it. */
  lemma AcceptedExactly(calls: seq<Time>, i: nat, max: nat, window: nat)
    requires i < |calls| && NonDecreasing(calls)
    ensures AcceptedAt(calls, i, max, window) <==> |Newer(Accepted(calls[..i], max, window), calls[i] - window)| < max
  {
    KeepsRecentAccepted(calls[..i], max, window, calls[i] - window);
  }

  /** In ascending times, at most as many are newer than a cutoff as follow the first that is not. */
  lemma {:induction false} OldestOfMany(s: seq<Time>, cutoff: Time, k: nat)
    requires NonDecreasing(s) && k < |s| && s[k] > cutoff
    ensures |Newer(s, cutoff)| >= |s| - k
  {
    if k < |s| - 1 {
      OldestOfMany(s[..|s| - 1], cutoff, k);
    }
  }

  lemma {:induction false} AcceptedIsSorted(calls: seq<Time>, max: nat, window: nat)
    requires NonDecreasing(calls)
    ensures NonDecreasing(Accepted(calls, max, window))
    ensures forall t :: t in Accepted(calls, max, window) ==> calls != [] && t <= calls[|calls| - 1]
  {
    hide Newer, State;
    if calls != [] {
      var before := calls[..|calls| - 1];
      AcceptedIsSorted(before, max, window);
      var earlier, all := Accepted(before, max, window), Accepted(calls, max, window);
      forall i, j | 0 <= i < j < |all|
        ensures all[i] <= all[j]
      {
        assert all[i] == earlier[i] && earlier[i] in earlier;
        if j < |earlier| { assert all[j] == earlier[j]; }
      }
    }
  }

  /** The limit: with a clock that never runs back, of any max + 1 successive accepted calls the last
      comes at least a window after the first, so no window holds more than `max` of them. */
  lemma {:induction false} WindowHoldsAtMostMax(calls: seq<Time>, max: nat, window: nat, i: nat)
    requires NonDecreasing(calls) && i + max < |Accepted(calls, max, window)|
    ensures Accepted(calls, max, window)[i + max] - Accepted(calls, max, window)[i] >= window
  {
    var before, n := calls[..|calls| - 1], |calls| - 1;
    var earlier := Accepted(before, max, window);
    if i + max < |earlier| {
      WindowHoldsAtMostMax(before, max, window, i);
    } else {
      AcceptedExactly(calls, n, max, window);
      AcceptedIsSorted(before, max, window);
      if max > 0 && earlier[i] > calls[n] - window {
        OldestOfMany(earlier, calls[n] - window, i);
      }
    }
  }
}
