/**
 Moments kept for a while.

 A record of moments is filtered down to those after a cutoff, and counted in the window of a
 given width that ends at a given moment. The two are related by the windows that end no earlier
 than every recorded moment. A record is capped when no window whatever holds more moments than
 the limit; it stays so when a moment is added that has room in the window it ends.
 */
module SlidingWindows {

  /** The moments after `cutoff`, in order. */
  function Recent(times: seq<int>, cutoff: int): (r: seq<int>)
    ensures |r| <= |times|
  {
    if times == [] then []
    else Recent(times[..|times| - 1], cutoff) + if times[|times| - 1] > cutoff then [times[|times| - 1]] else []
  }

  /** How many moments lie in the window that ends at `last` and is `width` long. */
  function InWindow(times: seq<int>, last: int, width: int): (n: nat)
    ensures n <= |times|
  {
    if times == [] then 0
    else InWindow(times[..|times| - 1], last, width) + if last - width < times[|times| - 1] <= last then 1 else 0
  }

  lemma RecentGrows(times: seq<int>, t: int, cutoff: int)
    ensures Recent(times + [t], cutoff) == Recent(times, cutoff) + if t > cutoff then [t] else []
  {
    assert (times + [t])[..|times|] == times;
  }

  lemma InWindowGrows(times: seq<int>, t: int, last: int, width: int)
    ensures InWindow(times + [t], last, width) == InWindow(times, last, width) + if last - width < t <= last then 1 else 0
  {
    assert (times + [t])[..|times|] == times;
  }

  lemma {:induction false} RecentOfRecent(times: seq<int>, a: int, b: int)
    requires a <= b
    ensures Recent(Recent(times, a), b) == Recent(times, b)
  {
    if times != [] {
      var init, t := times[..|times| - 1], times[|times| - 1];
      RecentOfRecent(init, a, b);
      if t > a {
        RecentGrows(Recent(init, a), t, b);
      } else {
        assert Recent(times, a) == Recent(init, a) && Recent(times, b) == Recent(init, b);
      }
    }
  }

  /** Filtering early and then again gives what filtering at the end gives. */
  lemma RecentThenMore(times: seq<int>, t: int, a: int, b: int)
    requires a <= b
    ensures Recent(Recent(times, a) + [t], b) == Recent(times + [t], b)
  {
    RecentOfRecent(times, a, b);
    RecentGrows(Recent(times, a), t, b);
    RecentGrows(times, t, b);
  }

  lemma {:induction false} RecentShrinks(times: seq<int>, a: int, b: int)
    requires a <= b
    ensures |Recent(times, b)| <= |Recent(times, a)|
  {
    if times != [] {
      RecentShrinks(times[..|times| - 1], a, b);
    }
  }

  lemma {:induction false} RecentAll(times: seq<int>, cutoff: int)
    requires forall i :: 0 <= i < |times| ==> times[i] > cutoff
    ensures Recent(times, cutoff) == times
  {
    if times != [] {
      RecentAll(times[..|times| - 1], cutoff);
      assert times == times[..|times| - 1] + [times[|times| - 1]];
    }
  }

  lemma {:induction false} RecentNone(times: seq<int>, cutoff: int)
    requires forall i :: 0 <= i < |times| ==> times[i] <= cutoff
    ensures Recent(times, cutoff) == []
  {
    if times != [] {
      RecentNone(times[..|times| - 1], cutoff);
    }
  }

  /** The recent moments are exactly the moments after the cutoff. */
  lemma {:induction false} RecentIsNoneIff(times: seq<int>, cutoff: int)
    ensures Recent(times, cutoff) == [] <==> forall i :: 0 <= i < |times| ==> times[i] <= cutoff
  {
    if times != [] {
      var init := times[..|times| - 1];
      RecentIsNoneIff(init, cutoff);
      if Recent(times, cutoff) == [] {
        forall i | 0 <= i < |times|
          ensures times[i] <= cutoff
        {
          if i < |init| { assert init[i] <= cutoff; }
        }
      }
    }
  }

  /** A window that ends no earlier than every moment holds the recent ones. */
  lemma {:induction false} LateWindow(times: seq<int>, last: int, width: int)
    requires forall i :: 0 <= i < |times| ==> times[i] <= last
    ensures InWindow(times, last, width) == |Recent(times, last - width)|
  {
    if times != [] {
      LateWindow(times[..|times| - 1], last, width);
    }
  }

  /** At most `limit` of the moments lie in any window of that width. */
  ghost predicate Capped(times: seq<int>, width: int, limit: nat) {
    forall last: int :: InWindow(times, last, width) <= limit
  }

  lemma RoomAt(times: seq<int>, now: int, width: int, limit: nat, last: int)
    requires InWindow(times, last, width) <= limit && forall i :: 0 <= i < |times| ==> times[i] <= now
    requires |Recent(times, now - width)| < limit
    ensures InWindow(times + [now], last, width) <= limit
  {
    InWindowGrows(times, now, last, width);
    if now <= last {
      LateWindow(times, last, width);
      RecentShrinks(times, now - width, last - width);
    }
  }

  /** One more moment, no earlier than the others, with room in the window that ends with it. */
  lemma CapGrows(times: seq<int>, now: int, width: int, limit: nat)
    requires Capped(times, width, limit) && forall i :: 0 <= i < |times| ==> times[i] <= now
    requires |Recent(times, now - width)| < limit
    ensures Capped(times + [now], width, limit)
  {
    forall last: int
      ensures InWindow(times + [now], last, width) <= limit
    {
      RoomAt(times, now, width, limit, last);
    }
  }

  // ---- the filter the program runs over the backing array of a slice ----

  lemma RecentOneMore(a: seq<int>, i: nat, cutoff: int)
    requires i < |a|
    ensures Recent(a[..i + 1], cutoff) == Recent(a[..i], cutoff) + if a[i] > cutoff then [a[i]] else []
  {
    assert a[..i + 1] == a[..i] + [a[i]];
    RecentGrows(a[..i], a[i], cutoff);
  }

  /** Moves the recent moments to the front, overwriting the others; returns how many there are. */
  method FilterInPlace(records: array<int>, n: nat, cutoff: int) returns (kept: nat)
    requires n <= records.Length
    modifies records
    ensures kept <= n && records[..kept] == Recent(old(records[..n]), cutoff)
    ensures forall k :: n <= k < records.Length ==> records[k] == old(records[k])
  {
    ghost var was := records[..n];
    kept := 0;
    for i := 0 to n
      invariant kept <= i && records[..kept] == Recent(was[..i], cutoff)
      invariant forall k :: i <= k < records.Length ==> records[k] == old(records[k])
    {
      RecentOneMore(was, i, cutoff);
      if records[i] > cutoff {
        records[kept] := records[i];
        assert records[..kept + 1] == Recent(was[..i], cutoff) + [was[i]];
        kept := kept + 1;
      }
    }
    assert was[..n] == was;
  }

  method Keep(records: seq<int>, cutoff: int) returns (keep: seq<int>)
    ensures keep == Recent(records, cutoff)
  {
    keep := [];
    for i := 0 to |records|
      invariant keep == Recent(records[..i], cutoff)
    {
      RecentOneMore(records, i, cutoff);
      if records[i] > cutoff {
        keep := keep + [records[i]];
      }
    }
    assert records[..|records|] == records;
  }

  method HasRecent(times: seq<int>, cutoff: int) returns (recent: bool)
    ensures recent <==> Recent(times, cutoff) != []
  {
    RecentIsNoneIff(times, cutoff);
    for i := 0 to |times|
      invariant forall k :: 0 <= k < i ==> times[k] <= cutoff
    {
      if times[i] > cutoff {
        return true;
      }
    }
    return false;
  }
}
