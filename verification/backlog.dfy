/** The bounded message history: a double-ended queue with a maximum length
    that drops its oldest element when an append would overflow it. */
module Backlog {

  /** Reference definition: the last `n` elements of `s` (all of `s` when it
      is shorter), in their original order. */
  function Last<T>(s: seq<T>, n: nat): seq<T>
  {
    if |s| <= n then s else s[|s| - n..]
  }

  /** Appending `x` to a queue of maximum length `cap` already holding `h`:
      a full queue first drops its leftmost element; a queue of maximum
      length zero stays empty. */
  function Push<T>(h: seq<T>, x: T, cap: nat): (r: seq<T>)
    requires |h| <= cap
    ensures r == Last(h + [x], cap)
    ensures |r| <= cap
    ensures 0 < cap ==> r[|r| - 1] == x
  {
    if cap == 0 then h
    else if |h| == cap then
      assert h[1..] + [x] == (h + [x])[1..];
      h[1..] + [x]
    else h + [x]
  }

  /** Truncating early changes nothing: keeping the last `n` of `s` and then
      the last `n` of that followed by `t` is keeping the last `n` of `s + t`. */
  lemma LastAppend<T>(s: seq<T>, t: seq<T>, n: nat)
    ensures Last(Last(s, n) + t, n) == Last(s + t, n)
  {
    if n < |s| {
      var k := |s| - n;
      assert Last(s, n) + t == (s + t)[k..];
      assert (s + t)[k..][|(s + t)[k..]| - n..] == (s + t)[|s + t| - n..];
    }
  }

  /** Two successive truncations compose into one over the concatenation. */
  lemma LastCompose<T>(h: seq<T>, a: seq<T>, rest: seq<T>, n: nat)
    ensures Last(Last(h + a, n) + rest, n) == Last(h + (a + rest), n)
  {
    LastAppend(h + a, rest, n);
    assert h + a + rest == h + (a + rest);
  }
}
