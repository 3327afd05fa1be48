/** The per-agent bounded preference history (`Timeline`) and the table of one
    history per agent (`Preferences`) from `src/entities/agents.rs`.

    The capacity `TIMELINE_SIZE_LIMIT` is a crate constant whose value lies
    outside this model, so here it is a positive number `cap` that the pure
    specification takes as a parameter and each `Timeline` fixes at
    construction. */
module Timelines {
  import opened Codec
  import opened Errors

  datatype TradeAction = Buy | Sell

  /** One preference signal: a company id and the action it favours. */
  type Event = (U64, TradeAction)

  function Min(a: nat, b: nat): nat {
    if a < b then a else b
  }

  /** `n` copies of one event, as `vec![e; n]` builds. */
  function Repeat(e: Event, n: nat): (s: seq<Event>)
    ensures |s| == n && forall i :: 0 <= i < n ==> s[i] == e
  {
    seq(n, _ => e)
  }

  // ---------------------------------------------------------------------------
  // Pure specification of `Timeline::add`

  /** The bounds every timeline keeps: never longer than the capacity, and the
      start marker inside the buffer. */
  predicate Bounded(cap: nat, data: seq<Event>, target: nat) {
    0 < cap && |data| <= cap && target <= |data|
  }

  /** `add` does not panic: either the buffer is full, or the incoming events
      overflow it by at most `cap` (the slice copy of the partial-overflow
      branch needs `|incoming| - (cap - |data|) <= cap`). */
  predicate CanAdd(cap: nat, len: nat, n: nat) {
    len == cap || len + n <= 2 * cap
  }

  /** The buffer slot that the `i`-th incoming event overwrites in a full buffer. */
  function Slot(cap: nat, target: nat, i: nat): nat
    requires 0 < cap
  {
    (i + target) % cap
  }

  /** A full buffer after its overwrite loop has written the first `n`
      incoming events at their slots. */
  function Written(cap: nat, data: seq<Event>, target: nat, incoming: seq<Event>, n: nat): (r: seq<Event>)
    requires 0 < cap && |data| == cap && n <= |incoming| && n <= cap
    ensures |r| == cap
  {
    seq(cap, j requires 0 <= j < cap =>
      if (j - target) % cap < n then incoming[(j - target) % cap] else data[j])
  }

  /** `Timeline::add` on the pair (`data`, `target_index`), branch by branch:
      a full buffer is overwritten from `target_index` on, wrapping, without
      moving `target_index`; events that fit are appended; otherwise the free
      room takes the first events and the rest overwrite the front of the
      buffer, and `target_index` moves past them. */
  function Added(cap: nat, data: seq<Event>, target: nat, incoming: seq<Event>): (r: (seq<Event>, nat))
    requires Bounded(cap, data, target) && CanAdd(cap, |data|, |incoming|)
    ensures Bounded(cap, r.0, r.1)
    ensures |r.0| == Min(cap, |data| + |incoming|)
    ensures (|data| < cap ==> target == 0) ==> (|r.0| < cap ==> r.1 == 0)
  {
    if |data| == cap then
      (Written(cap, data, target, incoming, Min(|incoming|, cap)), target)
    else if |data| + |incoming| <= cap then
      (data + incoming, target)
    else
      var extend := cap - |data|;
      var destination := |incoming| - extend;
      (incoming[extend..] + (data + incoming[..extend])[destination..], destination)
  }

  // ---------------------------------------------------------------------------
  // Reading a buffer from its start marker

  /** The buffer read from `target` on, wrapping. This is oldest event first
      as long as no add has hit a full buffer (`AddedKeepsNewest`); the
      full-buffer branch does not move `target` (`FullAddKeepsOrigin`). */
  function Logical(s: seq<Event>, target: nat): (r: seq<Event>)
    requires target <= |s|
    ensures |r| == |s| && multiset(r) == multiset(s)
  {
    assert s == s[..target] + s[target..];
    s[target..] + s[..target]
  }

  /** The position that buffer slot `p` takes in `Logical`. */
  function LogicalPos(len: nat, target: nat, p: nat): nat
    requires p < len && target <= len
  {
    if p >= target then p - target else p + len - target
  }

  /** The last `cap` events of a history, in order. */
  function Newest(cap: nat, s: seq<Event>): (r: seq<Event>)
    ensures |r| == Min(cap, |s|)
  {
    if |s| <= cap then s else s[|s| - cap..]
  }

  lemma LogicalAt(s: seq<Event>, target: nat, p: nat)
    requires p < |s| && target <= |s|
    ensures LogicalPos(|s|, target, p) < |s|
    ensures Logical(s, target)[LogicalPos(|s|, target, p)] == s[p]
  {
  }

  // ---------------------------------------------------------------------------
  // Index arithmetic of `recency_bias`

  /** The buffer index `recency_bias` reads for the draw `k < bias`, when the
      window is smaller than the buffer. It always lands in the last `bias`
      positions of the buffer read from `target` on. */
  function RecencyIndex(len: nat, target: nat, bias: nat, k: nat): (p: nat)
    requires k < bias < len && target <= len
    ensures p < len
    ensures LogicalPos(len, target, p) >= len - bias
  {
    if bias < target then k + (target - bias)
    else if k < target then k
    else len - (k - target) - 1
  }

  /** Different draws read different slots, so a uniform draw over `[0, bias)`
      is a uniform choice among the last `bias` positions of the buffer read
      from `target` on. */
  lemma RecencyIndexInjective(len: nat, target: nat, bias: nat, k1: nat, k2: nat)
    requires k1 < bias < len && k2 < bias && target <= len
    ensures k1 != k2 ==> RecencyIndex(len, target, bias, k1) != RecencyIndex(len, target, bias, k2)
  {
  }

  // ---------------------------------------------------------------------------
  // Properties of `Added`

  /** Euclidean `%` on the small range the overwrite loop uses. */
  lemma ModSmall(x: int, cap: nat)
    requires 0 < cap && -(cap as int) <= x < 2 * cap
    ensures x % cap == if x < 0 then x + cap else if x < cap then x else x - cap
  {
    var q, r := x / cap, x % cap;
    assert x == q * cap + r && 0 <= r < cap;
    assert q == -1 || q == 0 || q == 1;
  }

  /** In a full buffer, event `i` lands in slot `j` exactly when `j` is `i`
      places after `target`, wrapping. */
  lemma SlotInverse(cap: nat, target: nat, i: nat, j: nat)
    requires 0 < cap && target <= cap && i < cap && j < cap
    ensures (j - target) % cap == i <==> j == Slot(cap, target, i)
  {
    ModSmall(j - target, cap);
    ModSmall(i + target, cap);
  }

  /** One turn of the overwrite loop. */
  lemma WrittenStep(cap: nat, data: seq<Event>, target: nat, incoming: seq<Event>, n: nat)
    requires 0 < cap && |data| == cap && target <= cap && n < |incoming| && n < cap
    ensures Slot(cap, target, n) < cap
    ensures Written(cap, data, target, incoming, n)[Slot(cap, target, n) := incoming[n]]
         == Written(cap, data, target, incoming, n + 1)
  {
    ModSmall(n + target, cap);
    var before := Written(cap, data, target, incoming, n);
    var after := Written(cap, data, target, incoming, n + 1);
    var s := Slot(cap, target, n);
    forall j | 0 <= j < cap
      ensures before[s := incoming[n]][j] == after[j]
    {
      SlotInverse(cap, target, n, j);
      ModSmall(j - target, cap);
    }
  }

  /** Full branch: incoming event `i` (for `i < min(|incoming|, cap)`) sits in
      slot `(i + target) % cap`; every other slot keeps its event; the length
      and `target_index` do not change. */
  lemma {:induction false} AddedFull(cap: nat, data: seq<Event>, target: nat, incoming: seq<Event>)
    requires Bounded(cap, data, target) && |data| == cap
    ensures var r := Added(cap, data, target, incoming);
      && |r.0| == cap && r.1 == target
      && (forall i :: 0 <= i < Min(|incoming|, cap) ==> r.0[Slot(cap, target, i)] == incoming[i])
      && (forall j :: 0 <= j < cap && (forall i :: 0 <= i < Min(|incoming|, cap) ==> Slot(cap, target, i) != j)
            ==> r.0[j] == data[j])
  {
    var r := Added(cap, data, target, incoming);
    var n := Min(|incoming|, cap);
    forall i | 0 <= i < n
      ensures r.0[Slot(cap, target, i)] == incoming[i]
    {
      ModSmall(i + target, cap);
      SlotInverse(cap, target, i, Slot(cap, target, i));
    }
    forall j | 0 <= j < cap && (forall i :: 0 <= i < n ==> Slot(cap, target, i) != j)
      ensures r.0[j] == data[j]
    {
      ModSmall(j - target, cap);
      var i := (j - target) % cap;
      if i < n {
        SlotInverse(cap, target, i, j);
      }
    }
  }

  /** Full branch: events beyond the capacity are dropped. */
  lemma {:induction false} AddedFullDropsExcess(cap: nat, data: seq<Event>, target: nat, incoming: seq<Event>)
    requires Bounded(cap, data, target) && |data| == cap && |incoming| > cap
    ensures Added(cap, data, target, incoming) == Added(cap, data, target, incoming[..cap])
  {
    var a := Written(cap, data, target, incoming, cap);
    var b := Written(cap, data, target, incoming[..cap], cap);
    forall j | 0 <= j < cap
      ensures a[j] == b[j]
    {
      ModSmall(j - target, cap);
    }
    assert a == b;
  }

  /** Partial-overflow branch, slot by slot: the front holds the overflowing
      tail of the incoming events, then the surviving old events, then the
      events that filled the free room; `target_index` is the overflow size. */
  lemma {:induction false} AddedOverflow(cap: nat, data: seq<Event>, target: nat, incoming: seq<Event>)
    requires Bounded(cap, data, target) && CanAdd(cap, |data|, |incoming|)
    requires |data| < cap && |data| + |incoming| > cap
    ensures var r := Added(cap, data, target, incoming);
      var extend := cap - |data|;
      var destination := |incoming| - extend;
      && |r.0| == cap && r.1 == destination
      && (forall j :: 0 <= j < destination ==> r.0[j] == incoming[extend + j])
      && (forall j :: destination <= j < |data| ==> r.0[j] == data[j])
      && (forall j :: |data| <= j < cap && destination <= j ==> r.0[j] == incoming[j - |data|])
  {
  }

  /** Whenever the buffer was not yet full (so `target_index` is still 0),
      `add` keeps the buffer, read from `target_index` on, equal to the newest
      `cap` events of the whole history in insertion order. */
  lemma {:induction false} AddedKeepsNewest(cap: nat, data: seq<Event>, incoming: seq<Event>)
    requires Bounded(cap, data, 0) && CanAdd(cap, |data|, |incoming|) && |data| < cap
    ensures var r := Added(cap, data, 0, incoming);
      Logical(r.0, r.1) == Newest(cap, data + incoming)
  {
    var r := Added(cap, data, 0, incoming);
    if |data| + |incoming| <= cap {
      assert r.0 == data + incoming;
      assert Logical(r.0, 0) == r.0;
    } else {
      var extend := cap - |data|;
      var destination := |incoming| - extend;
      var head := data + incoming[..extend];
      var all := data + incoming;
      assert all == head + incoming[extend..];
      assert r.0 == incoming[extend..] + head[destination..];
      assert r.0[destination..] == head[destination..];
      assert r.0[..destination] == incoming[extend..];
      assert |all| - cap == destination;
      assert all[destination..] == head[destination..] + incoming[extend..];
    }
  }

  /** Every event in the buffer after `add` was already there or came in. */
  lemma {:induction false} AddedDrawsFrom(cap: nat, data: seq<Event>, target: nat, incoming: seq<Event>)
    requires Bounded(cap, data, target) && CanAdd(cap, |data|, |incoming|)
    ensures forall e :: e in Added(cap, data, target, incoming).0 ==> e in data || e in incoming
  {
    var r := Added(cap, data, target, incoming);
    if |data| == cap {
      forall e | e in r.0
        ensures e in data || e in incoming
      {
        var j :| 0 <= j < |r.0| && r.0[j] == e;
        ModSmall(j - target, cap);
      }
    } else if |data| + |incoming| > cap {
      var extend := cap - |data|;
      var destination := |incoming| - extend;
      forall e | e in r.0
        ensures e in data || e in incoming
      {
        var j :| 0 <= j < |r.0| && r.0[j] == e;
        if j < destination {
          assert e == incoming[extend + j];
        } else if j < |data| {
          assert e == data[j];
        } else {
          assert e == incoming[j - |data|];
        }
      }
    }
  }

  /** A timeline that only ever received one event holds nothing else, so
      every draw from it returns that event. */
  lemma {:induction false} RepeatedFillsWithOne(cap: nat, e: Event, n: nat)
    requires 0 < cap && 0 < n <= 2 * cap
    ensures var r := Added(cap, [], 0, Repeat(e, n));
      r.0 != [] && forall j :: 0 <= j < |r.0| ==> r.0[j] == e
  {
    var r := Added(cap, [], 0, Repeat(e, n));
    AddedDrawsFrom(cap, [], 0, Repeat(e, n));
    forall j | 0 <= j < |r.0|
      ensures r.0[j] == e
    {
      assert r.0[j] in r.0;
    }
  }

  /** Adding exactly `cap` events to an empty timeline fills it in insertion order. */
  lemma FillEmpty(cap: nat, incoming: seq<Event>)
    requires 0 < cap && |incoming| == cap
    ensures Added(cap, [], 0, incoming) == (incoming, 0)
  {
    assert [] + incoming == incoming;
  }

  /** The partial-overflow example with capacity 4: adding A..F to an empty
      timeline leaves [E, F, C, D] with `target_index` 2. */
  lemma OverflowExample()
    ensures Added(4, [], 0, [(0, Buy), (1, Buy), (2, Buy), (3, Buy), (4, Buy), (5, Buy)])
         == ([(4, Buy), (5, Buy), (2, Buy), (3, Buy)], 2)
  {
    var incoming: seq<Event> := [(0, Buy), (1, Buy), (2, Buy), (3, Buy), (4, Buy), (5, Buy)];
    var r := Added(4, [], 0, incoming);
    assert r == (incoming[4..] + ([] + incoming[..4])[2..], 2);
    assert incoming[4..] == [(4, Buy), (5, Buy)];
    assert [] + incoming[..4] == [(0, Buy), (1, Buy), (2, Buy), (3, Buy)];
    assert ([] + incoming[..4])[2..] == [(2, Buy), (3, Buy)];
    assert r.0 == [(4, Buy), (5, Buy), (2, Buy), (3, Buy)];
  }

  /** The full branch does not move `target_index`: after adding C to the full
      buffer [A, B], the buffer read from `target_index` on is [C, B] although
      the newest two events are [B, C]. The partial-overflow branch, by
      contrast, keeps insertion order (`AddedKeepsNewest`). A recency window of
      one then reads B, not the newest event C. */
  lemma FullAddKeepsOrigin()
    ensures var a: Event, b: Event, c: Event := (0, Buy), (1, Buy), (2, Sell);
      var r := Added(2, [a, b], 0, [c]);
      && r == ([c, b], 0) && Logical(r.0, r.1) != Newest(2, [a, b, c])
      && r.0[RecencyIndex(2, r.1, 1, 0)] == b
  {
    var a, b, c := (0, Buy), (1, Buy), (2, Sell);
    ModSmall(0, 2);
    ModSmall(1, 2);
    var r := Added(2, [a, b], 0, [c]);
    assert r.0 == Written(2, [a, b], 0, [c], 1);
    assert r.0[0] == c && r.0[1] == b;
    assert r.0 == [c, b];
    assert Logical(r.0, r.1) == [c, b];
    assert [a, b, c][1..] == [b, c];
  }

  // ---------------------------------------------------------------------------
  // The mutable timeline

  /** `Timeline`: `data` is the ring buffer. `targetIndex` marks the oldest
      slot after a partial-overflow add; a full-buffer add writes from it
      without moving it, so afterwards it need not mark the oldest slot. */
  class Timeline {
    const cap: nat
    var data: seq<Event>
    var targetIndex: nat

    /** The bounds, plus: until the buffer first fills, `targetIndex` is 0. */
    ghost predicate Valid()
      reads this
    {
      Bounded(cap, data, targetIndex) && (|data| < cap ==> targetIndex == 0)
    }

    /** `Timeline::new`: empty, marker at 0. */
    constructor (cap: nat)
      requires 0 < cap
      ensures this.cap == cap && data == [] && targetIndex == 0
      ensures Valid()
    {
      this.cap := cap;
      data := [];
      targetIndex := 0;
    }

    /** `add`, in place: the overwrite loop, the append, or the append
        followed by the copy over the front of the buffer. */
    method Add(incoming: seq<Event>)
      requires Valid() && CanAdd(cap, |data|, |incoming|)
      modifies this
      ensures Valid()
      ensures (data, targetIndex) == Added(cap, old(data), old(targetIndex), incoming)
    {
      if |data| == cap {
        var n := Min(|incoming|, |data|);
        var i := 0;
        while i < n
          invariant 0 <= i <= n
          invariant targetIndex == old(targetIndex)
          invariant data == Written(cap, old(data), targetIndex, incoming, i)
        {
          WrittenStep(cap, old(data), targetIndex, incoming, i);
          data := data[Slot(cap, targetIndex, i) := incoming[i]];
          i := i + 1;
        }
        return;
      }
      if |incoming| + |data| <= cap {
        data := data + incoming;
        return;
      }
      var extendSize := cap - |data|;
      var destinationIndex := |incoming| - extendSize;
      data := data + incoming[0..extendSize];
      data := incoming[extendSize..] + data[destinationIndex..];
      targetIndex := destinationIndex;
    }

    /** `get_rng`, with the random draw given as `k`: `NoData` exactly when
        the buffer is empty, otherwise the event in slot `k`. */
    function GetRng(k: nat): (r: Result<Event>)
      reads this
      requires data != [] ==> k < |data|
      ensures r.Err? <==> data == []
      ensures r.Err? ==> r.error == NoData
      ensures r.Ok? ==> k < |data| && r.value == data[k]
    {
      if data == [] then Err(NoData) else Ok(data[k])
    }

    /** `recency_bias`, with the random draw given as `k`. A window at least
        as large as the buffer is `get_rng`; otherwise `k < biasSize` and the
        result is the slot `RecencyIndex` computes, one of the last `biasSize`
        positions of the buffer read from `targetIndex` on (the last
        `biasSize` of the buffer when `targetIndex` is 0). Those are the newest
        events only while no add has hit a full buffer. */
    function RecencyBias(biasSize: nat, k: nat): (r: Result<Event>)
      reads this
      requires targetIndex <= |data|
      requires if biasSize >= |data| then data != [] ==> k < |data| else k < biasSize
      ensures biasSize >= |data| ==> r == GetRng(k)
      ensures biasSize < |data| ==> r == Ok(data[RecencyIndex(|data|, targetIndex, biasSize, k)])
      ensures r.Err? <==> data == []
      ensures r.Ok? ==> r.value in Logical(data, targetIndex)[|data| - Min(biasSize, |data|)..]
      ensures r.Ok? && targetIndex == 0 ==> r.value in data[|data| - Min(biasSize, |data|)..]
    {
      if biasSize >= |data| then
        if data == [] then GetRng(k)
        else
          LogicalAt(data, targetIndex, k);
          GetRng(k)
      else
        var p := RecencyIndex(|data|, targetIndex, biasSize, k);
        LogicalAt(data, targetIndex, p);
        Ok(data[p])
    }
  }

  // ---------------------------------------------------------------------------
  // One timeline per agent

  /** `Preferences`: the timeline of agent `i` is `timelines[i]`; no two agents
      share a timeline object. */
  class Preferences {
    /** `TIMELINE_SIZE_LIMIT`, shared by every agent's timeline. */
    const cap: nat
    var timelines: seq<Timeline>

    ghost predicate Valid()
      reads this, timelines
    {
      && (forall i :: 0 <= i < |timelines| ==> timelines[i].Valid() && timelines[i].cap == cap)
      && (forall i, j :: 0 <= i < j < |timelines| ==> timelines[i] != timelines[j])
    }

    constructor (cap: nat, timelines: seq<Timeline>)
      requires forall i :: 0 <= i < |timelines| ==> timelines[i].Valid() && timelines[i].cap == cap
      requires forall i, j :: 0 <= i < j < |timelines| ==> timelines[i] != timelines[j]
      ensures this.cap == cap && this.timelines == timelines
      ensures Valid()
    {
      this.cap := cap;
      this.timelines := timelines;
    }

    /** `add`: `AgentNotFound` with nothing changed for an unknown agent;
        otherwise that agent's timeline receives `preference` copies of
        (company, Buy) and no other timeline changes. */
    method Add(agentId: U64, companyId: U64, preference: U64) returns (r: Result<()>)
      requires Valid()
      requires agentId < |timelines| ==>
        CanAdd(cap, |timelines[agentId].data|, preference)
      modifies timelines
      ensures Valid() && timelines == old(timelines)
      ensures r.Err? <==> agentId >= |timelines|
      ensures r.Err? ==> r.error == AgentNotFound(agentId)
      ensures forall i :: 0 <= i < |timelines| && i != agentId ==>
        timelines[i].data == old(timelines[i].data) && timelines[i].targetIndex == old(timelines[i].targetIndex)
      ensures r.Ok? ==>
        (timelines[agentId].data, timelines[agentId].targetIndex)
          == Added(cap, old(timelines[agentId].data), old(timelines[agentId].targetIndex),
                   Repeat((companyId, Buy), preference))
    {
      if agentId >= |timelines| {
        return Err(AgentNotFound(agentId));
      }
      var timeline := timelines[agentId];
      timeline.Add(Repeat((companyId, Buy), preference));
      return Ok(());
    }

    /** `sub`: as `add`, with (company, Sell) events. */
    method Sub(agentId: U64, companyId: U64, preference: U64) returns (r: Result<()>)
      requires Valid()
      requires agentId < |timelines| ==>
        CanAdd(cap, |timelines[agentId].data|, preference)
      modifies timelines
      ensures Valid() && timelines == old(timelines)
      ensures r.Err? <==> agentId >= |timelines|
      ensures r.Err? ==> r.error == AgentNotFound(agentId)
      ensures forall i :: 0 <= i < |timelines| && i != agentId ==>
        timelines[i].data == old(timelines[i].data) && timelines[i].targetIndex == old(timelines[i].targetIndex)
      ensures r.Ok? ==>
        (timelines[agentId].data, timelines[agentId].targetIndex)
          == Added(cap, old(timelines[agentId].data), old(timelines[agentId].targetIndex),
                   Repeat((companyId, Sell), preference))
    {
      if agentId >= |timelines| {
        return Err(AgentNotFound(agentId));
      }
      var timeline := timelines[agentId];
      timeline.Add(Repeat((companyId, Sell), preference));
      return Ok(());
    }

    /** `get_preferred_random`, with the random draw given as `k`:
        `AgentNotFound` for an unknown agent, otherwise that agent's `get_rng`. */
    function GetPreferredRandom(agentId: U64, k: nat): (r: Result<Event>)
      reads this, timelines
      requires agentId < |timelines| && timelines[agentId].data != [] ==> k < |timelines[agentId].data|
      ensures r == Err(AgentNotFound(agentId)) <==> agentId >= |timelines|
      ensures agentId < |timelines| ==> r == timelines[agentId].GetRng(k)
      ensures r.Ok? ==> r.value in timelines[agentId].data
    {
      if agentId >= |timelines| then Err(AgentNotFound(agentId))
      else timelines[agentId].GetRng(k)
    }
  }
}
