/** Server-sent events: the bounded cache of a channel, and the subscriber that subscribes, replays the cache
    from the last id it saw, and then follows the live messages. */
module EventStream {
  import opened Wrappers
  import opened Sorting

  const CACHE_SIZE: nat := 100

  /** The ids `lo..hi`; none when `hi < lo`. */
  datatype Range = Range(lo: nat, hi: int)

  predicate InRange(x: int, r: Range) {
    r.lo <= x <= r.hi
  }

  function Length(r: Range): nat {
    if r.hi < r.lo then 0 else r.hi - r.lo + 1
  }

  /** How many of `len` keys the slice `keys[:-(size - 1)]` takes: for size 1 it is `keys[:0]`, that is none. */
  function Truncated(len: nat, size: nat): nat
    requires len >= size && len > 0
  {
    if size == 1 then 0 else if size == 0 then 1 else len - (size - 1)
  }

  /** The cache after one more send. */
  function AfterSend(r: Range, size: nat): Range {
    if Length(r) == 0 then Range(1, 1)
    else if Length(r) >= size then Range(r.lo + Truncated(Length(r), size), r.hi + 1)
    else Range(r.lo, r.hi + 1)
  }

  function AfterSends(n: nat, size: nat): Range {
    if n == 0 then Range(1, 0) else AfterSend(AfterSends(n - 1, size), size)
  }

  /** After n sends the cache holds exactly the last min(n, size) ids, ending at n. */
  lemma {:induction false} CachedIdsExact(n: nat, size: nat)
    requires size >= 2
    ensures AfterSends(n, size) == Range(if n <= size then 1 else n - size + 1, n)
  {
    if n > 0 {
      CachedIdsExact(n - 1, size);
    }
  }

  /** The bound fails for a size of one: nothing is ever evicted. */
  lemma {:induction false} SizeOneNeverTruncates(n: nat)
    ensures AfterSends(n, 1) == Range(1, n)
  {
    if n > 0 {
      SizeOneNeverTruncates(n - 1);
    }
  }

  /** With a size of zero the newest message stays all the same. */
  lemma {:induction false} SizeZeroKeepsTheNewest(n: nat)
    requires n > 0
    ensures AfterSends(n, 0) == Range(n, n)
  {
    if n == 1 {
      assert AfterSends(1, 0) == AfterSend(AfterSends(0, 0), 0);
    } else {
      SizeZeroKeepsTheNewest(n - 1);
    }
  }

  /** The cache that the source uses. */
  lemma DefaultCache(n: nat)
    ensures AfterSends(n, CACHE_SIZE) == Range(if n <= 100 then 1 else n - 99, n)
  {
    CachedIdsExact(n, CACHE_SIZE);
  }

  /** The cache never outgrows its size exactly when that size is at least two. */
  lemma {:induction false} CacheIsBoundedIff(size: nat)
    ensures (forall n: nat :: Length(AfterSends(n, size)) <= size) <==> size >= 2
  {
    if size >= 2 {
      forall n: nat ensures Length(AfterSends(n, size)) <= size {
        CachedIdsExact(n, size);
      }
    } else if size == 1 {
      SizeOneNeverTruncates(2);
      assert Length(AfterSends(2, size)) == 2;
    } else {
      assert AfterSends(1, size) == AfterSend(AfterSends(0, size), size) == Range(1, 1);
      assert Length(AfterSends(1, size)) == 1;
    }
  }

  /** A channel: the Redis hash of cached messages by id. */
  class Channel {
    var cache: map<nat, string>

    ghost predicate Holds(r: Range)
      reads this
    {
      forall k :: k in cache <==> InRange(k, r)
    }

    constructor ()
      ensures Holds(AfterSends(0, CACHE_SIZE)) && cache == map[]
    {
      cache := map[];
    }

    /** `get_channel_key`: evicts the oldest keys and returns the id of the next message. */
    method GetChannelKey(size: nat, ghost r: Range) returns (id: nat)
      requires Holds(r)
      modifies this
      ensures id == AfterSend(r, size).hi
      ensures Holds(Range(AfterSend(r, size).lo, AfterSend(r, size).hi - 1))
      ensures forall k :: k in cache ==> k in old(cache) && cache[k] == old(cache)[k]
    {
      RangeCount(cache.Keys, r);
      var length := |cache.Keys|;
      if length == 0 {
        return 1;
      }
      var keys := Sort(cache.Keys);
      SortedRange(keys, r);
      if length >= size {
        Evict(keys, if size == 1 then 0 else if size == 0 then 1 else length - (size - 1), r);
      }
      id := keys[|keys| - 1] + 1;
    }

    /** The eviction loop over the oldest keys. */
    method Evict(keys: seq<nat>, count: nat, ghost r: Range)
      requires Holds(r) && count <= |keys|
      requires forall i :: 0 <= i < count ==> keys[i] == r.lo + i
      modifies this
      ensures Holds(Range(r.lo + count, r.hi))
      ensures forall k :: k in cache ==> k in old(cache) && cache[k] == old(cache)[k]
    {
      for i := 0 to count
        invariant Holds(Range(r.lo + i, r.hi))
        invariant forall k :: k in cache ==> k in old(cache) && cache[k] == old(cache)[k]
      {
        cache := cache - {keys[i]};
      }
    }

    /** One send on the channel: the message is stored under the next id (and then published). */
    method Send(message: string, size: nat, ghost r: Range) returns (id: nat)
      requires Holds(r)
      modifies this
      ensures id == AfterSend(r, size).hi && Holds(AfterSend(r, size)) && cache[id] == message
      ensures forall k :: k in cache && k != id ==> k in old(cache) && cache[k] == old(cache)[k]
    {
      id := GetChannelKey(size, r);
      cache := cache[id := message];
    }

    /** Non-overlapping sends on a new channel. */
    method SendAll(messages: seq<string>)
      requires cache == map[]
      modifies this
      ensures var n := |messages|; Holds(Range(if n <= 100 then 1 else n - 99, n))
    {
      for i := 0 to |messages|
        invariant Holds(AfterSends(i, CACHE_SIZE))
      {
        var _ := Send(messages[i], CACHE_SIZE, AfterSends(i, CACHE_SIZE));
      }
      DefaultCache(|messages|);
    }

    /** The replay of `EvtStream.__iter__`: cached ids above the last one seen, in increasing order. */
    method Replay(lastId: int) returns (ids: seq<nat>)
      ensures Increasing(ids)
      ensures forall k :: k in ids <==> k in cache && k > lastId
    {
      var keys := Sort(cache.Keys);
      ids := [];
      for i := 0 to |keys|
        invariant Increasing(ids)
        invariant forall k :: k in ids <==> k in keys[..i] && k > lastId
      {
        assert keys[..i + 1] == keys[..i] + [keys[i]];
        if keys[i] > lastId {
          IncreasingSnoc(ids, keys[i]);
          ids := ids + [keys[i]];
        }
      }
      assert keys[..|keys|] == keys;
    }
  }

  lemma {:induction false} RangeCount(keys: set<nat>, r: Range)
    requires forall k :: k in keys <==> InRange(k, r)
    ensures |keys| == Length(r)
    decreases |keys|
  {
    assert r.lo <= r.hi ==> r.lo in keys;
    if keys != {} {
      var k :| k in keys;
      assert r.hi in keys;
      RangeCount(keys - {r.hi}, Range(r.lo, r.hi - 1));
    }
  }

  /** A sorted range is consecutive. */
  lemma {:induction false} SortedRange(keys: seq<nat>, r: Range)
    requires Increasing(keys) && forall k :: k in keys <==> InRange(k, r)
    ensures |keys| == Length(r)
    ensures forall i :: 0 <= i < |keys| ==> keys[i] == r.lo + i
    decreases |keys|
  {
    assert r.lo <= r.hi ==> r.lo in keys;
    if keys != [] {
      assert keys[0] in keys;
      assert r.hi in keys;
      var init, last := keys[..|keys| - 1], keys[|keys| - 1];
      assert keys == init + [last];
      assert last in keys;
      assert last == r.hi;
      forall k ensures k in init <==> InRange(k, Range(r.lo, r.hi - 1)) {
        assert k in keys <==> k in init || k == last;
      }
      SortedRange(init, Range(r.lo, r.hi - 1));
    }
  }

  // ---------------------------------------------------------------- a subscriber and a sender, interleaved

  /** A client of `EvtStream`: `since` is the last id published before it subscribed, `read` the cache it saw when
      it replayed, `live` every message published since it subscribed, `polled` how many of those it took. */
  datatype Client = Client(lastId: int, since: int, read: Option<Range>, live: seq<int>, polled: nat)

  /** `cache` holds consecutive ids; between `hset` and `publish` the last of them is not yet published. */
  datatype State = State(size: nat, cache: Range, published: int, client: Option<Client>)

  datatype Step = Evict | Store | Publish | Subscribe(lastId: int) | Read | Poll

  /** One step; a step that is not enabled changes nothing. Sends do not overlap. */
  function Next(s: State, step: Step): State {
    match step
    case Evict =>
      if s.published == s.cache.hi && Length(s.cache) >= s.size then s.(cache := s.cache.(lo := s.cache.lo + 1)) else s
    case Store =>
      if s.published == s.cache.hi && Length(s.cache) < s.size then s.(cache := s.cache.(hi := s.cache.hi + 1)) else s
    case Publish =>
      if s.published == s.cache.hi then s
      else s.(published := s.cache.hi,
              client := if s.client.Some?
                        then Some(s.client.value.(live := s.client.value.live + [s.cache.hi])) else None)
    case Subscribe(lastId) =>
      if s.client.Some? then s else s.(client := Some(Client(lastId, s.published, None, [], 0)))
    case Read =>
      if s.client.None? || s.client.value.read.Some? then s
      else s.(client := Some(s.client.value.(read := Some(s.cache))))
    case Poll =>
      if s.client.None? || s.client.value.read.None? || s.client.value.polled == |s.client.value.live| then s
      else s.(client := Some(s.client.value.(polled := s.client.value.polled + 1)))
  }

  function Run(s: State, steps: seq<Step>): State {
    if steps == [] then s else Next(Run(s, steps[..|steps| - 1]), steps[|steps| - 1])
  }

  function Initial(size: nat): State {
    State(size, Range(1, 0), 0, None)
  }

  /** The client got `id` from the replay. */
  predicate Replayed(c: Client, id: int) {
    c.read.Some? && InRange(id, c.read.value) && id > c.lastId
  }

  /** The cache is never cut below `size - 1` ids. */
  predicate WideEnough(r: Range, size: nat) {
    1 <= r.lo <= r.hi + 1 && (r.lo == 1 || r.hi - r.lo + 1 >= size - 1)
  }

  ghost predicate ClientOk(s: State, c: Client) {
    && 0 <= c.since <= s.published
    && |c.live| == s.published - c.since
    && (forall i :: 0 <= i < |c.live| ==> c.live[i] == c.since + 1 + i)
    && c.polled <= |c.live|
    && (c.read.Some? ==> WideEnough(c.read.value, s.size) && c.since <= c.read.value.hi <= s.cache.hi)
  }

  ghost predicate Inv(s: State) {
    && s.size >= 2 && WideEnough(s.cache, s.size)
    && s.cache.hi - 1 <= s.published <= s.cache.hi && 0 <= s.published
    && (s.client.Some? ==> ClientOk(s, s.client.value))
  }

  lemma NextKeepsInv(s: State, step: Step)
    requires Inv(s)
    ensures Inv(Next(s, step)) && Next(s, step).size == s.size
  {
  }

  lemma {:induction false} RunKeepsInv(size: nat, steps: seq<Step>)
    requires size >= 2
    ensures Inv(Run(Initial(size), steps)) && Run(Initial(size), steps).size == size
  {
    if steps != [] {
      RunKeepsInv(size, steps[..|steps| - 1]);
      NextKeepsInv(Run(Initial(size), steps[..|steps| - 1]), steps[|steps| - 1]);
    }
  }

  // ---------------------------------------------------------------- the sender is the channel

  /** The cache is that of `Channel` after as many sends: exactly between storing and publishing, and otherwise up to
      evictions of the next send that are already done. */
  ghost predicate FollowsChannel(s: State) {
    && s.published >= 0 && s.cache.hi >= 0
    && (s.published != s.cache.hi ==> s.cache == AfterSends(s.cache.hi, s.size))
    && (s.published == s.cache.hi ==>
          AfterSends(s.cache.hi, s.size).lo <= s.cache.lo <= AfterSends(s.cache.hi + 1, s.size).lo)
  }

  /** The oldest id after `n` sends. */
  function Oldest(n: nat, size: nat): nat {
    if n <= size then 1 else n - size + 1
  }

  lemma FollowsChannelAs(s: State)
    requires s.size >= 2
    ensures FollowsChannel(s) <==>
            && s.published >= 0 && s.cache.hi >= 0
            && (s.published != s.cache.hi ==> s.cache.lo == Oldest(s.cache.hi, s.size))
            && (s.published == s.cache.hi ==> Oldest(s.cache.hi, s.size) <= s.cache.lo <= Oldest(s.cache.hi + 1, s.size))
  {
    if s.cache.hi >= 0 {
      CachedIdsExact(s.cache.hi, s.size);
      CachedIdsExact(s.cache.hi + 1, s.size);
    }
  }

  lemma NextFollowsChannel(s: State, step: Step)
    requires Inv(s) && FollowsChannel(s)
    ensures FollowsChannel(Next(s, step))
  {
    FollowsChannelAs(s);
    FollowsChannelAs(Next(s, step));
  }

  /** In every interleaving the cache is the one that so many calls of `Send` leave. */
  lemma {:induction false} RunFollowsChannel(size: nat, steps: seq<Step>)
    requires size >= 2
    ensures FollowsChannel(Run(Initial(size), steps))
  {
    if steps == [] {
      CachedIdsExact(0, size);
      CachedIdsExact(1, size);
    } else {
      var init := steps[..|steps| - 1];
      RunKeepsInv(size, init);
      RunFollowsChannel(size, init);
      NextFollowsChannel(Run(Initial(size), init), steps[|steps| - 1]);
    }
  }

  /** The steps of one send: the evictions, the store, the publication. */
  function SendSteps(evictions: nat): seq<Step> {
    if evictions == 0 then [Store, Publish] else [Step.Evict] + SendSteps(evictions - 1)
  }

  lemma {:induction false} RunCons(s: State, step: Step, steps: seq<Step>)
    ensures Run(s, [step] + steps) == Run(Next(s, step), steps)
    decreases |steps|
  {
    if steps == [] {
      assert [step] + steps == [step];
      RunOne(s, step);
    } else {
      var init := steps[..|steps| - 1];
      assert ([step] + steps)[..|steps|] == [step] + init;
      RunCons(s, step, init);
    }
  }

  lemma RunOne(s: State, step: Step)
    ensures Run(s, [step]) == Next(s, step)
  {
    assert [step][..0] == [];
    assert Run(s, [step]) == Next(Run(s, [step][..0]), step);
  }

  /** Conversely, from a state with no send under way, the steps of one send do what `Send` does to the cache. */
  lemma {:induction false} SendStepsSend(s: State, evictions: nat)
    requires Inv(s) && s.published == s.cache.hi
    requires evictions == if Length(s.cache) >= s.size then Length(s.cache) - (s.size - 1) else 0
    ensures var t := Run(s, SendSteps(evictions));
            t.cache == AfterSend(s.cache, s.size) && t.published == t.cache.hi
    decreases evictions
  {
    if evictions == 0 {
      StoreAndPublish(s);
    } else {
      EvictedFirst(s);
      SendStepsSend(Next(s, Step.Evict), evictions - 1);
      EvictThenSend(s, evictions);
    }
  }

  /** An eviction is part of the send. */
  lemma EvictedFirst(s: State)
    requires Inv(s) && s.published == s.cache.hi && Length(s.cache) >= s.size
    ensures var t := Next(s, Step.Evict);
            && Inv(t) && t.size == s.size && t.published == t.cache.hi && Length(t.cache) == Length(s.cache) - 1
            && AfterSend(t.cache, s.size) == AfterSend(s.cache, s.size)
  {
    NextKeepsInv(s, Step.Evict);
  }

  lemma EvictThenSend(s: State, evictions: nat)
    requires evictions > 0
    ensures Run(s, SendSteps(evictions)) == Run(Next(s, Step.Evict), SendSteps(evictions - 1))
  {
    RunCons(s, Step.Evict, SendSteps(evictions - 1));
  }

  lemma StoreAndPublish(s: State)
    requires Inv(s) && s.published == s.cache.hi && Length(s.cache) < s.size
    ensures var t := Run(s, [Store, Publish]);
            t.cache == AfterSend(s.cache, s.size) && t.published == t.cache.hi
  {
    RunCons(s, Store, [Publish]);
    RunCons(Next(s, Store), Publish, []);
    assert [Store, Publish] == [Store] + [Publish] && [Publish] == [Publish] + [];
    assert Run(s, [Store, Publish]) == Next(Next(s, Store), Publish);
  }

  /** In every interleaving, once a client has replayed, every published id above its last one is in the replay or
      among its live messages, except those that were published before it subscribed and had been evicted when
      it read the cache; and an evicted id has at least `size - 1` successors in that cache. */
  lemma {:induction false} NothingLostUnlessEvicted(size: nat, steps: seq<Step>, id: int)
    requires size >= 2
    ensures var s := Run(Initial(size), steps);
            s.client.Some? && s.client.value.read.Some? && 1 <= id <= s.published && id > s.client.value.lastId ==>
              var c := s.client.value;
              && (!(Replayed(c, id) || id in c.live) <==> id <= c.since && id < c.read.value.lo)
              && (id < c.read.value.lo ==> id + size - 1 <= c.read.value.hi)
  {
    RunKeepsInv(size, steps);
    var s := Run(Initial(size), steps);
    if s.client.Some? && 1 <= id <= s.published {
      LiveExact(s, s.client.value, id);
    }
  }

  lemma LiveExact(s: State, c: Client, id: int)
    requires ClientOk(s, c)
    ensures id in c.live <==> c.since < id <= s.published
  {
    if c.since < id <= s.published {
      assert c.live[id - c.since - 1] == id;
    }
  }

  /** The price: an id that was published between subscription and replay is delivered twice, and no other is. */
  lemma {:induction false} DeliveredTwiceExactly(size: nat, steps: seq<Step>, id: int)
    requires size >= 2
    ensures var s := Run(Initial(size), steps);
            s.client.Some? && s.client.value.read.Some? && id <= s.published ==>
              var c := s.client.value;
              Replayed(c, id) && id in c.live <==>
              c.since < id && c.lastId < id && InRange(id, c.read.value)
  {
    RunKeepsInv(size, steps);
    var s := Run(Initial(size), steps);
    if s.client.Some? {
      LiveExact(s, s.client.value, id);
    }
  }

  /** A client that subscribes to a new channel and finds nothing to replay gets the first message live. */
  lemma FirstMessage()
    ensures var s := Run(Initial(100), [Subscribe(0)] + ([Read] + ([Store] + ([Publish] + ([Poll] + [])))));
            s.client == Some(Client(0, 0, Some(Range(1, 0)), [1], 1)) && s.cache == Range(1, 1) && s.published == 1
  {
    var s0 := Initial(100);
    var s1 := Next(s0, Subscribe(0));
    var s2 := Next(s1, Read);
    var s3 := Next(s2, Store);
    var s4 := Next(s3, Publish);
    RunCons(s0, Subscribe(0), [Read] + ([Store] + ([Publish] + ([Poll] + []))));
    RunCons(s1, Read, [Store] + ([Publish] + ([Poll] + [])));
    RunCons(s2, Store, [Publish] + ([Poll] + []));
    RunCons(s3, Publish, [Poll] + []);
    RunCons(s4, Poll, []);
    assert s1.client == Some(Client(0, 0, None, [], 0)) && s2.client == Some(Client(0, 0, Some(Range(1, 0)), [], 0));
    assert [] + [1] == [1] && s4.client == Some(Client(0, 0, Some(Range(1, 0)), [1], 0));
    assert Run(Next(s4, Poll), []) == Next(s4, Poll);
  }
}
