/**
 * The in-process TTL cache of src/lib/translation-cache.ts.
 *
 * The process-wide `CACHE` is a JavaScript `Map`, which remembers the order
 * in which keys were first inserted: overwriting a key keeps its place, and
 * deleting it forgets it. A `Snapshot` is that map as a value, a `map` of
 * entries beside the insertion order of its keys; the `Cache` class holds the
 * same two fields and its methods change them as the source's do.
 */
module TranslationCache {
  import opened Wrappers
  import Env

  const DefaultTtlMs: int := 300000
  const DefaultMaxEntries: int := 500

  /** A stored translation with the instant (epoch ms) it stops being served. */
  datatype Entry = Entry(translatedText: string, provider: string, detectedSourceLang: Option<string>, expiresAt: int)

  /** What a caller stores and reads back: an entry without its expiry. */
  datatype Cached = Cached(translatedText: string, provider: string, detectedSourceLang: Option<string>)

  /** `TRANSLATION_CACHE_TTL_MS` and `TRANSLATION_CACHE_MAX_ENTRIES`, as parsed. */
  datatype Settings = Settings(ttlEnv: Option<int>, maxEnv: Option<int>)

  /** `getCacheTtlMs`: a positive parsed value, else five minutes. */
  function TtlMs(env: Option<int>): (r: int)
    ensures r > 0
    ensures r == (if env.Some? && env.value > 0 then env.value else 300000)
  {
    Env.PositiveOr(env, DefaultTtlMs)
  }

  /** `getMaxEntries`: a positive parsed value, else 500. */
  function MaxEntries(env: Option<int>): (r: int)
    ensures r > 0
    ensures r == (if env.Some? && env.value > 0 then env.value else 500)
  {
    Env.PositiveOr(env, DefaultMaxEntries)
  }

  function Stamp(value: Cached, expiresAt: int): Entry
  {
    Entry(value.translatedText, value.provider, value.detectedSourceLang, expiresAt)
  }

  function Unstamp(e: Entry): Cached
  {
    Cached(e.translatedText, e.provider, e.detectedSourceLang)
  }

  ghost predicate Distinct(s: seq<string>)
  {
    forall i, j :: 0 <= i < j < |s| ==> s[i] != s[j]
  }

  /** `s` with every occurrence of `k` taken out, the rest in order. */
  function Without(s: seq<string>, k: string): (r: seq<string>)
    ensures |r| <= |s|
  {
    if s == [] then []
    else (if s[0] == k then [] else [s[0]]) + Without(s[1..], k)
  }

  lemma {:induction false} WithoutMembers(s: seq<string>, k: string)
    ensures forall x :: x in Without(s, k) <==> x in s && x != k
  {
    if s != [] {
      WithoutMembers(s[1..], k);
      assert s == [s[0]] + s[1..];
    }
  }

  lemma {:induction false} WithoutAbsent(s: seq<string>, k: string)
    requires k !in s
    ensures Without(s, k) == s
  {
    if s != [] {
      WithoutAbsent(s[1..], k);
    }
  }

  lemma {:induction false} WithoutConcat(a: seq<string>, b: seq<string>, k: string)
    ensures Without(a + b, k) == Without(a, k) + Without(b, k)
  {
    if a == [] {
      assert a + b == b;
    } else {
      assert (a + b)[1..] == a[1..] + b;
      WithoutConcat(a[1..], b, k);
    }
  }

  lemma DistinctCons(x: string, s: seq<string>)
    requires Distinct(s) && x !in s
    ensures Distinct([x] + s)
  {
    forall i, j | 0 <= i < j < |[x] + s| ensures ([x] + s)[i] != ([x] + s)[j] {
      if i > 0 {
        assert ([x] + s)[i] == s[i - 1];
      }
      assert ([x] + s)[j] == s[j - 1];
    }
  }

  lemma {:induction false} WithoutKeepsDistinct(s: seq<string>, k: string)
    requires Distinct(s)
    ensures Distinct(Without(s, k))
  {
    if s != [] {
      WithoutKeepsDistinct(s[1..], k);
      WithoutMembers(s[1..], k);
      if s[0] != k {
        assert s[0] !in s[1..];
        DistinctCons(s[0], Without(s[1..], k));
      } else {
        assert [] + Without(s[1..], k) == Without(s[1..], k);
      }
    }
  }

  lemma DistinctSnoc(s: seq<string>, x: string)
    requires Distinct(s) && x !in s
    ensures Distinct(s + [x])
  {
    forall i, j | 0 <= i < j < |s + [x]| ensures (s + [x])[i] != (s + [x])[j] {
      assert (s + [x])[i] == s[i];
    }
  }

  lemma SuffixMembers(s: seq<string>, d: nat, x: string)
    requires d <= |s| && x in s[d..]
    ensures x in s
  {
    var i :| 0 <= i < |s[d..]| && s[d..][i] == x;
    assert s[d + i] == x;
  }

  lemma SuffixKeepsDistinct(s: seq<string>, d: nat)
    requires Distinct(s) && d <= |s|
    ensures Distinct(s[d..])
  {
    forall i, j | 0 <= i < j < |s[d..]| ensures s[d..][i] != s[d..][j] {
      assert s[d..][i] == s[d + i] && s[d..][j] == s[d + j];
    }
  }

  /** A sequence without repetitions has as many elements as the set of them. */
  lemma {:induction false} DistinctCardinality(s: seq<string>)
    requires Distinct(s)
    ensures |set x | x in s| == |s|
  {
    if s != [] {
      DistinctCardinality(s[1..]);
      assert (set x | x in s) == (set x | x in s[1..]) + {s[0]};
      assert s[0] !in s[1..];
    }
  }

  /** The keys of `order` whose entries are still live at `now`, in order. */
  function Live(order: seq<string>, entries: map<string, Entry>, now: int): (r: seq<string>)
    requires forall k :: k in order ==> k in entries
    ensures |r| <= |order|
  {
    if order == [] then []
    else
      var last := order[|order| - 1];
      Live(order[..|order| - 1], entries, now) + (if entries[last].expiresAt > now then [last] else [])
  }

  lemma {:induction false} LiveMembers(order: seq<string>, entries: map<string, Entry>, now: int)
    requires forall k :: k in order ==> k in entries
    ensures forall k :: k in Live(order, entries, now) <==> k in order && entries[k].expiresAt > now
  {
    if order != [] {
      LiveMembers(order[..|order| - 1], entries, now);
      assert order == order[..|order| - 1] + [order[|order| - 1]];
    }
  }

  lemma {:induction false} LiveKeepsDistinct(order: seq<string>, entries: map<string, Entry>, now: int)
    requires forall k :: k in order ==> k in entries
    requires Distinct(order)
    ensures Distinct(Live(order, entries, now))
  {
    if order != [] {
      var prefix, last := order[..|order| - 1], order[|order| - 1];
      LiveKeepsDistinct(prefix, entries, now);
      if entries[last].expiresAt > now {
        LiveMembers(prefix, entries, now);
        assert last !in prefix;
        DistinctSnoc(Live(prefix, entries, now), last);
      } else {
        assert Live(order, entries, now) == Live(prefix, entries, now);
      }
    }
  }

  lemma LiveAppend(order: seq<string>, k: string, entries: map<string, Entry>, now: int)
    requires forall x :: x in order + [k] ==> x in entries
    ensures Live(order + [k], entries, now)
         == Live(order, entries, now) + (if entries[k].expiresAt > now then [k] else [])
  {
    assert (order + [k])[..|order|] == order;
  }

  /**
   * How many keys the eviction loop of `prune` drops from the front of
   * `order`: while the map is over `max` it drops the oldest key, and it stops
   * early when there is no key or the oldest key is the empty string, which
   * the source's `!firstKey` test treats like a missing key.
   */
  function Dropped(order: seq<string>, max: int): (d: nat)
    ensures d <= |order|
    decreases |order|
  {
    if |order| > max && order != [] && order[0] != "" then 1 + Dropped(order[1..], max) else 0
  }

  /** The keys the eviction loop leaves, in order. */
  function Evict(order: seq<string>, max: int): (r: seq<string>)
  {
    order[Dropped(order, max)..]
  }

  /**
   * With a bound of at least one and no empty key before the last position,
   * eviction reaches the bound: an empty key can only stop it once it is the
   * one key left.
   */
  lemma {:induction false} EvictReachesBound(order: seq<string>, max: int)
    requires max >= 1 && forall i :: 0 <= i < |order| - 1 ==> order[i] != ""
    ensures |Evict(order, max)| <= max
    decreases |order|
  {
    if |order| > max {
      assert order[0] != "";
      forall i | 0 <= i < |order[1..]| - 1 ensures order[1..][i] != "" {
        assert order[1..][i] == order[i + 1];
      }
      EvictReachesBound(order[1..], max);
      assert order[1..][Dropped(order[1..], max)..] == order[Dropped(order, max)..];
    }
  }

  /** Eviction only ever drops from the front, so a tail no longer than the bound survives it. */
  lemma {:induction false} EvictKeepsShortTail(prefix: seq<string>, tail: seq<string>, max: int)
    requires |tail| <= max
    ensures Dropped(prefix + tail, max) <= |prefix|
    decreases |prefix|
  {
    if prefix == [] {
      assert prefix + tail == tail;
    } else {
      var o := prefix + tail;
      if |o| > max && o[0] != "" {
        assert o[1..] == prefix[1..] + tail;
        EvictKeepsShortTail(prefix[1..], tail, max);
      }
    }
  }

  function Restrict(entries: map<string, Entry>, keys: seq<string>): map<string, Entry>
  {
    map k | k in entries && k in keys :: entries[k]
  }

  /** The contents of a JavaScript `Map` from keys to entries. */
  datatype Snapshot = Snapshot(entries: map<string, Entry>, order: seq<string>) {

    /** `order` lists each key of `entries` exactly once. */
    ghost predicate Valid()
    {
      Distinct(order) && forall k :: k in entries <==> k in order
    }

    /** `Map.prototype.size`. */
    function Size(): int { |entries| }

    /** `Map.prototype.delete`. */
    function Remove(key: string): Snapshot
    {
      Snapshot(entries - {key}, Without(order, key))
    }

    /** `Map.prototype.set`: a new key goes last, an existing key keeps its place. */
    function Put(key: string, e: Entry): Snapshot
    {
      Snapshot(entries[key := e], if key in entries then order else order + [key])
    }
  }

  lemma SizeIsOrderLength(s: Snapshot)
    requires s.Valid()
    ensures s.Size() == |s.order|
  {
    DistinctCardinality(s.order);
    assert s.entries.Keys == set x | x in s.order;
  }

  lemma RemoveKeepsValid(s: Snapshot, key: string)
    requires s.Valid()
    ensures s.Remove(key).Valid()
  {
    WithoutKeepsDistinct(s.order, key);
    WithoutMembers(s.order, key);
  }

  lemma PutKeepsValid(s: Snapshot, key: string, e: Entry)
    requires s.Valid()
    ensures s.Put(key, e).Valid()
  {
  }

  /**
   * `prune(now)` with the bound `max`: every expired entry goes, then the
   * oldest keys go until the bound is met (or the oldest key is empty).
   */
  function PruneSpec(s: Snapshot, now: int, max: int): (r: Snapshot)
    requires s.Valid()
    ensures r.Valid()
    ensures forall k :: k in r.entries ==> k in s.entries && r.entries[k] == s.entries[k] && s.entries[k].expiresAt > now
    ensures r.order == Live(s.order, s.entries, now)[Dropped(Live(s.order, s.entries, now), max)..]
    ensures r.entries == Restrict(s.entries, r.order)
  {
    var live := Live(s.order, s.entries, now);
    LiveKeepsDistinct(s.order, s.entries, now);
    LiveMembers(s.order, s.entries, now);
    SuffixKeepsDistinct(live, Dropped(live, max));
    var kept := Evict(live, max);
    forall k | k in kept ensures k in live { SuffixMembers(live, Dropped(live, max), k); }
    Snapshot(Restrict(s.entries, kept), kept)
  }

  /** The expiry loop of `prune` on its own: the expired entries go, the others keep their order. */
  function ExpireSpec(s: Snapshot, now: int): (r: Snapshot)
    requires s.Valid()
    ensures r.Valid()
    ensures r.order == Live(s.order, s.entries, now) && r.entries == Restrict(s.entries, r.order)
  {
    var live := Live(s.order, s.entries, now);
    LiveKeepsDistinct(s.order, s.entries, now);
    LiveMembers(s.order, s.entries, now);
    Snapshot(Restrict(s.entries, live), live)
  }

  /** The eviction loop of `prune` on its own: the oldest keys go, as `Dropped` counts them. */
  function EvictSpec(s: Snapshot, max: int): (r: Snapshot)
    requires s.Valid()
    ensures r.Valid()
    ensures r.order == Evict(s.order, max) && r.entries == Restrict(s.entries, r.order)
  {
    var kept := Evict(s.order, max);
    SuffixKeepsDistinct(s.order, Dropped(s.order, max));
    forall k | k in kept ensures k in s.order { SuffixMembers(s.order, Dropped(s.order, max), k); }
    Snapshot(Restrict(s.entries, kept), kept)
  }

  /** `prune` is its expiry loop followed by its eviction loop. */
  lemma PruneIsExpireThenEvict(s: Snapshot, now: int, max: int)
    requires s.Valid()
    ensures PruneSpec(s, now, max) == EvictSpec(ExpireSpec(s, now), max)
  {
    var e := ExpireSpec(s, now);
    var kept := Evict(e.order, max);
    forall k | k in kept ensures k in e.order { SuffixMembers(e.order, Dropped(e.order, max), k); }
    assert Restrict(e.entries, kept) == Restrict(s.entries, kept);
  }

  /** What a lookup returns and the state it leaves behind. */
  datatype Lookup = Lookup(after: Snapshot, hit: Option<Cached>)

  /** `getCachedTranslation(key)` at time `now`: expired entries are deleted when read. */
  function GetSpec(s: Snapshot, key: string, now: int): (r: Lookup)
    requires s.Valid()
    ensures r.after.Valid()
    ensures r.hit.Some? <==> key in s.entries && s.entries[key].expiresAt > now
    ensures r.hit.Some? ==> r.hit.value == Unstamp(s.entries[key])
    ensures r.after == if key in s.entries && s.entries[key].expiresAt <= now then s.Remove(key) else s
  {
    if key !in s.entries then Lookup(s, None)
    else if s.entries[key].expiresAt <= now then
      RemoveKeepsValid(s, key);
      Lookup(s.Remove(key), None)
    else Lookup(s, Some(Unstamp(s.entries[key])))
  }

  /** `setCachedTranslation(key, value)` at time `now`, with the TTL and the bound given. */
  function SetSpec(s: Snapshot, key: string, value: Cached, now: int, ttlMs: int, max: int): (r: Snapshot)
    requires s.Valid()
    ensures r.Valid()
    ensures forall k :: k in r.entries ==>
              if k == key then r.entries[k] == Stamp(value, now + ttlMs) else k in s.entries && r.entries[k] == s.entries[k]
  {
    var stored := s.Put(key, Stamp(value, now + ttlMs));
    if stored.Size() > max then PruneSpec(stored, now, max) else stored
  }

  /** A key that was already present keeps its position when overwritten. */
  lemma OverwriteKeepsPosition(s: Snapshot, key: string, value: Cached, now: int, ttlMs: int, max: int)
    requires s.Valid() && key in s.entries && s.Size() <= max
    ensures SetSpec(s, key, value, now, ttlMs, max).order == s.order
    ensures SetSpec(s, key, value, now, ttlMs, max).entries == s.entries[key := Stamp(value, now + ttlMs)]
  {
    assert s.Put(key, Stamp(value, now + ttlMs)).entries.Keys == s.entries.Keys;
  }

  /** With room to spare, a new key goes last and nothing is pruned, expired entries included. */
  lemma SetNewKeyGoesLast(s: Snapshot, key: string, value: Cached, now: int, ttlMs: int, max: int)
    requires s.Valid() && key !in s.entries && s.Size() < max
    ensures SetSpec(s, key, value, now, ttlMs, max).order == s.order + [key]
    ensures SetSpec(s, key, value, now, ttlMs, max).entries == s.entries[key := Stamp(value, now + ttlMs)]
  {
    assert s.Put(key, Stamp(value, now + ttlMs)).entries.Keys == s.entries.Keys + {key};
  }

  /**
   * A value just stored reads back, unchanged, at every instant before it
   * expires, provided the cache was within its bound before the call.
   */
  lemma SetThenGet(s: Snapshot, key: string, value: Cached, now: int, ttlMs: int, max: int, later: int)
    requires s.Valid() && s.Size() <= max && max >= 1 && ttlMs > 0
    requires now <= later < now + ttlMs
    ensures GetSpec(SetSpec(s, key, value, now, ttlMs, max), key, later).hit == Some(value)
  {
    var e := Stamp(value, now + ttlMs);
    var stored := s.Put(key, e);
    if stored.Size() > max {
      assert key !in s.entries;
      PruneKeepsNewKey(s, key, e, now, max);
    }
    var r := SetSpec(s, key, value, now, ttlMs, max);
    assert key in r.entries && r.entries[key] == e;
  }

  /** A live key just appended survives a prune with a bound of at least one: it is the newest. */
  lemma PruneKeepsNewKey(s: Snapshot, key: string, e: Entry, now: int, max: int)
    requires s.Valid() && max >= 1 && key !in s.entries && e.expiresAt > now
    ensures var r := PruneSpec(s.Put(key, e), now, max); key in r.entries && r.entries[key] == e
  {
    var stored := s.Put(key, e);
    assert stored.order == s.order + [key] && stored.entries[key] == e;
    LiveAppend(s.order, key, stored.entries, now);
    var front := Live(s.order, stored.entries, now);
    var live := front + [key];
    assert Live(stored.order, stored.entries, now) == live;
    EvictKeepsShortTail(front, [key], max);
    var d := Dropped(live, max);
    assert live[d..][|front| - d] == key;
    var r := PruneSpec(stored, now, max);
    assert r.order == live[d..];
    assert key in r.order;
  }

  /**
   * The bound holds after a call when it held before and no stored key is the
   * empty string. The key being stored may be empty: it goes last, where it
   * can stop eviction only once it is the one key left.
   */
  /** Keys appended after a run of non-empty keys leave at most the last live key empty. */
  lemma LiveAppendedNonEmpty(order: seq<string>, key: string, entries: map<string, Entry>, now: int)
    requires forall x :: x in order + [key] ==> x in entries
    requires "" !in order
    ensures forall i :: 0 <= i < |Live(order + [key], entries, now)| - 1 ==> Live(order + [key], entries, now)[i] != ""
  {
    LiveAppend(order, key, entries, now);
    LiveMembers(order, entries, now);
    var front := Live(order, entries, now);
    var live := Live(order + [key], entries, now);
    assert "" !in front;
    forall i | 0 <= i < |live| - 1 ensures live[i] != "" {
      assert live[i] == front[i];
    }
  }

  lemma SetKeepsBound(s: Snapshot, key: string, value: Cached, now: int, ttlMs: int, max: int)
    requires s.Valid() && s.Size() <= max && max >= 1
    requires "" !in s.entries
    ensures SetSpec(s, key, value, now, ttlMs, max).Size() <= max
  {
    var stored := s.Put(key, Stamp(value, now + ttlMs));
    if stored.Size() > max {
      assert key !in s.entries;
      assert stored.order == s.order + [key];
      assert "" !in s.order;
      LiveAppendedNonEmpty(s.order, key, stored.entries, now);
      EvictReachesBound(Live(stored.order, stored.entries, now), max);
      SizeIsOrderLength(PruneSpec(stored, now, max));
    }
  }

  /** When nothing has expired, the filter keeps every key. */
  lemma {:induction false} LiveAll(order: seq<string>, entries: map<string, Entry>, now: int)
    requires forall k :: k in order ==> k in entries && entries[k].expiresAt > now
    ensures Live(order, entries, now) == order
  {
    if order != [] {
      LiveAll(order[..|order| - 1], entries, now);
      assert order == order[..|order| - 1] + [order[|order| - 1]];
    }
  }

  /** When nothing has expired, the expiry loop changes nothing. */
  lemma NothingExpired(s: Snapshot, now: int)
    requires s.Valid() && forall k :: k in s.entries ==> s.entries[k].expiresAt > now
    ensures ExpireSpec(s, now) == s
  {
    LiveAll(s.order, s.entries, now);
  }

  /** An empty oldest key stops the eviction loop before it drops anything. */
  lemma EmptyOldestKeyBlocksEviction(s: Snapshot, max: int)
    requires s.Valid() && s.order != [] && s.order[0] == ""
    ensures EvictSpec(s, max) == s
  {
    assert s.order[0..] == s.order;
  }

  /**
   * The empty string as the oldest key stops eviction: when every entry is
   * live, the cache is full and its oldest key is `""`, storing one more key
   * leaves the cache above its bound.
   */
  lemma EmptyOldestKeyStopsEviction(s: Snapshot, key: string, value: Cached, now: int, ttlMs: int, max: int)
    requires s.Valid() && s.order != [] && s.order[0] == "" && key !in s.entries
    requires s.Size() == max && ttlMs > 0
    requires forall k :: k in s.entries ==> s.entries[k].expiresAt > now
    ensures SetSpec(s, key, value, now, ttlMs, max).Size() == max + 1
  {
    var stored := s.Put(key, Stamp(value, now + ttlMs));
    assert stored.order[0] == "";
    PruneIsExpireThenEvict(stored, now, max);
    NothingExpired(stored, now);
    EmptyOldestKeyBlocksEviction(stored, max);
  }

  /** One round of the expiry loop of `prune`, on the key at position `i`. */
  lemma ExpiryStep(keys: seq<string>, i: nat, entries: map<string, Entry>, now: int, order: seq<string>)
    requires i < |keys| && Distinct(keys) && forall k :: k in keys ==> k in entries
    requires order == Live(keys[..i], entries, now) + keys[i..]
    ensures entries[keys[i]].expiresAt <= now ==>
              Without(order, keys[i]) == Live(keys[..i + 1], entries, now) + keys[i + 1..]
    ensures entries[keys[i]].expiresAt > now ==>
              order == Live(keys[..i + 1], entries, now) + keys[i + 1..]
  {
    var key := keys[i];
    var done := Live(keys[..i], entries, now);
    assert keys[..i + 1] == keys[..i] + [key];
    LiveAppend(keys[..i], key, entries, now);
    assert keys[i..] == [key] + keys[i + 1..];
    assert order == done + [key] + keys[i + 1..];
    if entries[key].expiresAt <= now {
      LiveMembers(keys[..i], entries, now);
      assert key !in keys[..i] && key !in keys[i + 1..] by {
        forall j | 0 <= j < |keys| && j != i ensures keys[j] != key { }
      }
      WithoutConcat(done + [key], keys[i + 1..], key);
      WithoutConcat(done, [key], key);
      WithoutAbsent(done, key);
      WithoutAbsent(keys[i + 1..], key);
      assert Without([key], key) == [];
    }
  }

  /** One round of the eviction loop of `prune`, which drops the oldest key. */
  lemma EvictionStep(live: seq<string>, j: nat, max: int)
    requires Distinct(live) && j < |live| && |live[j..]| > max && live[j] != ""
    requires Dropped(live, max) == j + Dropped(live[j..], max)
    ensures Without(live[j..], live[j]) == live[j + 1..]
    ensures Dropped(live, max) == j + 1 + Dropped(live[j + 1..], max)
  {
    var o := live[j..];
    assert o[1..] == live[j + 1..];
    assert live[j] !in o[1..] by {
      forall m | j < m < |live| ensures live[m] != live[j] { }
    }
    assert o == [live[j]] + o[1..];
    WithoutConcat([live[j]], o[1..], live[j]);
    WithoutAbsent(o[1..], live[j]);
    assert Without([live[j]], live[j]) == [];
  }

  /** Restricting to a key list without `k` is restricting to the list and then deleting `k`. */
  lemma RestrictWithout(e0: map<string, Entry>, order: seq<string>, k: string)
    ensures Restrict(e0, Without(order, k)) == Restrict(e0, order) - {k}
  {
    WithoutMembers(order, k);
  }

  /** The state of the expiry loop after its first `i` rounds over `keys`. */
  function ExpiredUpTo(e0: map<string, Entry>, keys: seq<string>, i: nat, now: int): Snapshot
    requires i <= |keys| && forall k :: k in keys ==> k in e0
  {
    assert forall k :: k in keys[..i] ==> k in keys;
    var order := Live(keys[..i], e0, now) + keys[i..];
    Snapshot(Restrict(e0, order), order)
  }

  /** Before the first round the expiry loop has changed nothing. */
  lemma ExpiredNone(s: Snapshot, now: int)
    requires s.Valid()
    ensures ExpiredUpTo(s.entries, s.order, 0, now) == s
  {
    assert s.order[..0] == [];
    assert s.order[0..] == s.order;
  }

  /** After the last round the expiry loop has done what `ExpireSpec` says. */
  lemma ExpiredAll(s: Snapshot, now: int)
    requires s.Valid()
    ensures ExpiredUpTo(s.entries, s.order, |s.order|, now) == ExpireSpec(s, now)
  {
    assert s.order[..|s.order|] == s.order;
    assert s.order[|s.order|..] == [];
    assert Live(s.order, s.entries, now) + [] == Live(s.order, s.entries, now);
  }

  /** One round of the expiry loop deletes the key at position `i` exactly when it has expired. */
  lemma ExpiryRound(e0: map<string, Entry>, keys: seq<string>, i: nat, now: int)
    requires i < |keys| && Distinct(keys) && forall k :: k in keys ==> k in e0
    ensures var before := ExpiredUpTo(e0, keys, i, now);
      && keys[i] in before.entries && before.entries[keys[i]] == e0[keys[i]]
      && ExpiredUpTo(e0, keys, i + 1, now) == (if e0[keys[i]].expiresAt <= now then before.Remove(keys[i]) else before)
  {
    var order := Live(keys[..i], e0, now) + keys[i..];
    assert keys[i] in keys[i..];
    ExpiryStep(keys, i, e0, now, order);
    if e0[keys[i]].expiresAt <= now {
      RestrictWithout(e0, order, keys[i]);
    }
  }

  /** The state of the eviction loop once it has dropped the first `j` keys of `s`. */
  function EvictedUpTo(s: Snapshot, j: nat): Snapshot
    requires j <= |s.order|
  {
    Snapshot(Restrict(s.entries, s.order[j..]), s.order[j..])
  }

  lemma EvictedValid(s: Snapshot, j: nat)
    requires s.Valid() && j <= |s.order|
    ensures EvictedUpTo(s, j).Valid()
  {
    SuffixKeepsDistinct(s.order, j);
    forall k | k in s.order[j..] ensures k in s.order { SuffixMembers(s.order, j, k); }
  }

  /** One round of the eviction loop deletes the oldest remaining key. */
  lemma EvictionRound(s: Snapshot, j: nat, max: int)
    requires s.Valid() && j < |s.order| && |s.order[j..]| > max && s.order[j] != ""
    requires Dropped(s.order, max) == j + Dropped(s.order[j..], max)
    ensures EvictedUpTo(s, j + 1) == EvictedUpTo(s, j).Remove(s.order[j])
    ensures Dropped(s.order, max) == j + 1 + Dropped(s.order[j + 1..], max)
  {
    EvictionStep(s.order, j, max);
    RestrictWithout(s.entries, s.order[j..], s.order[j]);
  }

  /** A round of the eviction loop that does not stop moves it one key on. */
  lemma EvictionGoesOn(s: Snapshot, j: nat, max: int)
    requires s.Valid() && j <= |s.order|
    requires Dropped(s.order, max) == j + Dropped(s.order[j..], max)
    requires EvictedUpTo(s, j).Size() > max && s.order[j..] != [] && s.order[j..][0] != ""
    ensures j < |s.order| && s.order[j..][0] == s.order[j]
    ensures EvictedUpTo(s, j + 1) == EvictedUpTo(s, j).Remove(s.order[j])
    ensures Dropped(s.order, max) == j + 1 + Dropped(s.order[j + 1..], max)
  {
    EvictedValid(s, j);
    SizeIsOrderLength(EvictedUpTo(s, j));
    EvictionRound(s, j, max);
  }

  /** Once the eviction loop stops, its state is the one `EvictSpec` describes. */
  lemma EvictionStops(s: Snapshot, j: nat, max: int)
    requires s.Valid() && j <= |s.order|
    requires Dropped(s.order, max) == j + Dropped(s.order[j..], max)
    requires EvictedUpTo(s, j).Size() <= max || s.order[j..] == [] || s.order[j..][0] == ""
    ensures EvictedUpTo(s, j) == EvictSpec(s, max)
  {
    EvictedValid(s, j);
    SizeIsOrderLength(EvictedUpTo(s, j));
    assert Dropped(s.order[j..], max) == 0;
  }

  /** The process-wide cache of src/lib/translation-cache.ts as an object. */
  class Cache {
    var entries: map<string, Entry>
    var order: seq<string>

    function Model(): Snapshot reads this { Snapshot(entries, order) }

    ghost predicate Valid() reads this { Model().Valid() }

    constructor ()
      ensures Valid() && Model() == Snapshot(map[], [])
    {
      entries := map[];
      order := [];
    }

    /** `CACHE.delete(key)`. */
    method Delete(key: string)
      requires Valid()
      modifies this
      ensures Valid() && Model() == old(Model()).Remove(key)
    {
      RemoveKeepsValid(Model(), key);
      entries := entries - {key};
      order := Without(order, key);
    }

    /** `CACHE.set(key, e)`. */
    method Store(key: string, e: Entry)
      requires Valid()
      modifies this
      ensures Valid() && Model() == old(Model()).Put(key, e)
    {
      PutKeepsValid(Model(), key, e);
      if key !in entries {
        order := order + [key];
      }
      entries := entries[key := e];
    }

    /** The first loop of `prune`: delete every entry expired at `now`. */
    method RemoveExpired(now: int)
      requires Valid()
      modifies this
      ensures Valid() && Model() == ExpireSpec(old(Model()), now)
    {
      ghost var s0 := Model();
      var keys := order;
      var e, o := entries, order;
      var i := 0;
      ExpiredNone(s0, now);
      while i < |keys|
        invariant 0 <= i <= |keys|
        invariant Snapshot(e, o) == ExpiredUpTo(s0.entries, keys, i, now)
      {
        var key := keys[i];
        ExpiryRound(s0.entries, keys, i, now);
        if e[key].expiresAt <= now {
          e := e - {key};
          o := Without(o, key);
        }
        i := i + 1;
      }
      ExpiredAll(s0, now);
      entries, order := e, o;
    }

    /** The second loop of `prune`: drop the oldest key while the map is over `max`. */
    method EvictOldest(max: int)
      requires Valid()
      modifies this
      ensures Valid() && Model() == EvictSpec(old(Model()), max)
    {
      ghost var s0 := Model();
      var e, o := entries, order;
      ghost var j := 0;
      assert s0.order[0..] == s0.order;
      while |e| > max
        invariant 0 <= j <= |s0.order| && Snapshot(e, o) == EvictedUpTo(s0, j)
        invariant Dropped(s0.order, max) == j + Dropped(o, max)
        decreases |s0.order| - j
      {
        if o == [] || o[0] == "" {
          break;
        }
        var firstKey := o[0];
        EvictionGoesOn(s0, j, max);
        e := e - {firstKey};
        o := Without(o, firstKey);
        j := j + 1;
      }
      EvictionStops(s0, j, max);
      EvictedValid(s0, j);
      entries, order := e, o;
    }

    /** `prune(now)`, with the bound `getMaxEntries()` passed in as `max`. */
    method Prune(now: int, max: int)
      requires Valid()
      modifies this
      ensures Valid() && Model() == PruneSpec(old(Model()), now, max)
    {
      ghost var s0 := Model();
      RemoveExpired(now);
      EvictOldest(max);
      PruneIsExpireThenEvict(s0, now, max);
    }

    /** `getCachedTranslation(key)` at time `now`. */
    method Get(key: string, now: int) returns (r: Option<Cached>)
      requires Valid()
      modifies this
      ensures Valid() && Lookup(Model(), r) == GetSpec(old(Model()), key, now)
    {
      if key !in entries {
        return None;
      }
      var entry := entries[key];
      if entry.expiresAt <= now {
        Delete(key);
        return None;
      }
      return Some(Unstamp(entry));
    }

    /** `setCachedTranslation(key, value)` at time `now`. */
    method Set(key: string, value: Cached, now: int, env: Settings)
      requires Valid()
      modifies this
      ensures Valid() && Model() == SetSpec(old(Model()), key, value, now, TtlMs(env.ttlEnv), MaxEntries(env.maxEnv))
    {
      var ttlMs := TtlMs(env.ttlEnv);
      var max := MaxEntries(env.maxEnv);
      ghost var s0 := Model();
      ghost var stored := s0.Put(key, Stamp(value, now + ttlMs));
      ghost var spec := SetSpec(s0, key, value, now, ttlMs, max);
      Store(key, Stamp(value, now + ttlMs));
      if |entries| > max {
        Prune(now, max);
        assert Model() == PruneSpec(stored, now, max) == spec;
      } else {
        assert Model() == stored == spec;
      }
    }
  }
}
