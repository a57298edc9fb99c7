/**
 The rolling-hour cap (internal/controller/ratelimit.go): a count of persisted records, cached
 for a caller-supplied time to live and bumped by every trigger the operator records.
 */
module RateLimiter {
  import opened Common

  const HOUR := 3600

  /** `queriedAt` is when `count` was last computed or bumped. */
  datatype Entry = Entry(queriedAt: int, count: nat)

  datatype Answer = Answer(entry: Option<Entry>, count: Option<nat>)

  predicate Fresh(entry: Option<Entry>, now: int, ttl: int) {
    entry.Some? && now - entry.value.queriedAt < ttl
  }

  /** count: serve a fresh entry, otherwise list. `listed` is the number of records newer than
      an hour before `now`, or None when the list call failed; then nothing is cached. */
  function CountStep(entry: Option<Entry>, now: int, ttl: int, listed: Option<nat>): Answer {
    if Fresh(entry, now, ttl) then Answer(entry, Some(entry.value.count))
    else if listed.None? then Answer(entry, None)
    else Answer(Some(Entry(now, listed.value)), listed)
  }

  /** Observe: bump what is cached; without an entry the next list will include the record. */
  function Bump(entry: Option<Entry>, now: int): Option<Entry> {
    if entry.None? then None else Some(Entry(now, entry.value.count + 1))
  }

  function CountAfter(times: seq<int>, cutoff: int): (n: nat)
    ensures n <= |times|
  {
    if times == [] then 0
    else CountAfter(times[..|times| - 1], cutoff) + if times[|times| - 1] > cutoff then 1 else 0
  }

  /** Counting the list is counting the positions that hold a later time. */
  lemma {:induction false} CountAfterCounts(times: seq<int>, cutoff: int)
    ensures CountAfter(times, cutoff) == |set i | 0 <= i < |times| && times[i] > cutoff|
  {
    var all := set i | 0 <= i < |times| && times[i] > cutoff;
    if times != [] {
      var n := |times| - 1;
      CountAfterCounts(times[..n], cutoff);
      var some := set i | 0 <= i < |times[..n]| && times[..n][i] > cutoff;
      if times[n] > cutoff {
        assert all == some + {n};
      } else {
        assert all == some;
      }
    }
  }

  function NewerThan<K>(keys: seq<K>, at: map<K, int>, cutoff: int): set<K> {
    set k | k in keys && k in at && at[k] > cutoff
  }

  /** The list holds one entry per stored record: counting it counts the records. */
  lemma {:induction false} CountAfterIsCardinality<K>(keys: seq<K>, at: map<K, int>, times: seq<int>, cutoff: int)
    requires |times| == |keys|
    requires forall i :: 0 <= i < |keys| ==> keys[i] in at && times[i] == at[keys[i]]
    requires forall i, j :: 0 <= i < j < |keys| ==> keys[i] != keys[j]
    ensures CountAfter(times, cutoff) == |NewerThan(keys, at, cutoff)|
  {
    if keys != [] {
      var n := |keys| - 1;
      var init := keys[..n];
      CountAfterIsCardinality(init, at, times[..n], cutoff);
      var some, all := NewerThan(init, at, cutoff), NewerThan(keys, at, cutoff);
      assert keys[n] !in init;
      assert forall k :: k in keys <==> k in init || k == keys[n];
      if times[n] > cutoff {
        assert all == some + {keys[n]};
      } else {
        assert all == some;
      }
    }
  }

  function Entries(cache: map<string, Entry>, key: string): Option<Entry> {
    if key in cache then Some(cache[key]) else None
  }

  function With(cache: map<string, Entry>, key: string, entry: Option<Entry>): map<string, Entry> {
    if entry.None? then cache - {key} else cache[key := entry.value]
  }

  function Key(namespace: string, name: string): string {
    namespace + "/" + name
  }

  /** auditLimiter. `times` stands for the trigger times of the records a List returns for the
      policy, or None when the call fails. */
  class AuditLimiter {
    var cache: map<string, Entry>

    constructor ()
      ensures cache == map[]
    {
      cache := map[];
    }

    method Count(namespace: string, name: string, now: int, ttl: int, times: Option<seq<int>>) returns (count: Option<nat>)
      modifies this
      ensures var listed := if times.None? then None else Some(CountAfter(times.value, now - HOUR));
              var key := Key(namespace, name);
              var answer := CountStep(Entries(old(cache), key), now, ttl, listed);
              count == answer.count && cache == With(old(cache), key, answer.entry)
      ensures var key := Key(namespace, name);
              if key in old(cache) && now - old(cache)[key].queriedAt < ttl then
                count == Some(old(cache)[key].count) && cache == old(cache)
              else if times.None? then
                count == None && cache == old(cache)
              else
                var recent := |set i | 0 <= i < |times.value| && times.value[i] > now - 3600|;
                count == Some(recent) && cache == old(cache)[key := Entry(now, recent)]
    {
      var key := Key(namespace, name);
      if key in cache && now - cache[key].queriedAt < ttl {
        return Some(cache[key].count);
      }
      if times.None? {
        return None;
      }
      var cutoff := now - HOUR;
      var n: nat := 0;
      for i := 0 to |times.value|
        invariant n == CountAfter(times.value[..i], cutoff)
        invariant cache == old(cache)
      {
        if times.value[i] > cutoff {
          n := n + 1;
        }
        assert times.value[..i + 1][..i] == times.value[..i];
      }
      assert times.value[..|times.value|] == times.value;
      CountAfterCounts(times.value, cutoff);
      cache := cache[key := Entry(now, n)];
      return Some(n);
    }

    /** None reports the failure of the list call. */
    method Allowed(namespace: string, name: string, maxPerHour: int, now: int, ttl: int, times: Option<seq<int>>)
        returns (allowed: Option<bool>)
      modifies this
      ensures var listed := if times.None? then None else Some(CountAfter(times.value, now - HOUR));
              var key := Key(namespace, name);
              var answer := CountStep(Entries(old(cache), key), now, ttl, listed);
              && cache == With(old(cache), key, answer.entry)
              && allowed == (if answer.count.None? then None else Some(answer.count.value < maxPerHour))
      ensures var key := Key(namespace, name);
              allowed ==
              if key in old(cache) && now - old(cache)[key].queriedAt < ttl then Some(old(cache)[key].count < maxPerHour)
              else if times.None? then None
              else Some(|set i | 0 <= i < |times.value| && times.value[i] > now - 3600| < maxPerHour)
    {
      var count := Count(namespace, name, now, ttl, times);
      if count.None? {
        return None;
      }
      return Some(count.value < maxPerHour);
    }

    method Observe(namespace: string, name: string, now: int)
      modifies this
      ensures var key := Key(namespace, name);
              && cache == With(old(cache), key, Bump(Entries(old(cache), key), now))
              && (if key in old(cache) then cache == old(cache)[key := Entry(now, old(cache)[key].count + 1)] else cache == old(cache))
    {
      var key := Key(namespace, name);
      if key !in cache {
        return;
      }
      cache := cache[key := Entry(now, cache[key].count + 1)];
    }

    method Forget(namespace: string, name: string)
      modifies this
      ensures cache == old(cache) - {Key(namespace, name)}
    {
      cache := cache - {Key(namespace, name)};
    }
  }

  /** Policies never share an entry: Kubernetes names hold no slash. */
  lemma KeyInjective(ns: string, name: string, ns': string, name': string)
    requires '/' !in ns && '/' !in ns'
    requires Key(ns, name) == Key(ns', name')
    ensures ns == ns' && name == name'
  {
    var k := Key(ns, name);
    assert k[|ns|] == '/' && k[|ns'|] == '/';
    assert forall i :: 0 <= i < |ns| ==> k[i] == ns[i] && ns[i] in ns;
    assert forall i :: 0 <= i < |ns'| ==> k[i] == ns'[i] && ns'[i] in ns';
    assert |ns| == |ns'|;
    assert ns == k[..|ns|] && ns' == k[..|ns|];
    assert name == k[|ns| + 1..] && name' == k[|ns| + 1..];
  }
}
