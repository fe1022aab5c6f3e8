/** What one DNS query may come back with, and the cache entry it leaves. Times are in seconds. */
module DnsCache {
  import opened Multiaddrs

  const CACHE_TTL: int := 300
  const FAILURE_CACHE_TTL: int := 900
  const LOOKUP_TIMEOUT: int := 1

  datatype Outcome = Answer(addrs: seq<Multiaddr>) | HardFailure | TimedOut | Canceled

  datatype CacheEntry = CacheEntry(addrs: seq<Multiaddr>, ok: bool, expires: int)

  type Cache = map<string, CacheEntry>

  /** The entry `resolve` stores: a timeout is forgotten as soon as an answer is, a hard failure or an
      empty answer is kept longer. */
  function EntryFor(outcome: Outcome, now: int): CacheEntry {
    match outcome
    case Answer(addrs) => CacheEntry(addrs, true, now + if |addrs| == 0 then FAILURE_CACHE_TTL else CACHE_TTL)
    case TimedOut => CacheEntry([], false, now + CACHE_TTL)
    case HardFailure => CacheEntry([], false, now + FAILURE_CACHE_TTL)
    case Canceled => CacheEntry([], false, now + FAILURE_CACHE_TTL)
  }

  /** What is left of an outcome stored at `at`, entry field by entry field: five minutes for an answer or
      a timeout, fifteen for a hard failure or an empty answer; nothing that lasts for a cancellation. */
  predicate LeftBy(e: CacheEntry, outcome: Outcome, at: int) {
    match outcome
    case Answer(addrs) => e.ok && e.addrs == addrs && e.expires == at + if addrs == [] then 900 else 300
    case TimedOut => !e.ok && e.addrs == [] && e.expires == at + 300
    case HardFailure => !e.ok && e.addrs == [] && e.expires == at + 900
    case Canceled => false
  }

  /** `zone` gives the stable answer of every name. A consistent cache holds nothing else. */
  ghost predicate Consistent(zone: string -> seq<Multiaddr>, cache: Cache) {
    forall k | k in cache :: cache[k].addrs == if cache[k].ok then zone(k) else []
  }
}
