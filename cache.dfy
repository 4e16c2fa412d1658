/**
 * The time-bounded authorization cache: a map from the raw bearer token to
 * the instant its authorization expires. Times are whole seconds given by
 * the caller; the cache reads no clock of its own.
 */
module TokenCache {

  /** A positive number of seconds. */
  type Seconds = x: int | x > 0 witness 1

  /** Seconds an authorization stays valid: configured, any positive value. */
  const CacheTtl: Seconds

  /** The sweep only runs once the cache holds more entries than this. */
  const SweepThreshold: nat := 1000

  /** A lookup at `now` is a hit: the entry exists and has not yet expired. */
  predicate IsFresh(entries: map<string, int>, token: string, now: int) {
    token in entries && now < entries[token]
  }

  /**
   * What the sweep leaves behind: below the threshold everything; above it
   * the entries whose expiry is not before `sweepNow`.
   */
  function Swept(entries: map<string, int>, sweepNow: int): map<string, int> {
    if |entries| > SweepThreshold then
      map k | k in entries && sweepNow <= entries[k] :: entries[k]
    else
      entries
  }

  /** With at most SweepThreshold entries the sweep changes nothing. */
  lemma SweepBelowThresholdIsNoOp(entries: map<string, int>, sweepNow: int)
    requires |entries| <= SweepThreshold
    ensures Swept(entries, sweepNow) == entries
  {
  }

  /**
   * Above the threshold the sweep removes exactly the keys whose expiry is
   * strictly before `sweepNow`, and every surviving entry keeps its expiry.
   */
  lemma SweepRemovesExactlyExpired(entries: map<string, int>, sweepNow: int)
    requires |entries| > SweepThreshold
    ensures Swept(entries, sweepNow).Keys == entries.Keys - set k | k in entries && entries[k] < sweepNow
    ensures forall k :: k in Swept(entries, sweepNow) ==> Swept(entries, sweepNow)[k] == entries[k]
  {
  }

  /**
   * An entry whose expiry equals the sweep time survives the sweep, although
   * a lookup at that same time already treats it as expired.
   */
  lemma BoundaryEntrySurvivesSweep(entries: map<string, int>, token: string, t: int)
    requires token in entries && entries[token] == t
    ensures token in Swept(entries, t) && Swept(entries, t)[token] == t
    ensures !IsFresh(entries, token, t)
  {
  }

  /** The cache object the gate owns; its one field is updated in place. */
  class Store {
    var entries: map<string, int>

    constructor ()
      ensures entries == map[]
    {
      entries := map[];
    }

    /**
     * Lookup with delete-on-expiry: a fresh entry is a hit and nothing
     * changes; an expired entry is deleted and the lookup is a miss.
     */
    method Lookup(token: string, now: int) returns (hit: bool)
      modifies this
      ensures hit <==> IsFresh(old(entries), token, now)
      ensures entries == if hit then old(entries) else old(entries) - {token}
    {
      hit := false;
      if token in entries {
        var expiry := entries[token];
        if now < expiry {
          hit := true;
        } else {
          entries := entries - {token};
        }
      } else {
        assert entries - {token} == entries;
      }
    }

    /** Records a successful check at `now`, overwriting any earlier entry. */
    method Insert(token: string, now: int)
      modifies this
      ensures entries == old(entries)[token := now + CacheTtl]
    {
      entries := entries[token := now + CacheTtl];
    }

    /**
     * The opportunistic sweep at time `sweepNow`: when the cache holds more
     * than SweepThreshold entries, collect the keys whose expiry is before
     * `sweepNow` and delete them one by one.
     */
    method Sweep(sweepNow: int)
      modifies this
      ensures entries == Swept(old(entries), sweepNow)
    {
      if |entries| > SweepThreshold {
        var doomed := set k | k in entries && entries[k] < sweepNow;
        var pending := doomed;
        while pending != {}
          invariant pending <= doomed
          invariant entries == old(entries) - (doomed - pending)
          decreases pending
        {
          var k :| k in pending;
          entries := entries - {k};
          pending := pending - {k};
        }
        assert entries == Swept(old(entries), sweepNow);
      }
    }
  }
}
