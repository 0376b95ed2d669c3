/** The segment membership cache: a queued job that refreshes the set of
    members of one campaign segment in Redis, under the key `provider|code`,
    with a 24-hour time to live. */
module SegmentCache {
  import opened Wrappers

  /** The (provider, code) pair a campaign is targeted by. */
  datatype CampaignSegment = CampaignSegment(provider: string, code: string)

  /** The segment aggregator as the job sees it: whether a provider wants its
      segments cached, and the members of a segment, or None when the
      provider call throws. */
  datatype SegmentAggregator = SegmentAggregator(
    cacheEnabled: CampaignSegment -> bool,
    users: CampaignSegment -> Option<seq<string>>)

  /** 60 * 60 * 24 seconds. */
  const CacheTtl: nat := 86400

  /** The key the segment's members are cached under. */
  function CacheKey(segment: CampaignSegment): string
  {
    segment.provider + "|" + segment.code
  }

  /** The position of the first "|" in a string (its length when there is none). */
  function SeparatorIndex(s: string): (i: nat)
    ensures i <= |s|
  {
    if s == [] || s[0] == '|' then 0 else 1 + SeparatorIndex(s[1..])
  }

  /** The first "|" of a key whose provider holds none is the separator. */
  lemma {:induction false} SeparatorAfterProvider(provider: string, code: string)
    requires '|' !in provider
    ensures SeparatorIndex(provider + "|" + code) == |provider|
  {
    if provider != [] {
      assert (provider + "|" + code)[1..] == provider[1..] + "|" + code;
      SeparatorAfterProvider(provider[1..], code);
    }
  }

  /** Provider names hold no "|", so the key determines the segment: two
      segments share a key only if they are the same segment. */
  lemma CacheKeyInjective(a: CampaignSegment, b: CampaignSegment)
    requires '|' !in a.provider && '|' !in b.provider
    ensures CacheKey(a) == CacheKey(b) <==> a == b
  {
    if CacheKey(a) == CacheKey(b) {
      var ka, kb := CacheKey(a), CacheKey(b);
      SeparatorAfterProvider(a.provider, a.code);
      SeparatorAfterProvider(b.provider, b.code);
      assert a.provider == ka[..|a.provider|] == kb[..|b.provider|] == b.provider;
      assert a.code == ka[|a.provider| + 1..] == kb[|b.provider| + 1..] == b.code;
    }
  }

  /** The Redis keyspace the job touches: sets of member identifiers and the
      remaining time to live of the keys that have one. */
  datatype Store = Store(sets: map<string, set<string>>, ttl: map<string, nat>)

  /** Redis never keeps an empty set, and only existing keys have a TTL. */
  ghost predicate ValidStore(s: Store)
  {
    && (forall k :: k in s.sets ==> s.sets[k] != {})
    && s.ttl.Keys <= s.sets.Keys
  }

  /** SCARD: the number of members, 0 for a missing key. */
  function Cardinality(s: Store, key: string): nat
  {
    if key in s.sets then |s.sets[key]| else 0
  }

  /** The store after the job has run for `segment`. */
  function Refresh(s: Store, segment: CampaignSegment, force: bool, aggregator: SegmentAggregator): Store
  {
    var key := CacheKey(segment);
    if !force && Cardinality(s, key) > 0 then s
    else if !aggregator.cacheEnabled(segment) then s
    else match aggregator.users(segment)
      case None => s
      case Some(users) =>
        var cleared := Store(s.sets - {key}, s.ttl - {key});
        if |users| > 0 then Store(cleared.sets[key := set u | u in users], cleared.ttl[key := CacheTtl])
        else cleared
  }

  // -----------------------------------------------------------------------
  // Properties of a refresh

  /** A non-forced run finds the key populated and leaves the store alone,
      whatever the aggregator would answer. */
  lemma ShortCircuit(s: Store, segment: CampaignSegment, aggregator: SegmentAggregator, other: SegmentAggregator)
    requires Cardinality(s, CacheKey(segment)) > 0
    ensures Refresh(s, segment, false, aggregator) == s == Refresh(s, segment, false, other)
  {
  }

  /** A provider that does not want caching, or a provider call that fails,
      leaves the store as it was: a stale entry survives. */
  lemma DisabledOrFailedKeepsStore(s: Store, segment: CampaignSegment, force: bool, aggregator: SegmentAggregator)
    requires !aggregator.cacheEnabled(segment) || aggregator.users(segment).None?
    ensures Refresh(s, segment, force, aggregator) == s
  {
  }

  /** On success the key holds exactly the members returned, with a 24-hour
      TTL, or is absent when there are none. */
  lemma SuccessReplaces(s: Store, segment: CampaignSegment, force: bool, aggregator: SegmentAggregator)
    requires force || Cardinality(s, CacheKey(segment)) == 0
    requires aggregator.cacheEnabled(segment) && aggregator.users(segment).Some?
    ensures var users := aggregator.users(segment).value;
            var s' := Refresh(s, segment, force, aggregator);
            if |users| > 0 then
              CacheKey(segment) in s'.sets && s'.sets[CacheKey(segment)] == (set u | u in users)
              && CacheKey(segment) in s'.ttl && s'.ttl[CacheKey(segment)] == 86400
            else CacheKey(segment) !in s'.sets && CacheKey(segment) !in s'.ttl
  {
  }

  /** Only the job's own key is written or deleted. */
  lemma OtherKeysUnchanged(s: Store, segment: CampaignSegment, force: bool, aggregator: SegmentAggregator, k: string)
    requires k != CacheKey(segment)
    ensures var s' := Refresh(s, segment, force, aggregator);
            && (k in s'.sets <==> k in s.sets) && (k in s.sets ==> s'.sets[k] == s.sets[k])
            && (k in s'.ttl <==> k in s.ttl) && (k in s.ttl ==> s'.ttl[k] == s.ttl[k])
  {
  }

  /** A refresh keeps the store a valid Redis keyspace. */
  lemma RefreshKeepsValid(s: Store, segment: CampaignSegment, force: bool, aggregator: SegmentAggregator)
    requires ValidStore(s)
    ensures ValidStore(Refresh(s, segment, force, aggregator))
  {
    var key := CacheKey(segment);
    var s' := Refresh(s, segment, force, aggregator);
    if s' != s && |aggregator.users(segment).value| > 0 {
      var users := aggregator.users(segment).value;
      assert users[0] in s'.sets[key];
    }
  }

  /** A forced refresh is a full replace, not a merge: with the same provider
      answer, running it twice leaves the same store as running it once. */
  lemma ForcedRefreshIdempotent(s: Store, segment: CampaignSegment, aggregator: SegmentAggregator)
    ensures Refresh(Refresh(s, segment, true, aggregator), segment, true, aggregator)
            == Refresh(s, segment, true, aggregator)
  {
    var key := CacheKey(segment);
    var once := Refresh(s, segment, true, aggregator);
    var twice := Refresh(once, segment, true, aggregator);
    if aggregator.cacheEnabled(segment) && aggregator.users(segment).Some? {
      assert twice.sets == once.sets;
      assert twice.ttl == once.ttl;
    }
  }

  /** An empty answer leaves no entry, so the next run without force queries
      the provider again instead of short-circuiting on "known empty". */
  lemma EmptyResultRequeries(s: Store, segment: CampaignSegment, force: bool, aggregator: SegmentAggregator)
    requires force || Cardinality(s, CacheKey(segment)) == 0
    requires aggregator.cacheEnabled(segment) && aggregator.users(segment) == Some([])
    ensures var s' := Refresh(s, segment, force, aggregator);
            Cardinality(s', CacheKey(segment)) == 0
            && Refresh(s', segment, false, aggregator) == Refresh(s', segment, true, aggregator)
  {
  }

  // -----------------------------------------------------------------------
  // Redis and the job

  /** The Redis connection, reduced to the commands the job issues. */
  class Redis {
    var sets: map<string, set<string>>
    var ttl: map<string, nat>

    function State(): Store
      reads this
    {
      Store(sets, ttl)
    }

    ghost predicate Valid()
      reads this
    {
      ValidStore(State())
    }

    constructor (initial: Store)
      requires ValidStore(initial)
      ensures Valid() && State() == initial
    {
      sets, ttl := initial.sets, initial.ttl;
    }

    /** SCARD key. */
    function Scard(key: string): (n: nat)
      reads this
      requires Valid()
      ensures key in sets ==> n == |sets[key]|
      ensures n == 0 <==> key !in sets
    {
      Cardinality(State(), key)
    }

    /** DEL key: the key and its TTL are gone. */
    method Del(key: string)
      requires Valid()
      modifies this
      ensures Valid()
      ensures sets == old(sets) - {key} && ttl == old(ttl) - {key}
    {
      sets := sets - {key};
      ttl := ttl - {key};
    }

    /** SADD key members...: adds the members to the set, creating it. */
    method Sadd(key: string, members: seq<string>)
      requires Valid() && |members| > 0
      modifies this
      ensures Valid()
      ensures sets == old(sets)[key := (if key in old(sets) then old(sets)[key] else {}) + set m | m in members]
      ensures ttl == old(ttl)
    {
      var current := if key in sets then sets[key] else {};
      assert members[0] in current + set m | m in members;
      sets := sets[key := current + set m | m in members];
    }

    /** EXPIRE key seconds: sets the TTL of an existing key. */
    method Expire(key: string, seconds: nat)
      requires Valid()
      modifies this
      ensures Valid()
      ensures sets == old(sets)
      ensures ttl == if key in old(sets) then old(ttl)[key := seconds] else old(ttl)
    {
      if key in sets {
        ttl := ttl[key := seconds];
      }
    }
  }

  /** The queued job that caches one campaign segment. */
  class CacheSegmentJob {
    const campaignSegment: CampaignSegment
    const force: bool

    constructor (campaignSegment: CampaignSegment, force: bool := false)
      ensures this.campaignSegment == campaignSegment && this.force == force
    {
      this.campaignSegment := campaignSegment;
      this.force := force;
    }

    /** The unique key the segment's members are cached under: it splits
        back into the provider, the "|" and the code. */
    function Key(): (k: string)
      ensures var p := campaignSegment.provider;
              && |k| == |p| + 1 + |campaignSegment.code|
              && k[..|p|] == p && k[|p|] == '|' && k[|p| + 1..] == campaignSegment.code
    {
      CacheKey(campaignSegment)
    }

    /** Refresh the cached members unless they are already cached and the
        refresh is not forced. A failing provider leaves the cache as it was. */
    method Handle(redis: Redis, aggregator: SegmentAggregator)
      requires redis.Valid()
      modifies redis
      ensures redis.Valid()
      ensures redis.State() == Refresh(old(redis.State()), campaignSegment, force, aggregator)
    {
      if !force && redis.Scard(Key()) > 0 {
        return;
      }
      if !aggregator.cacheEnabled(campaignSegment) {
        return;
      }
      var users := aggregator.users(campaignSegment);
      if users.None? {
        // the failure is logged and the job ends
        return;
      }
      redis.Del(Key());
      if |users.value| > 0 {
        redis.Sadd(Key(), users.value);
        redis.Expire(Key(), 60 * 60 * 24);
        assert {} + (set m | m in users.value) == set u | u in users.value;
      }
    }
  }
}
