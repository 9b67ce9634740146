/**
 The response cache of src/dns_cache.rs: bounded, keyed by resolver and question, and expiring on
 the TTLs the answer carries or, for denials, on the SOA as sections 3 and 5 of RFC 2308 set out.
 */
module DnsCache {
  import opened Basics
  import Text

  type SocketAddr = nat

  /** Seconds. */
  const MAX_TTL: nat := 300
  const MIN_TTL: nat := 1

  datatype Question = Question(name: string, recordType: nat, dnsClass: nat)

  datatype RData = Soa(minimum: nat) | Data(bytes: string)

  datatype Record = Record(name: string, ttl: nat, data: RData)

  datatype MessageType = Query | Response

  datatype ResponseCode = NoError | NXDomain | OtherCode(code: nat)

  /** A decoded message; `rest` is everything the cache neither reads nor writes. */
  datatype Message = Message(
    id: nat,
    messageType: MessageType,
    truncation: bool,
    recursionDesired: bool,
    responseCode: ResponseCode,
    queries: seq<Question>,
    answers: seq<Record>,
    authorities: seq<Record>,
    rest: string)

  datatype Key = Key(upstream: SocketAddr, name: string, recordType: nat, dnsClass: nat)

  datatype Entry = Entry(response: Message, storedAt: Instant, ttl: nat)

  type Entries = map<Key, Entry>

  // -------------------------------------------------------------------- specification

  function KeyFor(request: Message, upstream: SocketAddr): Option<Key> {
    if |request.queries| != 1 then None
    else
      var q := request.queries[0];
      Some(Key(upstream, Text.Lower(q.name), q.recordType, q.dnsClass))
  }

  /** The shortest TTL of a non-empty section. */
  function ShortestTtl(records: seq<Record>): (r: nat)
    requires records != []
    ensures forall record <- records :: r <= record.ttl
    ensures exists record <- records :: r == record.ttl
  {
    if |records| == 1 then records[0].ttl
    else
      var rest := ShortestTtl(records[..|records| - 1]);
      assert forall record <- records :: record in records[..|records| - 1] || record == records[|records| - 1];
      Min(rest, records[|records| - 1].ttl)
  }

  /** How long each SOA says a denial holds. */
  function DenialTerms(authorities: seq<Record>): set<nat> {
    set r | r in authorities && r.data.Soa? :: Min(r.ttl, r.data.minimum)
  }

  /** The least of those, or `None` without an SOA. */
  function NegativeTtl(authorities: seq<Record>): (r: Option<nat>)
    ensures r.None? <==> DenialTerms(authorities) == {}
    ensures r.Some? ==> r.value in DenialTerms(authorities) && forall t <- DenialTerms(authorities) :: r.value <= t
  {
    if authorities == [] then None
    else
      var last := authorities[|authorities| - 1];
      var rest := NegativeTtl(authorities[..|authorities| - 1]);
      assert authorities == authorities[..|authorities| - 1] + [last];
      assert DenialTerms(authorities) == DenialTerms(authorities[..|authorities| - 1])
                                         + (if last.data.Soa? then {Min(last.ttl, last.data.minimum)} else {});
      if last.data.Data? then rest
      else
        var term := Min(last.ttl, last.data.minimum);
        if rest.Some? && rest.value <= term then rest else Some(term)
  }

  /** How long a response may be served, in seconds; `None` when it must not be cached. */
  function CacheableTtl(response: Message): Option<nat> {
    if response.messageType != Response || response.truncation then None
    else
      var seconds :=
        match response.responseCode
        case NoError => if response.answers != [] then Some(ShortestTtl(response.answers))
                        else NegativeTtl(response.authorities)
        case NXDomain => NegativeTtl(response.authorities)
        case OtherCode(_) => None;
      if seconds.None? then None
      else
        var ttl := Min(seconds.value, MAX_TTL);
        if ttl >= MIN_TTL then Some(ttl) else None
  }

  function CountedDown(records: seq<Record>, remaining: nat): (r: seq<Record>)
    ensures |r| == |records|
  {
    seq(|records|, i requires 0 <= i < |records| => records[i].(ttl := remaining))
  }

  /** The stored response as this caller sees it. */
  function Served(stored: Message, request: Message, remaining: nat): Message {
    stored.(id := request.id,
            recursionDesired := request.recursionDesired,
            queries := request.queries,
            answers := CountedDown(stored.answers, remaining),
            authorities := CountedDown(stored.authorities, remaining))
  }

  predicate Expired(e: Entry, now: Instant) { Since(now, e.storedAt) >= e.ttl * SECOND }

  function Remaining(e: Entry, now: Instant): nat
    requires !Expired(e, now)
  {
    (e.ttl * SECOND - Since(now, e.storedAt)) / SECOND
  }

  /** The entries after a lookup, and what it returns; `None` for an undecodable query. */
  function Lookup(entries: Entries, query: Option<Message>, upstream: SocketAddr, now: Instant)
    : (Entries, Option<Message>)
  {
    if query.None? then (entries, None)
    else
      var key := KeyFor(query.value, upstream);
      if key.None? || key.value !in entries then (entries, None)
      else
        var e := entries[key.value];
        if Expired(e, now) then (entries - {key.value}, None)
        else (entries, Some(Served(e.response, query.value, Remaining(e, now))))
  }

  /** Which entry may be dropped to make room: an expired one if there is any, otherwise an oldest. */
  ghost predicate ValidVictim(entries: Entries, now: Instant, victim: Key) {
    && victim in entries
    && (Expired(entries[victim], now)
        || ((forall k <- entries :: !Expired(entries[k], now))
            && (forall k <- entries :: entries[victim].storedAt <= entries[k].storedAt)))
  }

  /** What a store remembers, or `None` when it remembers nothing. */
  function Remembered(query: Option<Message>, response: Option<Message>, upstream: SocketAddr, now: Instant)
    : Option<(Key, Entry)>
  {
    if query.None? || response.None? then None
    else
      var key := KeyFor(query.value, upstream);
      var ttl := CacheableTtl(response.value);
      if key.None? || ttl.None? then None else Some((key.value, Entry(response.value, now, ttl.value)))
  }

  /** All entries but one are kept; and if that one was live, so were they all, and none of them was older. */
  ghost predicate LostLast(before: Entries, after: Entries, now: Instant, lost: Key)
    requires lost in before
  {
    forall k <- before | k != lost ::
      && k in after
      && (!Expired(before[lost], now) ==>
            !Expired(before[k], now) && before[lost].storedAt <= before[k].storedAt)
  }

  predicate MustEvict(entries: Entries, capacity: nat, key: Key) { |entries| >= capacity && key !in entries }

  /** The entries after a remembered store, dropping `victim` when room is needed. */
  function Stored(entries: Entries, capacity: nat, key: Key, e: Entry, victim: Key): Entries {
    (if MustEvict(entries, capacity, key) then entries - {victim} else entries)[key := e]
  }

  // ------------------------------------------------------------------ imperative form

  class Cache {
    var entries: Entries
    const capacity: nat

    constructor (size: nat)
      ensures entries == map[] && capacity == Max(size, 1)
    {
      entries := map[];
      capacity := Max(size, 1);
    }

    method LookupNow(query: Option<Message>, upstream: SocketAddr, now: Instant) returns (answer: Option<Message>)
      modifies this`entries
      ensures (entries, answer) == Lookup(old(entries), query, upstream, now)
    {
      if query.None? { return None; }
      var request := query.value;
      var key := KeyFor(request, upstream);
      if key.None? || key.value !in entries { return None; }
      var e := entries[key.value];
      var elapsed := Since(now, e.storedAt);
      if elapsed >= e.ttl * SECOND {
        entries := entries - {key.value};
        return None;
      }
      var remaining := (e.ttl * SECOND - elapsed) / SECOND;
      var response := e.response.(id := request.id, recursionDesired := request.recursionDesired,
                                  queries := request.queries);
      var answers := CountDown(response.answers, remaining);
      var authorities := CountDown(response.authorities, remaining);
      return Some(response.(answers := answers, authorities := authorities));
    }

    static method CountDown(records: seq<Record>, remaining: nat) returns (out: seq<Record>)
      ensures out == CountedDown(records, remaining)
    {
      out := records;
      for i := 0 to |records|
        invariant |out| == |records|
        invariant forall k | 0 <= k < |records| ::
                    out[k] == if k < i then records[k].(ttl := remaining) else records[k]
      {
        out := out[i := out[i].(ttl := remaining)];
      }
    }

    /** The hash map is walked in an arbitrary order; any expired entry, else any oldest, is dropped. */
    method EvictOne(now: Instant) returns (ghost victim: Key)
      requires entries != map[]
      modifies this`entries
      ensures ValidVictim(old(entries), now, victim)
      ensures entries == old(entries) - {victim}
    {
      var pending := entries.Keys;
      var oldest: Option<Key> := None;
      while pending != {}
        invariant pending <= entries.Keys
        invariant oldest.None? <==> pending == entries.Keys
        invariant oldest.Some? ==> oldest.value in entries
        invariant forall k <- entries.Keys - pending :: !Expired(entries[k], now)
        invariant oldest.Some? ==>
                    forall k <- entries.Keys - pending :: entries[oldest.value].storedAt <= entries[k].storedAt
        decreases |pending|
      {
        var k :| k in pending;
        if Since(now, entries[k].storedAt) >= entries[k].ttl * SECOND {
          entries := entries - {k};
          return k;
        }
        if oldest.None? || entries[k].storedAt < entries[oldest.value].storedAt {
          oldest := Some(k);
        }
        pending := pending - {k};
      }
      entries := entries - {oldest.value};
      return oldest.value;
    }

    method StoreNow(query: Option<Message>, response: Option<Message>, upstream: SocketAddr, now: Instant)
      returns (ghost victim: Option<Key>)
      requires capacity >= 1
      modifies this`entries
      ensures var kept := Remembered(query, response, upstream, now);
              && (kept.None? ==> entries == old(entries) && victim.None?)
              && (kept.Some? ==>
                    && (victim.Some? <==> MustEvict(old(entries), capacity, kept.value.0))
                    && (victim.Some? ==> ValidVictim(old(entries), now, victim.value))
                    && entries == Stored(old(entries), capacity, kept.value.0, kept.value.1,
                                         if victim.Some? then victim.value else kept.value.0))
      ensures forall lost <- old(entries) | lost !in entries ::
                |old(entries)| >= capacity && LostLast(old(entries), entries, now, lost)
    {
      victim := None;
      if query.None? || response.None? { return; }
      var key := KeyFor(query.value, upstream);
      if key.None? { return; }
      var ttl := CacheableTtl(response.value);
      if ttl.None? { return; }
      if |entries| >= capacity && key.value !in entries {
        ghost var dropped := EvictOne(now);
        victim := Some(dropped);
      }
      entries := entries[key.value := Entry(response.value, now, ttl.value)];
      forall lost <- old(entries) | lost !in entries
        ensures |old(entries)| >= capacity && LostLast(old(entries), entries, now, lost)
      {
        LiveEntriesGoLast(old(entries), capacity, key.value, Entry(response.value, now, ttl.value), victim.value, now,
                          lost);
      }
    }
  }

  // ------------------------------------------------------------------------------ runs

  datatype Event =
    | Look(query: Option<Message>, upstream: SocketAddr, now: Instant)
    | Put(query: Option<Message>, response: Option<Message>, upstream: SocketAddr, now: Instant, victim: Key)

  function Step(entries: Entries, capacity: nat, e: Event): Entries {
    match e
    case Look(query, upstream, now) => Lookup(entries, query, upstream, now).0
    case Put(query, response, upstream, now, victim) =>
      var kept := Remembered(query, response, upstream, now);
      if kept.None? then entries else Stored(entries, capacity, kept.value.0, kept.value.1, victim)
  }

  function Run(capacity: nat, events: seq<Event>): Entries {
    if events == [] then map[] else Step(Run(capacity, events[..|events| - 1]), capacity, events[|events| - 1])
  }

  /** Whenever room is needed, the victim is one the cache may choose. */
  ghost predicate Admissible(capacity: nat, events: seq<Event>) {
    forall i: nat | i < |events| && events[i].Put? ::
      var entries := Run(capacity, events[..i]);
      var e := events[i];
      var kept := Remembered(e.query, e.response, e.upstream, e.now);
      kept.Some? && MustEvict(entries, capacity, kept.value.0) ==> ValidVictim(entries, e.now, e.victim)
  }

  /** The unbounded log: the latest cacheable store under a key. */
  function LatestStore(events: seq<Event>, key: Key): Option<Entry> {
    if events == [] then None
    else
      var last := events[|events| - 1];
      var kept := if last.Put? then Remembered(last.query, last.response, last.upstream, last.now) else None;
      if kept.Some? && kept.value.0 == key then Some(kept.value.1) else LatestStore(events[..|events| - 1], key)
  }

  ghost predicate Refines(entries: Entries, events: seq<Event>) {
    forall k <- entries :: LatestStore(events, k) == Some(entries[k])
  }

  lemma PrefixAdmissible(capacity: nat, events: seq<Event>)
    requires events != [] && Admissible(capacity, events)
    ensures Admissible(capacity, events[..|events| - 1])
  {
    var n := |events| - 1;
    assert forall i: nat | i < n :: events[..n][..i] == events[..i];
  }

  /** Over every run the cache holds at most its capacity, and under each key only the latest cacheable store. */
  lemma {:induction false} CacheRefinesLog(capacity: nat, events: seq<Event>)
    requires capacity >= 1 && Admissible(capacity, events)
    ensures Refines(Run(capacity, events), events)
    ensures |Run(capacity, events)| <= capacity
  {
    if events != [] {
      var n := |events| - 1;
      PrefixAdmissible(capacity, events);
      CacheRefinesLog(capacity, events[..n]);
      var before, e := Run(capacity, events[..n]), events[n];
      match e
      case Look(_, _, _) =>
        var after := Step(before, capacity, e);
        SubsetSize(after.Keys, before.Keys);
      case Put(query, response, upstream, now, victim) =>
        var kept := Remembered(query, response, upstream, now);
        if kept.Some? { StoredFits(before, capacity, kept.value.0, kept.value.1, victim); }
    }
  }

  lemma StoredFits(entries: Entries, capacity: nat, key: Key, e: Entry, victim: Key)
    requires capacity >= 1 && |entries| <= capacity
    requires MustEvict(entries, capacity, key) ==> victim in entries
    ensures |Stored(entries, capacity, key, e, victim)| <= capacity
  {
    var room := if MustEvict(entries, capacity, key) then entries - {victim} else entries;
    assert room.Keys == if MustEvict(entries, capacity, key) then entries.Keys - {victim} else entries.Keys;
    var after := Stored(entries, capacity, key, e, victim);
    assert after.Keys == room.Keys + {key};
    assert |after| == |after.Keys| && |entries| == |entries.Keys|;
    if !MustEvict(entries, capacity, key) && key in entries { assert after.Keys == entries.Keys; }
  }

  /**
   A store loses at most one other entry, only when the cache is full of other names, and a live one
   only when no entry has expired and none that survives was stored before it.
   */
  lemma LiveEntriesGoLast(entries: Entries, capacity: nat, key: Key, e: Entry, victim: Key, now: Instant, lost: Key)
    requires MustEvict(entries, capacity, key) ==> ValidVictim(entries, now, victim)
    requires lost in entries && lost !in Stored(entries, capacity, key, e, victim)
    ensures |entries| >= capacity && key !in entries
    ensures LostLast(entries, Stored(entries, capacity, key, e, victim), now, lost)
  {
    assert lost == victim;
  }

  // ------------------------------------------------------------------------------- hits

  /** Apart from ID, the RD bit, the question and the TTLs, `a` and `b` are the same message. */
  ghost predicate SameButForCaller(a: Message, b: Message) {
    && a == b.(id := a.id, recursionDesired := a.recursionDesired, queries := a.queries,
               answers := a.answers, authorities := a.authorities)
    && SameButForTtl(a.answers, b.answers) && SameButForTtl(a.authorities, b.authorities)
  }

  ghost predicate SameButForTtl(a: seq<Record>, b: seq<Record>) {
    |a| == |b| && forall i | 0 <= i < |a| :: a[i] == b[i].(ttl := a[i].ttl)
  }

  /** A record is served no longer than it had left `elapsed` after it was stored. */
  predicate WithinTtl(served: Record, stored: Record, elapsed: nat) {
    served.ttl * SECOND + elapsed <= stored.ttl * SECOND
  }

  /** The message is one that may be cached at all: a whole reply with answers, or a denial with an SOA. */
  predicate Answers(response: Message) {
    && response.messageType == Response && !response.truncation
    && (|| (response.responseCode == NoError && response.answers != [])
        || (Denies(response) && exists r <- response.authorities :: r.data.Soa?))
  }

  predicate Denies(response: Message) {
    response.responseCode == NXDomain || (response.responseCode == NoError && response.answers == [])
  }

  /** Five minutes, and every figure the reply gives for what it says, are at least `ttl` seconds. */
  predicate Lasts(response: Message, ttl: nat) {
    && ttl <= 300
    && (if Denies(response) then forall r <- response.authorities | r.data.Soa? :: ttl <= r.ttl && ttl <= r.data.minimum
        else forall a <- response.answers :: ttl <= a.ttl)
  }

  /** A reply is cached for as long as all of it lasts, to the second, and not at all if that is no second. */
  lemma TtlIsExact(response: Message, ttl: nat)
    ensures CacheableTtl(response) == Some(ttl) <==>
            Answers(response) && ttl >= 1 && Lasts(response, ttl) && !Lasts(response, ttl + 1)
  {
    if Denies(response) {
      DenialLasts(response.authorities, ttl);
      DenialLasts(response.authorities, ttl + 1);
    }
  }

  lemma DenialLasts(authorities: seq<Record>, ttl: nat)
    ensures NegativeTtl(authorities).Some? <==> exists r <- authorities :: r.data.Soa?
    ensures NegativeTtl(authorities).Some? ==>
              (ttl <= NegativeTtl(authorities).value <==>
               forall r <- authorities | r.data.Soa? :: ttl <= r.ttl && ttl <= r.data.minimum)
  {
    forall r <- authorities | r.data.Soa? ensures Min(r.ttl, r.data.minimum) in DenialTerms(authorities) {}
  }

  /** A TTL the cache computed is within every figure it was computed from. */
  lemma TtlIsWithinItsSources(response: Message)
    requires CacheableTtl(response).Some?
    ensures var ttl := CacheableTtl(response).value;
            && MIN_TTL <= ttl <= MAX_TTL
            && response.messageType == Response && !response.truncation && !response.responseCode.OtherCode?
            && (response.responseCode == NoError ==> forall a <- response.answers :: ttl <= a.ttl)
            && (response.responseCode == NXDomain || response.answers == [] ==>
                  && (exists r <- response.authorities :: r.data.Soa?)
                  && (forall r <- response.authorities | r.data.Soa? :: ttl <= r.ttl && ttl <= r.data.minimum))
  {
    if response.responseCode == NXDomain || response.answers == [] {
      var n := NegativeTtl(response.authorities);
      forall r <- response.authorities | r.data.Soa?
        ensures n.value <= r.ttl && n.value <= r.data.minimum
      {
        assert Min(r.ttl, r.data.minimum) in DenialTerms(response.authorities);
      }
    }
  }

  lemma RemainingFits(e: Entry, now: Instant, seconds: nat)
    requires !Expired(e, now) && e.ttl <= seconds
    ensures Remaining(e, now) * SECOND + Since(now, e.storedAt) <= seconds * SECOND
  {
  }

  /** Both ask one question, and the same one: name but for case, type and class. */
  predicate SameQuestion(a: Message, b: Message) {
    && |a.queries| == |b.queries| == 1
    && Text.Lower(a.queries[0].name) == Text.Lower(b.queries[0].name)
    && a.queries[0].recordType == b.queries[0].recordType && a.queries[0].dnsClass == b.queries[0].dnsClass
  }

  /** Queries share a key exactly if they go to the same resolver and ask the same question. */
  lemma KeysAgreeIff(a: Message, u: SocketAddr, b: Message, v: SocketAddr)
    requires KeyFor(a, u).Some?
    ensures KeyFor(a, u) == KeyFor(b, v) <==> u == v && SameQuestion(a, b)
  {
  }

  /** Event `e` stores a cacheable reply of this resolver to this question. */
  predicate Keeps(e: Event, query: Message, upstream: SocketAddr) {
    && e.Put? && e.query.Some? && e.response.Some? && e.upstream == upstream
    && SameQuestion(e.query.value, query) && CacheableTtl(e.response.value).Some?
  }

  /** Event `k` is the latest to do so. */
  ghost predicate IsLatest(events: seq<Event>, query: Message, upstream: SocketAddr, k: nat) {
    && k < |events| && Keeps(events[k], query, upstream)
    && forall l | k < l < |events| :: !Keeps(events[l], query, upstream)
  }

  function EntryOf(e: Event): Entry
    requires e.Put? && e.response.Some? && CacheableTtl(e.response.value).Some?
  {
    Entry(e.response.value, e.now, CacheableTtl(e.response.value).value)
  }

  lemma LogTakes(events: seq<Event>, query: Message, upstream: SocketAddr)
    requires events != [] && |query.queries| == 1
    ensures var key, last := KeyFor(query, upstream).value, events[|events| - 1];
            LatestStore(events, key) == if Keeps(last, query, upstream) then Some(EntryOf(last))
                                        else LatestStore(events[..|events| - 1], key)
  {
  }

  lemma LatestStays(events: seq<Event>, query: Message, upstream: SocketAddr, k: nat)
    requires events != [] && !Keeps(events[|events| - 1], query, upstream)
    ensures IsLatest(events[..|events| - 1], query, upstream, k) <==> IsLatest(events, query, upstream, k)
  {
    var n := |events| - 1;
    assert forall l | 0 <= l < n :: events[..n][l] == events[l];
  }

  /** The log's entry for a question is the latest store of it. */
  lemma {:induction false} LatestStoreIs(events: seq<Event>, query: Message, upstream: SocketAddr)
    requires |query.queries| == 1
    ensures var latest := LatestStore(events, KeyFor(query, upstream).value);
            && (latest.Some? <==> exists k: nat :: IsLatest(events, query, upstream, k))
            && (forall k: nat :: IsLatest(events, query, upstream, k) ==> latest == Some(EntryOf(events[k])))
  {
    if events != [] {
      var n := |events| - 1;
      LogTakes(events, query, upstream);
      if Keeps(events[n], query, upstream) {
        assert IsLatest(events, query, upstream, n);
      } else {
        LatestStoreIs(events[..n], query, upstream);
        forall k: nat
          ensures IsLatest(events[..n], query, upstream, k) <==> IsLatest(events, query, upstream, k)
        {
          LatestStays(events, query, upstream, k);
        }
      }
    }
  }

  /** Every TTL served is what was left of the entry's, in whole seconds. */
  ghost predicate CountsDown(served: seq<Record>, ttl: nat, elapsed: nat) {
    forall r <- served :: r.ttl * SECOND + elapsed <= ttl * SECOND < (r.ttl + 1) * SECOND + elapsed
  }

  lemma HitCountsDown(e: Entry, query: Message, now: Instant)
    requires !Expired(e, now)
    ensures var hit := Served(e.response, query, Remaining(e, now));
            && CountsDown(hit.answers, e.ttl, Since(now, e.storedAt))
            && CountsDown(hit.authorities, e.ttl, Since(now, e.storedAt))
  {
  }

  /** What a hit promises of the entry it comes from. */
  ghost predicate HitOf(hit: Message, query: Message, e: Entry, now: Instant) {
    var stored, elapsed := e.response, Since(now, e.storedAt);
    && elapsed < e.ttl * SECOND
    && hit.id == query.id && hit.recursionDesired == query.recursionDesired && hit.queries == query.queries
    && SameButForCaller(hit, stored)
    && CountsDown(hit.answers, e.ttl, elapsed) && CountsDown(hit.authorities, e.ttl, elapsed)
    && (stored.responseCode == NoError ==>
          forall i | 0 <= i < |stored.answers| :: WithinTtl(hit.answers[i], stored.answers[i], elapsed))
    && (stored.responseCode == NXDomain || stored.answers == [] ==>
          forall i | 0 <= i < |stored.authorities| && stored.authorities[i].data.Soa? ::
            WithinTtl(hit.authorities[i], stored.authorities[i], elapsed))
  }

  lemma ServedIsHit(e: Entry, query: Message, now: Instant)
    requires !Expired(e, now) && CacheableTtl(e.response) == Some(e.ttl)
    ensures HitOf(Served(e.response, query, Remaining(e, now)), query, e, now)
  {
    HitCountsDown(e, query, now);
    TtlIsWithinItsSources(e.response);
    forall i | 0 <= i < |e.response.answers| && e.response.responseCode == NoError
      ensures Remaining(e, now) * SECOND + Since(now, e.storedAt) <= e.response.answers[i].ttl * SECOND
    {
      assert e.response.answers[i] in e.response.answers;
      RemainingFits(e, now, e.response.answers[i].ttl);
    }
    forall i | 0 <= i < |e.response.authorities| && e.response.authorities[i].data.Soa?
               && (e.response.responseCode == NXDomain || e.response.answers == [])
      ensures Remaining(e, now) * SECOND + Since(now, e.storedAt) <= e.response.authorities[i].ttl * SECOND
    {
      assert e.response.authorities[i] in e.response.authorities;
      RemainingFits(e, now, e.response.authorities[i].ttl);
    }
  }

  /**
   Every hit, in any run, is the reply of the latest cacheable store for the same resolver, name but
   for case, type and class, still younger than its TTL; only the caller's own fields and the TTLs
   differ, which are what is left of the entry's in whole seconds; and no answer of a positive reply,
   nor the SOA of a denial, outlives what it had left.
   */
  lemma HitIsLatestStore(capacity: nat, events: seq<Event>, query: Message, upstream: SocketAddr, now: Instant)
    returns (k: nat)
    requires capacity >= 1 && Admissible(capacity, events)
    requires Lookup(Run(capacity, events), Some(query), upstream, now).1.Some?
    ensures IsLatest(events, query, upstream, k)
    ensures HitOf(Lookup(Run(capacity, events), Some(query), upstream, now).1.value, query, EntryOf(events[k]), now)
  {
    CacheRefinesLog(capacity, events);
    var key := KeyFor(query, upstream).value;
    var e := Run(capacity, events)[key];
    LatestStoreIs(events, query, upstream);
    LatestIsCacheable(events, key);
    ServedIsHit(e, query, now);
    k :| IsLatest(events, query, upstream, k);
  }

  lemma {:induction false} LatestIsCacheable(events: seq<Event>, key: Key)
    ensures var e := LatestStore(events, key); e.Some? ==> CacheableTtl(e.value.response) == Some(e.value.ttl)
  {
    if events != [] { LatestIsCacheable(events[..|events| - 1], key); }
  }

  /**
   Answers carried by a denial are the exception: they are served within their own TTLs at every
   moment exactly when the TTL taken from the SOA does not exceed any of them.
   */
  lemma AnswersStayWithinIff(e: Entry, query: Message)
    requires e.ttl >= 1
    ensures (forall now: Instant | !Expired(e, now) ::
               forall i | 0 <= i < |e.response.answers| ::
                 WithinTtl(Served(e.response, query, Remaining(e, now)).answers[i], e.response.answers[i],
                           Since(now, e.storedAt)))
            <==> (forall a <- e.response.answers :: e.ttl <= a.ttl)
  {
    if forall a <- e.response.answers :: e.ttl <= a.ttl {
      forall now: Instant, i | !Expired(e, now) && 0 <= i < |e.response.answers|
        ensures WithinTtl(Served(e.response, query, Remaining(e, now)).answers[i], e.response.answers[i],
                          Since(now, e.storedAt))
      {
        assert e.response.answers[i] in e.response.answers;
        RemainingFits(e, now, e.response.answers[i].ttl);
      }
    } else {
      var a :| a in e.response.answers && !(e.ttl <= a.ttl);
      var i :| 0 <= i < |e.response.answers| && e.response.answers[i] == a;
      var now := e.storedAt;
      assert Remaining(e, now) == e.ttl;
      assert !WithinTtl(Served(e.response, query, Remaining(e, now)).answers[i], e.response.answers[i],
                        Since(now, e.storedAt));
    }
  }

  /** Such a denial exists: a name that is an alias of a missing one, the alias expiring before the denial. */
  lemma DenialCanOverserveAnswers(query: Message, name: string)
    ensures var alias := Record(name, 5, Data(""));
            var soa := Record(name, 60, Soa(60));
            var denial := Message(0, Response, false, false, NXDomain, query.queries, [alias], [soa], "");
            && CacheableTtl(denial) == Some(60)
            && Served(denial, query, Remaining(Entry(denial, 0, 60), 0)).answers[0].ttl == 60
  {
    var soa := Record(name, 60, Soa(60));
    assert soa in [soa];
    assert DenialTerms([soa]) == {60};
  }

  // ---------------------------------------------------------------------- completeness

  /** The keys ever stored. */
  function StoredKeys(events: seq<Event>): set<Key> {
    if events == [] then {}
    else
      var last := events[|events| - 1];
      var kept := if last.Put? then Remembered(last.query, last.response, last.upstream, last.now) else None;
      StoredKeys(events[..|events| - 1]) + (if kept.Some? then {kept.value.0} else {})
  }

  /** The clock never runs backwards, and `now` is not before the last event. */
  predicate ClockRuns(events: seq<Event>, now: Instant) {
    events == [] || (events[|events| - 1].now <= now && ClockRuns(events[..|events| - 1], events[|events| - 1].now))
  }

  /** Whatever the log holds and the cache does not has expired. */
  ghost predicate MissesOnlyExpired(entries: Entries, events: seq<Event>, now: Instant) {
    forall k: Key :: var latest := LatestStore(events, k);
                     latest.Some? ==> k in entries || Expired(latest.value, now)
  }

  lemma {:induction false} KeysWereStored(capacity: nat, events: seq<Event>)
    ensures Run(capacity, events).Keys <= StoredKeys(events)
  {
    if events != [] { KeysWereStored(capacity, events[..|events| - 1]); }
  }

  /** While the stored keys fit, a store never needs to evict. */
  lemma StoreNeedsNoRoom(capacity: nat, events: seq<Event>, key: Key)
    requires |StoredKeys(events) + {key}| <= capacity
    ensures !MustEvict(Run(capacity, events), capacity, key)
  {
    var entries := Run(capacity, events);
    KeysWereStored(capacity, events);
    if key !in entries {
      assert entries.Keys + {key} <= StoredKeys(events) + {key};
      SubsetSize(entries.Keys + {key}, StoredKeys(events) + {key});
      assert |entries| == |entries.Keys|;
    }
  }

  /** An entry once expired stays expired, so a miss justified earlier is still justified. */
  lemma ExpiredForGood(e: Entry, earlier: Instant, now: Instant)
    requires earlier <= now && Expired(e, earlier)
    ensures Expired(e, now)
  {
  }

  lemma LookMisses(entries: Entries, events: seq<Event>, e: Event, now: Instant)
    requires e.Look? && e.now <= now && MissesOnlyExpired(entries, events, e.now) && Refines(entries, events)
    ensures MissesOnlyExpired(Lookup(entries, e.query, e.upstream, e.now).0, events + [e], now)
  {
    assert (events + [e])[..|events|] == events;
    forall k: Key | LatestStore(events, k).Some?
      ensures k in Lookup(entries, e.query, e.upstream, e.now).0 || Expired(LatestStore(events, k).value, now)
    {
      if Expired(LatestStore(events, k).value, e.now) { ExpiredForGood(LatestStore(events, k).value, e.now, now); }
    }
  }

  lemma PutMisses(entries: Entries, capacity: nat, events: seq<Event>, e: Event, now: Instant)
    requires e.Put? && e.now <= now && MissesOnlyExpired(entries, events, e.now)
    requires var kept := Remembered(e.query, e.response, e.upstream, e.now);
             kept.Some? ==> !MustEvict(entries, capacity, kept.value.0)
    ensures MissesOnlyExpired(Step(entries, capacity, e), events + [e], now)
  {
    assert (events + [e])[..|events|] == events;
    forall k: Key | LatestStore(events + [e], k).Some?
      ensures k in Step(entries, capacity, e) || Expired(LatestStore(events + [e], k).value, now)
    {
      if LatestStore(events, k).Some? && Expired(LatestStore(events, k).value, e.now) {
        ExpiredForGood(LatestStore(events, k).value, e.now, now);
      }
    }
  }

  lemma StepRefines(entries: Entries, capacity: nat, events: seq<Event>, e: Event)
    requires Refines(entries, events)
    ensures Refines(Step(entries, capacity, e), events + [e])
  {
    assert (events + [e])[..|events|] == events;
  }

  /** While no more keys are stored than fit, nothing is lost before it expires. */
  lemma {:induction false} NothingLostWhileItFits(capacity: nat, events: seq<Event>, now: Instant)
    requires ClockRuns(events, now) && |StoredKeys(events)| <= capacity
    ensures var entries := Run(capacity, events); MissesOnlyExpired(entries, events, now) && Refines(entries, events)
  {
    if events != [] {
      var n := |events| - 1;
      var prefix, e := events[..n], events[n];
      assert prefix + [e] == events;
      SubsetSize(StoredKeys(prefix), StoredKeys(events));
      NothingLostWhileItFits(capacity, prefix, e.now);
      var before := Run(capacity, prefix);
      StepRefines(before, capacity, prefix, e);
      if e.Put? {
        var kept := Remembered(e.query, e.response, e.upstream, e.now);
        if kept.Some? { StoreNeedsNoRoom(capacity, prefix, kept.value.0); }
        PutMisses(before, capacity, prefix, e, now);
      } else {
        LookMisses(before, prefix, e, now);
      }
    }
  }

  /**
   As long as the keys stored fit the cache and the clock does not run backwards, a lookup hits
   exactly when its resolver's latest cacheable reply to its question was stored less than its TTL ago.
   */
  lemma HitsExactlyLikeTheLog(
      capacity: nat, events: seq<Event>, query: Message, upstream: SocketAddr, now: Instant)
    requires ClockRuns(events, now) && |StoredKeys(events)| <= capacity
    ensures Lookup(Run(capacity, events), Some(query), upstream, now).1.Some? <==>
            exists k: nat :: IsLatest(events, query, upstream, k) && !Expired(EntryOf(events[k]), now)
  {
    NothingLostWhileItFits(capacity, events, now);
    var key := KeyFor(query, upstream);
    if key.Some? {
      LatestStoreIs(events, query, upstream);
      var latest := LatestStore(events, key.value);
      if latest.Some? {
        assert key.value in Run(capacity, events) || Expired(latest.value, now);
        var k: nat :| IsLatest(events, query, upstream, k);
        assert latest == Some(EntryOf(events[k]));
      }
    }
  }
}
