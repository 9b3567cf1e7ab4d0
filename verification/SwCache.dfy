/** One Cache API cache, as `frontend/public/sw.js` uses it: an ordered list of
  * entries, a timestamped write, and the expiry-then-size eviction that follows
  * every write. Each entry carries the cache generation under which its write
  * was scheduled, so that the protocol theorems can speak about provenance. */
module SwCache {
  import opened Common

  /** The `sw-cached-date` header: absent, not a date, or a time in milliseconds. */
  datatype Stamp = Missing | Unparsable | At(ms: int)

  datatype Entry = Entry(key: string, stamp: Stamp, generation: nat)

  predicate IsCacheExpired(stamp: Stamp, maxAge: nat, now: int) {
    stamp.At? ==> now - stamp.ms > maxAge
  }

  /** The test made by the eviction loop: a zero `maxAge` switches expiry off. */
  predicate Survives(e: Entry, maxAge: nat, now: int) {
    maxAge == 0 || !IsCacheExpired(e.stamp, maxAge, now)
  }

  ghost predicate UniqueKeys(entries: seq<Entry>) {
    forall i, j :: 0 <= i < j < |entries| ==> entries[i].key != entries[j].key
  }

  function Keys(entries: seq<Entry>): (keys: seq<string>)
    ensures |keys| == |entries|
    ensures forall i :: 0 <= i < |keys| ==> keys[i] == entries[i].key
  {
    seq(|entries|, i requires 0 <= i < |entries| => entries[i].key)
  }

  /** Every entry but those under `key`, in order. */
  function Without(entries: seq<Entry>, key: string): seq<Entry> {
    if entries == [] then []
    else
      var rest := Without(entries[1..], key);
      if entries[0].key == key then rest else [entries[0]] + rest
  }

  /** `cache.put`: an existing entry for the key goes, the new one is the newest. */
  function PutEntry(entries: seq<Entry>, e: Entry): seq<Entry> {
    Without(entries, e.key) + [e]
  }

  /** The entries among the first `i` that survive when entry `j` is judged at `clock[j]`. */
  function Fresh(entries: seq<Entry>, i: nat, maxAge: nat, clock: seq<int>): seq<Entry>
    requires i <= |entries| && i <= |clock|
  {
    if i == 0 then []
    else
      var r := Fresh(entries, i - 1, maxAge, clock);
      if Survives(entries[i - 1], maxAge, clock[i - 1]) then r + [entries[i - 1]] else r
  }

  function Newest(entries: seq<Entry>, n: nat): seq<Entry> {
    if |entries| <= n then entries else entries[|entries| - n..]
  }

  /** What `limitCacheSize` leaves: the newest `maxSize` of the surviving entries. */
  function Limited(entries: seq<Entry>, maxSize: nat, maxAge: nat, clock: seq<int>): seq<Entry>
    requires |entries| <= |clock|
  {
    Newest(Fresh(entries, |entries|, maxAge, clock), maxSize)
  }

  // ---------- facts about the list operations ----------

  lemma {:induction false} WithoutMember(a: seq<Entry>, key: string, e: Entry)
    ensures e in Without(a, key) <==> e in a && e.key != key
  {
    if a != [] {
      WithoutMember(a[1..], key, e);
      assert e in a <==> e == a[0] || e in a[1..];
    }
  }

  lemma {:induction false} WithoutShrinks(a: seq<Entry>, key: string)
    ensures |Without(a, key)| <= |a|
  {
    if a != [] {
      WithoutShrinks(a[1..], key);
    }
  }

  lemma {:induction false} WithoutAppend(a: seq<Entry>, b: seq<Entry>, key: string)
    ensures Without(a + b, key) == Without(a, key) + Without(b, key)
  {
    if a == [] {
      assert a + b == b;
    } else {
      assert (a + b)[1..] == a[1..] + b;
      WithoutAppend(a[1..], b, key);
    }
  }

  lemma {:induction false} WithoutAbsent(a: seq<Entry>, key: string)
    requires forall i :: 0 <= i < |a| ==> a[i].key != key
    ensures Without(a, key) == a
  {
    if a != [] {
      WithoutAbsent(a[1..], key);
    }
  }

  lemma {:induction false} WithoutUnique(a: seq<Entry>, key: string)
    requires UniqueKeys(a)
    ensures UniqueKeys(Without(a, key))
  {
    if a != [] {
      WithoutUnique(a[1..], key);
      var rest := Without(a[1..], key);
      forall i | 0 <= i < |rest| ensures rest[i].key != a[0].key {
        WithoutMember(a[1..], key, rest[i]);
        var j :| 0 <= j < |a[1..]| && a[1..][j] == rest[i];
        assert a[j + 1] == rest[i];
      }
    }
  }

  /** Deleting the one entry `all[at]` of a list without repeated keys. */
  lemma {:induction false} WithoutAt(all: seq<Entry>, at: nat)
    requires UniqueKeys(all) && at < |all|
    ensures Without(all, all[at].key) == all[..at] + all[at + 1..]
  {
    if at == 0 {
      WithoutAbsent(all[1..], all[0].key);
    } else {
      WithoutAt(all[1..], at - 1);
      assert all[..at] == [all[0]] + all[1..][..at - 1];
      assert all[1..][at..] == all[at + 1..];
    }
  }

  /** Deleting the entry in the middle of `kept + rest`, at the front of `rest`. */
  lemma WithoutNext(kept: seq<Entry>, rest: seq<Entry>)
    requires rest != [] && UniqueKeys(kept + rest)
    ensures Without(kept + rest, rest[0].key) == kept + rest[1..]
  {
    WithoutAt(kept + rest, |kept|);
    assert (kept + rest)[..|kept|] == kept;
    assert (kept + rest)[|kept| + 1..] == rest[1..];
  }

  /** Under distinct keys, a put takes out the key's one entry, if there is one, and nothing else. */
  lemma PutReplaces(entries: seq<Entry>, e: Entry)
    requires UniqueKeys(entries)
    ensures (forall i :: 0 <= i < |entries| ==> entries[i].key != e.key) ==> PutEntry(entries, e) == entries + [e]
    ensures forall i :: 0 <= i < |entries| && entries[i].key == e.key ==>
              PutEntry(entries, e) == (entries[..i] + entries[i + 1..]) + [e]
  {
    if forall i :: 0 <= i < |entries| ==> entries[i].key != e.key {
      WithoutAbsent(entries, e.key);
    }
    forall i | 0 <= i < |entries| && entries[i].key == e.key
      ensures PutEntry(entries, e) == (entries[..i] + entries[i + 1..]) + [e]
    {
      WithoutAt(entries, i);
    }
  }

  /** A stored response is kept by the expiry pass exactly if expiry is off, or it carries a
    * readable time not more than `maxAge` ago: a missing or unreadable time has expired. */
  lemma SurvivesExactly(e: Entry, maxAge: nat, now: int)
    ensures Survives(e, maxAge, now) <==> maxAge == 0 || (e.stamp.At? && e.stamp.ms >= now - maxAge)
  {
  }

  /** Where the `p`-th survivor stood before. */
  function Origin(entries: seq<Entry>, i: nat, maxAge: nat, clock: seq<int>, p: nat): (j: nat)
    requires i <= |entries| && i <= |clock| && p < |Fresh(entries, i, maxAge, clock)|
    ensures j < i && entries[j] == Fresh(entries, i, maxAge, clock)[p] && Survives(entries[j], maxAge, clock[j])
  {
    if p < |Fresh(entries, i - 1, maxAge, clock)| then Origin(entries, i - 1, maxAge, clock, p) else i - 1
  }

  /** Survivors keep their order. */
  lemma {:induction false} OriginMonotone(entries: seq<Entry>, i: nat, maxAge: nat, clock: seq<int>, p: nat, q: nat)
    requires i <= |entries| && i <= |clock| && p < q < |Fresh(entries, i, maxAge, clock)|
    ensures Origin(entries, i, maxAge, clock, p) < Origin(entries, i, maxAge, clock, q)
  {
    if q < |Fresh(entries, i - 1, maxAge, clock)| {
      OriginMonotone(entries, i - 1, maxAge, clock, p, q);
    }
  }

  /** Which survivor an entry is. */
  lemma {:induction false} SurvivorOf(entries: seq<Entry>, i: nat, maxAge: nat, clock: seq<int>, j: nat) returns (q: nat)
    requires j < i <= |entries| && i <= |clock| && Survives(entries[j], maxAge, clock[j])
    ensures q < |Fresh(entries, i, maxAge, clock)| && Origin(entries, i, maxAge, clock, q) == j
  {
    if j < i - 1 {
      q := SurvivorOf(entries, i - 1, maxAge, clock, j);
    } else {
      q := |Fresh(entries, i - 1, maxAge, clock)|;
    }
  }

  /** No survivor is lost. */
  lemma FreshComplete(entries: seq<Entry>, i: nat, maxAge: nat, clock: seq<int>, j: nat)
    requires j < i <= |entries| && i <= |clock| && Survives(entries[j], maxAge, clock[j])
    ensures entries[j] in Fresh(entries, i, maxAge, clock)
  {
    var q := SurvivorOf(entries, i, maxAge, clock, j);
  }

  lemma FreshUnique(entries: seq<Entry>, i: nat, maxAge: nat, clock: seq<int>)
    requires i <= |entries| && i <= |clock| && UniqueKeys(entries)
    ensures UniqueKeys(Fresh(entries, i, maxAge, clock))
  {
    var r := Fresh(entries, i, maxAge, clock);
    forall p, q | 0 <= p < q < |r| ensures r[p].key != r[q].key {
      OriginMonotone(entries, i, maxAge, clock, p, q);
    }
  }

  lemma PutUnique(entries: seq<Entry>, e: Entry)
    requires UniqueKeys(entries)
    ensures UniqueKeys(PutEntry(entries, e))
    ensures |PutEntry(entries, e)| <= |entries| + 1
  {
    WithoutUnique(entries, e.key);
    WithoutShrinks(entries, e.key);
    var kept := Without(entries, e.key);
    forall i | 0 <= i < |kept| ensures kept[i].key != e.key {
      WithoutMember(entries, e.key, kept[i]);
    }
  }

  lemma LimitedUnique(entries: seq<Entry>, maxSize: nat, maxAge: nat, clock: seq<int>)
    requires UniqueKeys(entries) && |entries| <= |clock|
    ensures UniqueKeys(Limited(entries, maxSize, maxAge, clock))
  {
    FreshUnique(entries, |entries|, maxAge, clock);
  }

  /** Eviction adds nothing: what it leaves was there. */
  lemma LimitedMember(entries: seq<Entry>, maxSize: nat, maxAge: nat, clock: seq<int>, e: Entry)
    requires |entries| <= |clock| && e in Limited(entries, maxSize, maxAge, clock)
    ensures e in entries
  {
    var alive := Fresh(entries, |entries|, maxAge, clock);
    var p :| 0 <= p < |alive| && alive[p] == e;
    assert entries[Origin(entries, |entries|, maxAge, clock, p)] == e;
  }

  /** What the size limit drops stood before all it keeps. */
  lemma DroppedAreOldest(put: seq<Entry>, maxSize: nat, maxAge: nat, clock: seq<int>, j: nat)
    requires |put| <= |clock| && j < |put| && Survives(put[j], maxAge, clock[j])
    requires put[j] !in Limited(put, maxSize, maxAge, clock)
    ensures var r := Limited(put, maxSize, maxAge, clock);
            |r| == maxSize && forall p :: 0 <= p < |r| ==> r[p] in put[j + 1..]
  {
    var alive := Fresh(put, |put|, maxAge, clock);
    var r := Limited(put, maxSize, maxAge, clock);
    var from := |alive| - |r|;
    var q := SurvivorOf(put, |put|, maxAge, clock, j);
    forall m | from <= m < |alive| ensures alive[m] in r {
      assert r[m - from] == alive[m];
    }
    forall p | 0 <= p < |r| ensures r[p] in put[j + 1..] {
      OriginMonotone(put, |put|, maxAge, clock, q, from + p);
      var k := Origin(put, |put|, maxAge, clock, from + p);
      assert put[j + 1..][k - j - 1] == r[p];
    }
  }

  /** What is kept was there, and survived when it was judged. */
  lemma KeptSurvives(put: seq<Entry>, maxSize: nat, maxAge: nat, clock: seq<int>, p: nat) returns (j: nat)
    requires |put| <= |clock| && p < |Limited(put, maxSize, maxAge, clock)|
    ensures j < |put| && put[j] == Limited(put, maxSize, maxAge, clock)[p] && Survives(put[j], maxAge, clock[j])
  {
    var alive := Fresh(put, |put|, maxAge, clock);
    j := Origin(put, |put|, maxAge, clock, |alive| - |Limited(put, maxSize, maxAge, clock)| + p);
  }

  lemma LastStays(put: seq<Entry>, maxSize: nat, maxAge: nat, clock: seq<int>)
    requires 0 < |put| <= |clock| && maxSize > 0 && Survives(put[|put| - 1], maxAge, clock[|put| - 1])
    ensures var r := Limited(put, maxSize, maxAge, clock);
            0 < |r| <= maxSize && r[|r| - 1] == put[|put| - 1]
  {
    hide Survives;
    var alive := Fresh(put, |put|, maxAge, clock);
    assert alive[|alive| - 1] == put[|put| - 1];
  }

  /** A write followed by its eviction leaves at most `maxSize` entries, all of them
    * unexpired when judged, the entry just written last, and drops an unexpired entry
    * only when `maxSize` entries that stood behind it stay. It does so whatever the cache
    * held before. */
  lemma WriteLeavesNewest(entries: seq<Entry>, e: Entry, maxSize: nat, maxAge: nat, clock: seq<int>)
    requires UniqueKeys(entries) && maxSize > 0
    requires |PutEntry(entries, e)| <= |clock|
    requires Survives(e, maxAge, clock[|PutEntry(entries, e)| - 1])
    ensures var put := PutEntry(entries, e);
            var r := Limited(put, maxSize, maxAge, clock);
            && UniqueKeys(r) && 0 < |r| <= maxSize && r[|r| - 1] == e
            && (forall p :: 0 <= p < |r| ==>
                  exists j :: 0 <= j < |put| && put[j] == r[p] && Survives(put[j], maxAge, clock[j]))
            && (forall j :: 0 <= j < |put| && Survives(put[j], maxAge, clock[j]) && put[j] !in r ==>
                  |r| == maxSize && forall p :: 0 <= p < |r| ==> r[p] in put[j + 1..])
  {
    hide Fresh, Limited, Without, Survives, Origin, UniqueKeys;
    var put := PutEntry(entries, e);
    var r := Limited(put, maxSize, maxAge, clock);
    PutUnique(entries, e);
    LimitedUnique(put, maxSize, maxAge, clock);
    LastStays(put, maxSize, maxAge, clock);
    forall p | 0 <= p < |r|
      ensures exists j :: 0 <= j < |put| && put[j] == r[p] && Survives(put[j], maxAge, clock[j])
    {
      var j := KeptSurvives(put, maxSize, maxAge, clock, p);
    }
    forall j | 0 <= j < |put| && Survives(put[j], maxAge, clock[j]) && put[j] !in r
      ensures |r| == maxSize && forall p :: 0 <= p < |r| ==> r[p] in put[j + 1..]
    {
      DroppedAreOldest(put, maxSize, maxAge, clock, j);
    }
  }

  /** The cache while the eviction loop stands before key `i`. */
  ghost function Scanned(base: seq<Entry>, i: nat, maxAge: nat, clock: seq<int>): seq<Entry>
    requires i <= |base| && i <= |clock|
  {
    Fresh(base, i, maxAge, clock) + base[i..]
  }

  lemma ScannedEnds(base: seq<Entry>, maxAge: nat, clock: seq<int>)
    requires |base| <= |clock|
    ensures Scanned(base, 0, maxAge, clock) == base
    ensures Scanned(base, |base|, maxAge, clock) == Fresh(base, |base|, maxAge, clock)
    ensures Keys(Fresh(base, 0, maxAge, clock)) == []
  {
  }

  lemma FoundIsAt(all: seq<Entry>, k: nat, found: Option<Entry>)
    requires UniqueKeys(all) && k < |all|
    requires found.Some? ==> found.value in all && found.value.key == all[k].key
    requires found.None? ==> forall e :: e in all ==> e.key != all[k].key
    ensures found == Some(all[k])
  {
    assert all[k] in all;
    if found.Some? {
      var j :| 0 <= j < |all| && all[j] == found.value;
      assert j < k ==> all[j].key != all[k].key;
      assert k < j ==> all[k].key != all[j].key;
    }
  }

  lemma ScanStep(base: seq<Entry>, i: nat, maxAge: nat, clock: seq<int>, found: Option<Entry>)
    requires i < |base| && i < |clock| && UniqueKeys(Scanned(base, i, maxAge, clock))
    requires found.Some? ==> found.value in Scanned(base, i, maxAge, clock) && found.value.key == base[i].key
    requires found.None? ==> forall e :: e in Scanned(base, i, maxAge, clock) ==> e.key != base[i].key
    ensures found == Some(base[i])
    ensures Scanned(base, i + 1, maxAge, clock)
         == if Survives(base[i], maxAge, clock[i]) then Scanned(base, i, maxAge, clock)
            else Without(Scanned(base, i, maxAge, clock), base[i].key)
    ensures Keys(Fresh(base, i + 1, maxAge, clock))
         == Keys(Fresh(base, i, maxAge, clock)) + (if Survives(base[i], maxAge, clock[i]) then [base[i].key] else [])
  {
    hide UniqueKeys, Survives;
    var kept, all := Fresh(base, i, maxAge, clock), Scanned(base, i, maxAge, clock);
    assert all[|kept|] == base[i];
    FoundIsAt(all, |kept|, found);
    WithoutNext(kept, base[i..]);
  }

  // ---------- the cache object and the two functions that change it ----------

  class Cache {
    var entries: seq<Entry>

    ghost predicate Valid()
      reads this
    {
      UniqueKeys(entries)
    }

    constructor ()
      ensures Valid() && entries == []
    {
      entries := [];
    }

    method Put(e: Entry)
      requires Valid()
      modifies this
      ensures Valid() && entries == PutEntry(old(entries), e)
    {
      PutUnique(entries, e);
      entries := Without(entries, e.key) + [e];
    }

    method Delete(key: string)
      requires Valid()
      modifies this
      ensures Valid() && entries == Without(old(entries), key)
    {
      WithoutUnique(entries, key);
      entries := Without(entries, key);
    }

    method Match(key: string) returns (response: Option<Entry>)
      requires Valid()
      ensures response.Some? ==> response.value in entries && response.value.key == key
      ensures response.None? ==> forall e :: e in entries ==> e.key != key
    {
      for i := 0 to |entries|
        invariant forall j :: 0 <= j < i ==> entries[j].key != key
      {
        if entries[i].key == key {
          return Some(entries[i]);
        }
      }
      return None;
    }
  }

  /** A request and the part of a response that decides whether it is stored. */
  datatype Write = Write(isGet: bool, status: nat, key: string, generation: nat)

  predicate Cacheable(w: Write) {
    w.isGet && w.status != 206
  }

  method CacheWithTimestamp(cache: Cache, w: Write, now: int)
    requires cache.Valid()
    modifies cache
    ensures cache.Valid()
    ensures cache.entries == if w.isGet && w.status != 206
                             then PutEntry(old(cache.entries), Entry(w.key, At(now), w.generation))
                             else old(cache.entries)
  {
    if !w.isGet {
      return;
    }
    if w.status == 206 {
      return;
    }
    cache.Put(Entry(w.key, At(now), w.generation));
  }

  /** `clock[i]` is the time read when the loop looks at the i-th key. */
  method LimitCacheSize(cache: Cache, maxSize: nat, maxAge: nat, clock: seq<int>)
    requires cache.Valid() && |cache.entries| <= |clock|
    modifies cache
    ensures cache.Valid()
    ensures cache.entries == Limited(old(cache.entries), maxSize, maxAge, clock)
  {
    hide Scanned, Fresh, Without, UniqueKeys;
    ghost var base := cache.entries;
    var keys := Keys(cache.entries);
    var retained: seq<string> := [];
    ScannedEnds(base, maxAge, clock);
    for i := 0 to |keys|
      invariant cache.Valid()
      invariant cache.entries == Scanned(base, i, maxAge, clock)
      invariant retained == Keys(Fresh(base, i, maxAge, clock))
    {
      var response := cache.Match(keys[i]);
      ScanStep(base, i, maxAge, clock, response);
      if response.Some? && maxAge != 0 && IsCacheExpired(response.value.stamp, maxAge, clock[i]) {
        cache.Delete(keys[i]);
        assert !Survives(base[i], maxAge, clock[i]);
      } else {
        assert Survives(base[i], maxAge, clock[i]);
        retained := retained + [keys[i]];
      }
    }
    EvictOldest(cache, retained, maxSize);
  }

  /** The last statement of `limitCacheSize`: delete all but the newest `maxSize` keys. */
  method EvictOldest(cache: Cache, retained: seq<string>, maxSize: nat)
    requires cache.Valid() && retained == Keys(cache.entries)
    modifies cache
    ensures cache.Valid() && cache.entries == Newest(old(cache.entries), maxSize)
  {
    ghost var all := cache.entries;
    var excess := if |retained| > maxSize then |retained| - maxSize else 0;
    for i := 0 to excess
      invariant cache.Valid()
      invariant cache.entries == all[i..]
    {
      WithoutNext([], all[i..]);
      assert [] + all[i..] == all[i..] && [] + all[i..][1..] == all[i + 1..];
      cache.Delete(retained[i]);
    }
  }
}
