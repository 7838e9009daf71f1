/**
 * The namespace snapshot cache of src/reslib/k8s/workloads.py: `get_namespace_policies_snapshot` run by
 * any number of callers over one cache with a time to live. A step is what runs between two awaits;
 * the section under the lock awaits nothing, so it is one step.
 */
module SnapshotCache {
  import opened Wrappers

  const MAXSIZE := 64
  const TTL := 30

  /** `hashkey(k8s, namespace)`: the client by identity, the namespace by name. */
  datatype Key = Key(client: nat, namespace: string)

  /** What caller `fetcher` fetched for `key`; two fetches are never the same snapshot. */
  datatype Snapshot = Snapshot(key: Key, fetcher: nat)

  datatype Entry = Entry(snapshot: Snapshot, insertedAt: int)

  type Entries = map<Key, Entry>

  predicate Live(entries: Entries, key: Key, now: int) {
    key in entries && now < entries[key].insertedAt + TTL
  }

  /** `cache.get(key)`. */
  function Lookup(entries: Entries, key: Key, now: int): Option<Snapshot> {
    if Live(entries, key, now) then Some(entries[key].snapshot) else None
  }

  /** The expired entries go first; then, if the cache is full, the least recently used one. */
  function Expire(entries: Entries, now: int): Entries {
    map k | k in entries && Live(entries, k, now) :: entries[k]
  }

  /** `cache[key] = snapshot`; `victim` is the entry that is evicted if one has to be. */
  function Insert(entries: Entries, key: Key, snapshot: Snapshot, now: int, victim: Key): Entries {
    var kept := Expire(entries, now) - {key};
    var room := if |kept| < MAXSIZE then kept else kept - {victim};
    room[key := Entry(snapshot, now)]
  }

  /** The section under the lock: look again, insert what was fetched if there is still nothing. */
  function Settle(entries: Entries, fetched: Snapshot, now: int, victim: Key): (Entries, Snapshot) {
    match Lookup(entries, fetched.key, now)
    case Some(existing) => (entries, existing)
    case None => (Insert(entries, fetched.key, fetched, now, victim), fetched)
  }

  datatype Caller =
    | Called(key: Key)
    | Fetching(key: Key)
    | AtLock(key: Key)
    | Returned(key: Key, snapshot: Snapshot, at: int)
    | Raised(key: Key)

  /** Callers are numbered in the order in which they call. */
  datatype World = World(now: int, entries: Entries, callers: seq<Caller>)

  datatype Event =
    | Tick
    | Call(key: Key)
    | Look(caller: nat)
    | FetchEnds(caller: nat)
    | FetchRaises(caller: nat)
    | Lock(caller: nat, victim: Key)

  predicate Enabled(w: World, e: Event) {
    match e
    case Tick => true
    case Call(_) => true
    case Look(c) => c < |w.callers| && w.callers[c].Called?
    case FetchEnds(c) => c < |w.callers| && w.callers[c].Fetching?
    case FetchRaises(c) => c < |w.callers| && w.callers[c].Fetching?
    case Lock(c, victim) => c < |w.callers| && w.callers[c].AtLock? && Evictable(w, w.callers[c].key, victim)
  }

  /** The victim is one of the entries, if the cache is full without the key. */
  predicate Evictable(w: World, key: Key, victim: Key) {
    var kept := Expire(w.entries, w.now) - {key};
    |kept| < MAXSIZE || victim in kept
  }

  function After(w: World, e: Event): World
    requires Enabled(w, e)
  {
    match e
    case Tick => w.(now := w.now + 1)
    case Call(key) => w.(callers := w.callers + [Called(key)])
    case Look(c) =>
      var key := w.callers[c].key;
      var next := match Lookup(w.entries, key, w.now)
                  case Some(s) => Returned(key, s, w.now)
                  case None => Fetching(key);
      w.(callers := w.callers[c := next])
    case FetchEnds(c) => w.(callers := w.callers[c := AtLock(w.callers[c].key)])
    case FetchRaises(c) => w.(callers := w.callers[c := Raised(w.callers[c].key)])
    case Lock(c, victim) =>
      var key := w.callers[c].key;
      var (entries, s) := Settle(w.entries, Snapshot(key, c), w.now, victim);
      World(w.now, entries, w.callers[c := Returned(key, s, w.now)])
  }

  ghost predicate Next(w: World, w': World) {
    exists e: Event :: Enabled(w, e) && w' == After(w, e)
  }

  ghost predicate IsRun(run: seq<World>) {
    && 0 < |run|
    && run[0].entries == map[] && run[0].callers == []
    && forall k :: 0 <= k < |run| - 1 ==> Next(run[k], run[k + 1])
  }

  /**
   * The cache holds what a caller of the key fetched and returned at the moment of insertion; and what a
   * caller returned is its own fetch or the one that another caller of its key returned as its own, less
   * than the time to live earlier.
   */
  ghost predicate Inv(w: World) {
    && |w.entries| <= MAXSIZE
    && (forall k :: k in w.entries ==> Sound(w, k, w.entries[k]))
    && (forall c: nat :: c < |w.callers| && w.callers[c].Returned? ==> Accounted(w, c))
  }

  ghost predicate Sound(w: World, k: Key, e: Entry) {
    && e.snapshot.key == k && e.insertedAt <= w.now
    && e.snapshot.fetcher < |w.callers|
    && w.callers[e.snapshot.fetcher] == Returned(k, e.snapshot, e.insertedAt)
  }

  ghost predicate Accounted(w: World, c: nat)
    requires c < |w.callers| && w.callers[c].Returned?
  {
    var Returned(key, s, at) := w.callers[c];
    && s.key == key && at <= w.now
    && s.fetcher < |w.callers|
    && w.callers[s.fetcher].Returned?
    && w.callers[s.fetcher] == Returned(key, s, w.callers[s.fetcher].at)
    && (s.fetcher == c || w.callers[s.fetcher].at <= at < w.callers[s.fetcher].at + TTL)
  }

  lemma InsertSize(entries: Entries, key: Key, s: Snapshot, now: int, victim: Key)
    requires |entries| <= MAXSIZE
    requires var kept := Expire(entries, now) - {key}; |kept| < MAXSIZE || victim in kept
    ensures |Insert(entries, key, s, now, victim)| <= MAXSIZE
  {
    var kept := Expire(entries, now) - {key};
    SubmapSize(kept, entries);
    if |kept| < MAXSIZE {
      AddSize(kept, key, Entry(s, now));
    } else {
      RemoveSize(kept, victim);
      AddSize(kept - {victim}, key, Entry(s, now));
    }
  }

  lemma RemoveSize(entries: Entries, key: Key)
    requires key in entries
    ensures |entries - {key}| == |entries| - 1
  {
  }

  lemma AddSize(entries: Entries, key: Key, e: Entry)
    ensures |entries[key := e]| <= |entries| + 1
  {
  }

  lemma SubmapSize(a: Entries, b: Entries)
    requires a.Keys <= b.Keys
    ensures |a| <= |b|
  {
    SubsetSize(a.Keys, b.Keys);
  }

  lemma {:induction false} SubsetSize<T>(a: set<T>, b: set<T>)
    requires a <= b
    ensures |a| <= |b|
    decreases a
  {
    if x :| x in a {
      SubsetSize(a - {x}, b - {x});
    }
  }

  lemma StepInv(w: World, e: Event)
    requires Inv(w) && Enabled(w, e)
    ensures Inv(After(w, e))
  {
    var w' := After(w, e);
    match e
    case Tick =>
      KeepsAccounts(w, w');
    case Call(_) =>
      KeepsAccounts(w, w');
    case Look(c) =>
      OthersKeepAccounts(w, w', c);
      if w'.callers[c].Returned? {
        HitAccounted(w, w', c, w.callers[c].key);
      }
    case FetchEnds(c) =>
      OthersKeepAccounts(w, w', c);
    case FetchRaises(c) =>
      OthersKeepAccounts(w, w', c);
    case Lock(c, victim) =>
      LockInv(w, c, victim);
  }

  lemma LockInv(w: World, c: nat, victim: Key)
    requires Inv(w) && Enabled(w, Lock(c, victim))
    ensures Inv(After(w, Lock(c, victim)))
  {
    var w' := After(w, Lock(c, victim));
    var key := w.callers[c].key;
    OthersKeepAccounts(w, w', c);
    if Live(w.entries, key, w.now) {
      HitAccounted(w, w', c, key);
    } else {
      InsertSize(w.entries, key, Snapshot(key, c), w.now, victim);
      InsertSound(w, w', c, victim);
    }
  }

  lemma InsertSound(w: World, w': World, c: nat, victim: Key)
    requires c < |w.callers| == |w'.callers| && w.now == w'.now
    requires forall k :: k in w.entries ==> Sound(w', k, w.entries[k])
    requires var key := w.callers[c].key;
             && w'.entries == Insert(w.entries, key, Snapshot(key, c), w.now, victim)
             && w'.callers[c] == Returned(key, Snapshot(key, c), w.now)
    ensures forall k :: k in w'.entries ==> Sound(w', k, w'.entries[k])
  {
  }

  /** A caller that is given a live entry is accounted for by the caller that inserted it. */
  lemma HitAccounted(w: World, w': World, c: nat, key: Key)
    requires Inv(w) && Live(w.entries, key, w.now) && c < |w.callers| && !w.callers[c].Returned?
    requires w' == w.(callers := w.callers[c := Returned(key, w.entries[key].snapshot, w.now)])
    ensures Accounted(w', c)
  {
  }

  lemma KeepsAccounts(w: World, w': World)
    requires Inv(w) && w.now <= w'.now && w.callers <= w'.callers
    requires forall c :: |w.callers| <= c < |w'.callers| ==> !w'.callers[c].Returned?
    ensures forall c: nat :: c < |w'.callers| && w'.callers[c].Returned? ==> Accounted(w', c)
    ensures forall k :: k in w.entries ==> Sound(w', k, w.entries[k])
  {
  }

  /** A caller that had not returned is nobody's source, so the others stay accounted for. */
  lemma OthersKeepAccounts(w: World, w': World, c: nat)
    requires Inv(w) && w.now == w'.now && c < |w.callers| == |w'.callers| && !w.callers[c].Returned?
    requires w'.callers == w.callers[c := w'.callers[c]]
    ensures forall d: nat :: d < |w'.callers| && d != c && w'.callers[d].Returned? ==> Accounted(w', d)
    ensures forall k :: k in w.entries ==> Sound(w', k, w.entries[k])
  {
    forall k | k in w.entries ensures Sound(w', k, w.entries[k]) {
      assert Sound(w, k, w.entries[k]);
    }
    forall d: nat | d < |w'.callers| && d != c && w'.callers[d].Returned? ensures Accounted(w', d) {
      assert Accounted(w, d);
    }
  }

  lemma {:induction false} RunInv(run: seq<World>, k: nat)
    requires IsRun(run) && k < |run|
    ensures Inv(run[k])
  {
    if k > 0 {
      RunInv(run, k - 1);
      assert Next(run[k - 1], run[k]);
      var e: Event :| Enabled(run[k - 1], e) && run[k] == After(run[k - 1], e);
      StepInv(run[k - 1], e);
    }
  }

  /**
   * In every run: what a caller returns was fetched for its own key, and it is either its own fetch or
   * the snapshot that another caller of the key fetched, inserted and returned less than 30 ticks before.
   */
  lemma ReturnsAreFreshAndOwn(run: seq<World>, k: nat, c: nat)
    requires IsRun(run) && k < |run| && c < |run[k].callers| && run[k].callers[c].Returned?
    ensures var Returned(key, s, at) := run[k].callers[c];
            && s.key == key
            && s.fetcher < |run[k].callers|
            && (s.fetcher == c ||
                exists inserted: int ::
                  run[k].callers[s.fetcher] == Returned(key, s, inserted) && inserted <= at < inserted + 30)
  {
    RunInv(run, k);
    assert Accounted(run[k], c);
  }

  /** A caller whose key no other caller has gets its own fetch. */
  lemma OwnClientOwnFetch(run: seq<World>, k: nat, c: nat)
    requires IsRun(run) && k < |run| && c < |run[k].callers| && run[k].callers[c].Returned?
    requires forall j :: 0 <= j < |run[k].callers| && j != c ==> run[k].callers[j].key != run[k].callers[c].key
    ensures run[k].callers[c].snapshot.fetcher == c
  {
    RunInv(run, k);
    assert Accounted(run[k], c);
  }

  /**
   * Reuse, with the time to live written out: a caller that looks returns the snapshot its key has in the cache
   * if and only if the entry is there and was inserted less than 30 ticks ago; otherwise it goes on to fetch.
   */
  lemma LookReusesIff(w: World, c: nat)
    requires Enabled(w, Look(c))
    ensures var key := w.callers[c].key; var after := After(w, Look(c)).callers[c];
            && (after.Returned? <==> key in w.entries && w.now < w.entries[key].insertedAt + 30)
            && (after.Returned? ==> after == Returned(key, w.entries[key].snapshot, w.now))
            && (!after.Returned? ==> after == Fetching(key))
  {
  }

  /** The same under the lock: such an entry wins over the own fetch, which otherwise is inserted and returned. */
  lemma LockReusesIff(w: World, c: nat, victim: Key)
    requires Enabled(w, Lock(c, victim))
    ensures var key := w.callers[c].key; var w' := After(w, Lock(c, victim));
            if key in w.entries && w.now < w.entries[key].insertedAt + 30 then
              && w'.callers[c] == Returned(key, w.entries[key].snapshot, w.now) && w'.entries == w.entries
            else
              && w'.callers[c] == Returned(key, Snapshot(key, c), w.now)
              && key in w'.entries && w'.entries[key] == Entry(Snapshot(key, c), w.now)
  {
  }

  /** The entries of other keys that are live. */
  function OthersLive(entries: Entries, key: Key, now: int): set<Key> {
    set k | k in entries && k != key && now < entries[k].insertedAt + 30
  }

  lemma KeptAreLive(entries: Entries, key: Key, now: int)
    ensures (Expire(entries, now) - {key}).Keys == OthersLive(entries, key, now)
  {
  }

  /** A live entry of one's own leaves room for 63 others. */
  lemma OwnTakesRoom(entries: Entries, key: Key, now: int)
    requires |entries| <= MAXSIZE && Live(entries, key, now)
    ensures |OthersLive(entries, key, now)| < 64
  {
    var others := OthersLive(entries, key, now);
    SubsetSize(others + {key}, entries.Keys);
  }

  lemma InsertEvicts(entries: Entries, key: Key, s: Snapshot, now: int, victim: Key, k: Key)
    requires var kept := Expire(entries, now) - {key}; |kept| < MAXSIZE || victim in kept
    requires k in OthersLive(entries, key, now) && |entries| <= MAXSIZE
    ensures k !in Insert(entries, key, s, now, victim)
            <==> |OthersLive(entries, key, now)| == 64 && k == victim
  {
    var kept := Expire(entries, now) - {key};
    KeptAreLive(entries, key, now);
    SubsetSize(kept.Keys, entries.Keys);
    assert |kept| == |kept.Keys|;
  }

  /**
   * Eviction, with the size written out: a caller under the lock makes the cache lose a live entry of another
   * key if and only if 64 of them are held, and then exactly the victim.
   */
  lemma EvictsIff(w: World, c: nat, victim: Key)
    requires Inv(w) && Enabled(w, Lock(c, victim))
    ensures var others := OthersLive(w.entries, w.callers[c].key, w.now); var w' := After(w, Lock(c, victim));
            && ((exists k :: k in others && k !in w'.entries) <==> |others| == 64)
            && forall k :: k in others && k !in w'.entries ==> k == victim
  {
    var key := w.callers[c].key;
    var others := OthersLive(w.entries, key, w.now);
    if Live(w.entries, key, w.now) {
      OwnTakesRoom(w.entries, key, w.now);
    } else {
      forall k | k in others
        ensures k !in After(w, Lock(c, victim)).entries <==> |others| == 64 && k == victim
      {
        InsertEvicts(w.entries, key, Snapshot(key, c), w.now, victim, k);
      }
      VictimIsOther(w, c, victim);
    }
  }

  lemma VictimIsOther(w: World, c: nat, victim: Key)
    requires Enabled(w, Lock(c, victim))
    ensures var others := OthersLive(w.entries, w.callers[c].key, w.now); |others| == 64 ==> victim in others
  {
    KeptAreLive(w.entries, w.callers[c].key, w.now);
    var kept := Expire(w.entries, w.now) - {w.callers[c].key};
    assert |kept| == |kept.Keys|;
  }

  /** Caller `c` returns what another inserted `n` ticks before. */
  ghost predicate SharesAfter(run: seq<World>, c: nat, n: int) {
    && IsRun(run)
    && var w := run[|run| - 1];
       && c < |w.callers| && w.callers[c].Returned?
       && var s := w.callers[c].snapshot;
          && s.fetcher != c && s.fetcher < |w.callers|
          && w.callers[s.fetcher] == Returned(s.key, s, w.callers[c].at - n)
  }

  /** A fetch is shared over a distance of `n` ticks in some run if and only if `n` is from 0 to 29. */
  lemma SharedForIff(n: int)
    ensures (exists run, c: nat :: SharesAfter(run, c, n)) <==> 0 <= n < 30
  {
    if run, c: nat :| SharesAfter(run, c, n) {
      RunInv(run, |run| - 1);
      assert Accounted(run[|run| - 1], c);
    }
    if 0 <= n < 30 {
      var run := SharingAfter(n);
      assert SharesAfter(run, 1, n);
    }
  }

  lemma SharingAfter(n: nat) returns (run: seq<World>)
    requires n < 30
    ensures SharesAfter(run, 1, n)
  {
    var key := Key(0, "a");
    run := InsertedRun([key, key], 0);
    var inserted := run[|run| - 1];
    for t := 0 to n
      invariant IsRun(run) && run[|run| - 1] == inserted.(now := t)
    {
      run := Extend(run, Tick);
    }
    run := Extend(run, Look(1));
  }

  /** All call; then caller `i` looks, fetches and inserts. */
  lemma InsertedRun(keys: seq<Key>, i: nat) returns (run: seq<World>)
    requires i < |keys|
    ensures IsRun(run)
    ensures run[|run| - 1] == World(
              0, map[keys[i] := Entry(Snapshot(keys[i], i), 0)],
              seq(|keys|, m requires 0 <= m < |keys| =>
                if m == i then Returned(keys[i], Snapshot(keys[i], i), 0) else Called(keys[m])))
  {
    run := AllCall(keys);
    run := Extend(run, Look(i));
    run := Extend(run, FetchEnds(i));
    assert Expire(map[], 0) - {keys[i]} == map[];
    run := Extend(run, Lock(i, keys[i]));
  }

  /** A run in which callers come with these keys, and caller `c` returns what another has fetched. */
  ghost predicate SharesIn(run: seq<World>, keys: seq<Key>, c: nat) {
    && IsRun(run)
    && var callers := run[|run| - 1].callers;
       && |callers| == |keys| && (forall i :: 0 <= i < |keys| ==> callers[i].key == keys[i])
       && c < |callers| && callers[c].Returned? && callers[c].snapshot.fetcher != c
  }

  /** Callers share a fetch in some run if and only if they share a key, the client included. */
  lemma SharesIff(keys: seq<Key>, c: nat)
    requires c < |keys|
    ensures (exists run :: SharesIn(run, keys, c)) <==> exists i :: 0 <= i < |keys| && i != c && keys[i] == keys[c]
  {
    if run :| SharesIn(run, keys, c) {
      if forall j :: 0 <= j < |keys| && j != c ==> keys[j] != keys[c] {
        OwnClientOwnFetch(run, |run| - 1, c);
      }
    }
    if i: nat :| i < |keys| && i != c && keys[i] == keys[c] {
      var run := SharingRun(keys, c, i);
    }
  }

  /** All call; one looks, fetches and inserts; the other looks and finds it. */
  lemma SharingRun(keys: seq<Key>, c: nat, i: nat) returns (run: seq<World>)
    requires c < |keys| && i < |keys| && i != c && keys[i] == keys[c]
    ensures SharesIn(run, keys, c)
  {
    run := InsertedRun(keys, i);
    run := Extend(run, Look(c));
  }

  lemma AllCall(keys: seq<Key>) returns (run: seq<World>)
    ensures IsRun(run) && run[|run| - 1] == World(0, map[], seq(|keys|, n requires 0 <= n < |keys| => Called(keys[n])))
  {
    run := [World(0, map[], [])];
    for n := 0 to |keys|
      invariant IsRun(run)
      invariant run[|run| - 1] == World(0, map[], seq(n, m requires 0 <= m < n => Called(keys[m])))
    {
      run := Extend(run, Call(keys[n]));
    }
  }

  lemma Extend(run: seq<World>, e: Event) returns (longer: seq<World>)
    requires IsRun(run) && Enabled(run[|run| - 1], e)
    ensures longer == run + [After(run[|run| - 1], e)] && IsRun(longer)
  {
    longer := run + [After(run[|run| - 1], e)];
    forall k | 0 <= k < |longer| - 1 ensures Next(longer[k], longer[k + 1]) {
      if k < |run| - 1 {
        assert Next(run[k], run[k + 1]);
      }
    }
  }

  /**
   * A live entry is never overwritten. It stays as it is in every step, unless a caller of another key
   * inserts into a full cache and evicts it.
   */
  lemma NeverOverwritten(w: World, e: Event, key: Key)
    requires Inv(w) && Enabled(w, e) && Live(w.entries, key, w.now)
    ensures key in After(w, e).entries ==> After(w, e).entries[key] == w.entries[key]
    ensures key !in After(w, e).entries ==>
              && e.Lock? && e.victim == key && w.callers[e.caller].key != key
              && |Expire(w.entries, w.now) - {w.callers[e.caller].key}| == MAXSIZE
  {
    if e.Lock? {
      var own := w.callers[e.caller].key;
      if own != key {
        InsertKeeps(w.entries, own, Snapshot(own, e.caller), w.now, e.victim, key);
      }
    }
  }

  lemma InsertKeeps(entries: Entries, key: Key, s: Snapshot, now: int, victim: Key, other: Key)
    requires |entries| <= MAXSIZE && Live(entries, other, now) && other != key
    ensures var after := Insert(entries, key, s, now, victim);
            if other in after then after[other] == entries[other]
            else victim == other && |Expire(entries, now) - {key}| == MAXSIZE
  {
    var kept := Expire(entries, now) - {key};
    SubmapSize(kept, entries);
    assert other in kept;
  }

  /** A caller returns what the cache holds for its key right after its step. */
  lemma ReturnsWhatIsCached(w: World, e: Event, c: nat)
    requires Inv(w) && Enabled(w, e) && c < |w.callers|
    requires !w.callers[c].Returned? && After(w, e).callers[c].Returned?
    ensures var w' := After(w, e); var Returned(key, s, at) := w'.callers[c];
            at == w'.now && Lookup(w'.entries, key, w'.now) == Some(s)
  {
  }

  /** Step `i` of the run is the one in which caller `c` returns. */
  ghost predicate ReturnsAt(run: seq<World>, i: nat, c: nat)
    requires IsRun(run)
  {
    && 0 < i < |run|
    && c < |run[i - 1].callers| && c < |run[i].callers|
    && !run[i - 1].callers[c].Returned? && run[i].callers[c].Returned?
  }

  /**
   * Coherence: callers of one key that return between an insertion and the expiry or eviction of that
   * entry all return the same snapshot.
   */
  lemma SameEntrySameSnapshot(run: seq<World>, i: nat, j: nat, a: nat, b: nat)
    requires IsRun(run) && i <= j && ReturnsAt(run, i, a) && ReturnsAt(run, j, b)
    requires run[i].callers[a].key == run[j].callers[b].key
    requires forall m :: i <= m <= j ==> Live(run[m].entries, run[i].callers[a].key, run[m].now)
    ensures run[i].callers[a].snapshot == run[j].callers[b].snapshot
  {
    CachedOnReturn(run, i, a);
    CachedOnReturn(run, j, b);
    EntryPersists(run, i, j, run[i].callers[a].key);
  }

  lemma StepBefore(run: seq<World>, i: nat) returns (e: Event)
    requires IsRun(run) && 0 < i < |run|
    ensures Inv(run[i - 1]) && Enabled(run[i - 1], e) && run[i] == After(run[i - 1], e)
  {
    RunInv(run, i - 1);
    var k := i - 1;
    assert Next(run[k], run[k + 1]);
    e :| Enabled(run[i - 1], e) && run[i] == After(run[i - 1], e);
  }

  lemma CachedOnReturn(run: seq<World>, i: nat, c: nat)
    requires IsRun(run) && ReturnsAt(run, i, c)
    ensures Lookup(run[i].entries, run[i].callers[c].key, run[i].now) == Some(run[i].callers[c].snapshot)
  {
  }

  lemma {:induction false} EntryPersists(run: seq<World>, i: nat, j: nat, key: Key)
    requires IsRun(run) && i <= j < |run|
    requires forall m :: i <= m <= j ==> Live(run[m].entries, key, run[m].now)
    ensures key in run[i].entries && key in run[j].entries && run[i].entries[key] == run[j].entries[key]
    decreases j
  {
    assert Live(run[i].entries, key, run[i].now);
    if i < j {
      EntryPersists(run, i, j - 1, key);
      var e := StepBefore(run, j);
      assert Live(run[j - 1].entries, key, run[j - 1].now) && Live(run[j].entries, key, run[j].now);
      NeverOverwritten(run[j - 1], e, key);
    }
  }

  /** The module cache, and the two stretches of `get_namespace_policies_snapshot` that touch it. */
  class NamespaceCache {
    var entries: Entries

    constructor ()
      ensures entries == map[]
    {
      entries := map[];
    }

    /** Before the fetch: a live entry is returned at once. */
    method Get(key: Key, now: int) returns (cached: Option<Snapshot>)
      ensures cached == Lookup(entries, key, now)
      ensures cached == if key in entries && now < entries[key].insertedAt + 30
                        then Some(entries[key].snapshot) else None
    {
      cached := None;
      if key in entries && now < entries[key].insertedAt + TTL {
        cached := Some(entries[key].snapshot);
      }
    }

    /** After the fetch, holding the lock. */
    method SettleFetched(fetched: Snapshot, now: int, victim: Key) returns (snapshot: Snapshot)
      modifies this
      ensures (entries, snapshot) == Settle(old(entries), fetched, now, victim)
    {
      var existing := Get(fetched.key, now);
      if existing.Some? {
        return existing.value;
      }
      entries := Expire(entries, now) - {fetched.key};
      if |entries| >= MAXSIZE {
        entries := entries - {victim};
      }
      entries := entries[fetched.key := Entry(fetched, now)];
      snapshot := fetched;
    }
  }
}
