/** What holds over whole runs of the cache: any number of lookups and lists, by any key, in any mix of
    modes and maximum ages, with any replies of the API. */
module CacheRuns {
  import opened Wrappers
  import opened Cache
  import Sets

  datatype Call =
    | Lookup(key: Key, mode: Mode, maxAge: int, env: Env)
    | ListAll(maxAge: int, env: Env)

  function Next(s: Store, c: Call): Store {
    match c
    case Lookup(key, mode, maxAge, env) => StoreAfter(s, key, mode, maxAge, env)
    case ListAll(maxAge, env) =>
      if Outdated(s, maxAge, env.start) && env.all.Ok? then Snapshot(env.all.value, env.stored) else s
  }

  /** The indexes after the first n calls. */
  function After(calls: seq<Call>, n: nat): Store
    requires n <= |calls|
  {
    if n == 0 then EMPTY else Next(After(calls, n - 1), calls[n - 1])
  }

  /** The clock never runs backwards. */
  predicate Timed(calls: seq<Call>) {
    && (forall i :: 0 <= i < |calls| ==> calls[i].env.Monotone())
    && (forall i :: 0 < i < |calls| ==> calls[i - 1].env.checked <= calls[i].env.start)
  }

  // ---------------------------------------------------------------- the two indexes agree

  predicate IDEntryAgrees(s: Store, i: int, now: int)
    requires i in s.byID
  {
    var e := s.byID[i];
    && e.value.id == i && e.refreshedAt <= now
    && e.value.name in s.byName && s.byName[e.value.name].refreshedAt >= e.refreshedAt
  }

  predicate NameEntryAgrees(s: Store, n: string, now: int)
    requires n in s.byName
  {
    var e := s.byName[n];
    && e.value.name == n && e.refreshedAt <= now
    && e.value.id in s.byID && s.byID[e.value.id].refreshedAt >= e.refreshedAt
  }

  /** Every key is its value's, no entry is from the future, and each index holds, under the other key of
      each entry, an entry at least as fresh. */
  predicate Coherent(s: Store, now: int) {
    && (forall i {:trigger IDEntryAgrees(s, i, now)} :: i in s.byID ==> IDEntryAgrees(s, i, now))
    && (forall n {:trigger NameEntryAgrees(s, n, now)} :: n in s.byName ==> NameEntryAgrees(s, n, now))
  }

  lemma LaterIsCoherent(s: Store, now: int, later: int)
    requires Coherent(s, now) && now <= later
    ensures Coherent(s, later)
  {
    forall i | i in s.byID ensures IDEntryAgrees(s, i, later) { assert IDEntryAgrees(s, i, now); }
    forall n | n in s.byName ensures NameEntryAgrees(s, n, later) { assert NameEntryAgrees(s, n, now); }
  }

  lemma PutIsCoherent(s: Store, e: Entry)
    requires Coherent(s, e.refreshedAt)
    ensures Coherent(s.Put(e), e.refreshedAt)
  {
    var t, now := s.Put(e), e.refreshedAt;
    forall i | i in t.byID ensures IDEntryAgrees(t, i, now) {
      if i != e.value.id { assert IDEntryAgrees(s, i, now); }
    }
    forall n | n in t.byName ensures NameEntryAgrees(t, n, now) {
      if n != e.value.name { assert NameEntryAgrees(s, n, now); }
    }
  }

  /** Evicting cannot separate the indexes: the partner of a kept entry is at least as fresh. */
  lemma EvictIsCoherent(s: Store, now: int)
    requires Coherent(s, now)
    ensures Coherent(s.Evict(now), now)
  {
    var t := s.Evict(now);
    forall i | i in t.byID ensures IDEntryAgrees(t, i, now) { assert IDEntryAgrees(s, i, now); }
    forall n | n in t.byName ensures NameEntryAgrees(t, n, now) { assert NameEntryAgrees(s, n, now); }
  }

  lemma {:induction false} SnapshotIsCoherent(values: seq<Item>, now: int)
    ensures Coherent(Snapshot(values, now), now)
  {
    if |values| > 0 {
      SnapshotIsCoherent(values[..|values| - 1], now);
      PutIsCoherent(Snapshot(values[..|values| - 1], now), Entry(values[|values| - 1], now));
    }
  }

  lemma {:induction false} SnapshotHolds(values: seq<Item>, now: int, e: Entry)
    requires Snapshot(values, now).Holds(e)
    ensures e.value in values && e.refreshedAt == now
  {
    if |values| > 0 && e != Entry(values[|values| - 1], now) {
      SnapshotHolds(values[..|values| - 1], now, e);
    }
  }

  lemma StoreOneIsCoherent(s: Store, v: Item, now: int, stored: int)
    requires Coherent(s, now) && now <= stored
    ensures Coherent(StoreOne(s, v, stored), stored)
  {
    LaterIsCoherent(s, now, stored);
    PutIsCoherent(s, Entry(v, stored));
    EvictIsCoherent(s.Put(Entry(v, stored)), stored);
  }

  lemma NextIsCoherent(s: Store, c: Call, now: int)
    requires Coherent(s, now) && now <= c.env.start && c.env.Monotone()
    ensures Coherent(Next(s, c), c.env.checked)
  {
    var env := c.env;
    LaterIsCoherent(s, now, env.checked);
    if env.all.Ok? {
      SnapshotIsCoherent(env.all.value, env.stored);
      LaterIsCoherent(Snapshot(env.all.value, env.stored), env.stored, env.checked);
    }
    if env.one.Ok? && env.one.value.Some? {
      StoreOneIsCoherent(s, env.one.value.value, now, env.stored);
      LaterIsCoherent(StoreOne(s, env.one.value.value, env.stored), env.stored, env.checked);
    }
  }

  /** Coherence holds in every reachable state, over any mix of single and list refreshes. */
  lemma {:induction false} ReachableIsCoherent(calls: seq<Call>, n: nat)
    requires Timed(calls) && 0 < n <= |calls|
    ensures Coherent(After(calls, n), calls[n - 1].env.checked)
  {
    if n == 1 {
      NextIsCoherent(EMPTY, calls[0], calls[0].env.start);
      assert After(calls, 0) == EMPTY;
    } else {
      ReachableIsCoherent(calls, n - 1);
      NextIsCoherent(After(calls, n - 1), calls[n - 1], calls[n - 2].env.checked);
    }
  }

  /** Storing a single value keeps it findable under both keys and leaves nothing older than an hour. */
  lemma NothingOlderThanAnHour(s: Store, v: Item, now: int, key: Key, e: Entry)
    ensures key.Names(v) ==> StoreOne(s, v, now).Find(key) == Some(Entry(v, now))
    ensures StoreOne(s, v, now).Holds(e) ==> now - e.refreshedAt <= 3_600_000_000_000
  {
  }

  // ---------------------------------------------------------------- bounded staleness

  /** Call c, made in state s, fetched and stored entry e. */
  predicate Fetches(s: Store, c: Call, e: Entry) {
    && e.refreshedAt == c.env.stored
    && match c
       case Lookup(key, mode, maxAge, env) =>
         && !mode.ModeOff? && Misses(s, key, maxAge, env.start)
         && (if mode.ModeOne? then env.one == Ok(Some(e.value)) else env.all.Ok? && e.value in env.all.value)
       case ListAll(maxAge, env) =>
         Outdated(s, maxAge, env.start) && env.all.Ok? && e.value in env.all.value
  }

  predicate FetchedAt(calls: seq<Call>, j: nat, e: Entry)
    requires j < |calls|
  {
    Fetches(After(calls, j), calls[j], e)
  }

  lemma StoreOneHolds(s: Store, v: Item, now: int, e: Entry)
    requires StoreOne(s, v, now).Holds(e)
    ensures s.Holds(e) || e == Entry(v, now)
  {
    var t := StoreOne(s, v, now);
    if i :| i in t.byID && t.byID[i] == e {
      assert i == v.id || (i in s.byID && s.byID[i] == e);
    } else {
      var n :| n in t.byName && t.byName[n] == e;
      assert n == v.name || (n in s.byName && s.byName[n] == e);
    }
  }

  lemma HeldAfterNext(s: Store, c: Call, e: Entry)
    requires Next(s, c).Holds(e) && !s.Holds(e)
    ensures Fetches(s, c, e)
  {
    var t := Next(s, c);
    assert t != s;
    if c.Lookup? && c.mode.ModeOne? {
      StoreOneHolds(s, c.env.one.value.value, c.env.stored, e);
    } else {
      SnapshotHolds(c.env.all.value, c.env.stored, e);
    }
  }

  /** Every entry ever held was delivered by a successful fetch of the run, at the time it carries. */
  lemma {:induction false} EveryEntryWasFetched(calls: seq<Call>, n: nat, e: Entry) returns (j: nat)
    requires n <= |calls| && After(calls, n).Holds(e)
    ensures j < n && FetchedAt(calls, j, e)
  {
    assert n > 0;
    if !After(calls, n - 1).Holds(e) {
      HeldAfterNext(After(calls, n - 1), calls[n - 1], e);
      j := n - 1;
    } else {
      j := EveryEntryWasFetched(calls, n - 1, e);
    }
  }

  lemma AnswerIsHeld(s: Store, key: Key, mode: Mode, maxAge: int, env: Env) returns (e: Entry)
    requires !mode.ModeOff? && AnswerOf(s, key, mode, maxAge, env).Found?
    ensures e.value == AnswerOf(s, key, mode, maxAge, env).value
    ensures StoreAfter(s, key, mode, maxAge, env).Find(key) == Some(e)
    ensures StoreAfter(s, key, mode, maxAge, env).Holds(e)
    ensures (if Misses(s, key, maxAge, env.start) then env.checked else env.start) - e.refreshedAt <= maxAge
  {
    e := StoreAfter(s, key, mode, maxAge, env).Find(key).value;
  }

  /** A value returned from the cache bears the requested key and was delivered by a successful fetch of
      this or an earlier call, no longer before the deciding lookup than this call's maximum age. */
  lemma BoundedStaleness(calls: seq<Call>, i: nat) returns (j: nat, e: Entry)
    requires Timed(calls) && i < |calls| && calls[i].Lookup? && !calls[i].mode.ModeOff?
    requires AnswerOf(After(calls, i), calls[i].key, calls[i].mode, calls[i].maxAge, calls[i].env).Found?
    ensures var c := calls[i];
            && AnswerOf(After(calls, i), c.key, c.mode, c.maxAge, c.env) == Found(e.value)
            && c.key.Names(e.value)
            && j <= i && FetchedAt(calls, j, e)
            && (if Misses(After(calls, i), c.key, c.maxAge, c.env.start) then c.env.checked else c.env.start)
               - e.refreshedAt <= c.maxAge
  {
    var c := calls[i];
    e := AnswerIsHeld(After(calls, i), c.key, c.mode, c.maxAge, c.env);
    var s := After(calls, i + 1);
    assert s.Holds(e);
    ReachableIsCoherent(calls, i + 1);
    match c.key {
      case ByID(id) => assert IDEntryAgrees(s, id, c.env.checked);
      case ByName(name) => assert NameEntryAgrees(s, name, c.env.checked);
    }
    j := EveryEntryWasFetched(calls, i + 1, e);
  }

  // ---------------------------------------------------------------- no false absence, no resurrection

  lemma {:induction false} SnapshotFinds(values: seq<Item>, now: int, key: Key)
    ensures var last := Last(values, key);
            Snapshot(values, now).Find(key) == if last.Some? then Some(Entry(last.value, now)) else None
  {
    if |values| > 0 {
      SnapshotFinds(values[..|values| - 1], now, key);
    }
  }

  /** Of the values with an id or a name, the last one counts. */
  lemma {:induction false} LastIsLast(values: seq<Item>, key: Key, k: nat)
    requires k < |values|
    requires match key case ByID(i) => values[k].id == i case ByName(n) => values[k].name == n
    requires forall l :: k < l < |values| ==>
               match key case ByID(i) => values[l].id != i case ByName(n) => values[l].name != n
    ensures Last(values, key) == Some(values[k])
  {
    if k < |values| - 1 {
      LastIsLast(values[..|values| - 1], key, k);
    }
  }

  /** What the fetch of one call holds under the requested key. */
  function Delivered(key: Key, mode: Mode, env: Env): Option<Item>
    requires if mode.ModeOne? then env.one.Ok? else env.all.Ok?
  {
    if !mode.ModeOne? then Last(env.all.value, key)
    else if env.one.value.Some? && key.Names(env.one.value.value) then env.one.value
    else None
  }

  /** After a miss, a call answers "no such resource" exactly when the fetch it made does not hold the key,
      or when the clock passed the maximum age between storing and looking again; an expired entry that is
      still indexed is never returned, and a failed fetch changes nothing. */
  lemma AbsenceIsExact(s: Store, key: Key, mode: Mode, maxAge: int, env: Env)
    requires Coherent(s, env.start) && env.Monotone()
    requires !mode.ModeOff? && Misses(s, key, maxAge, env.start)
    ensures var fetched := if mode.ModeOne? then env.one.Ok? else env.all.Ok?;
            var answer := AnswerOf(s, key, mode, maxAge, env);
            && (answer == Error <==> !fetched)
            && (!fetched ==> StoreAfter(s, key, mode, maxAge, env) == s)
            && (fetched ==>
                  var d := Delivered(key, mode, env);
                  answer == if d.Some? && env.checked - env.stored <= maxAge then Found(d.value) else Missing)
  {
    if !mode.ModeOne? && env.all.Ok? {
      SnapshotFinds(env.all.value, env.stored, key);
    }
  }

  // ---------------------------------------------------------------- runs with list refreshes only

  predicate ListsOnly(calls: seq<Call>) {
    forall i :: 0 <= i < |calls| ==> calls[i].ListAll? || calls[i].mode.ModeAll?
  }

  /** A list fetch was made by call j and succeeded. */
  predicate ListFetched(calls: seq<Call>, j: nat)
    requires j < |calls|
  {
    && calls[j].env.all.Ok?
    && match calls[j]
       case Lookup(key, _, maxAge, env) => Misses(After(calls, j), key, maxAge, env.start)
       case ListAll(maxAge, env) => Outdated(After(calls, j), maxAge, env.start)
  }

  /** Both indexes always come from one list fetch, with one time stamp. */
  lemma {:induction false} OneSnapshot(calls: seq<Call>, n: nat) returns (j: Option<nat>)
    requires ListsOnly(calls) && n <= |calls|
    ensures j.None? ==> After(calls, n) == EMPTY
    ensures j.Some? ==> j.value < n && ListFetched(calls, j.value)
                        && After(calls, n) == Snapshot(calls[j.value].env.all.value, calls[j.value].env.stored)
  {
    if n == 0 {
      j := None;
    } else if ListFetched(calls, n - 1) {
      j := Some(n - 1);
    } else {
      j := OneSnapshot(calls, n - 1);
    }
  }

  predicate DistinctIDs(values: seq<Item>) {
    forall i, j :: 0 <= i < j < |values| ==> values[i].id != values[j].id
  }

  predicate HasID(values: seq<Item>, id: int) {
    exists k :: 0 <= k < |values| && values[k].id == id
  }

  lemma {:induction false} SnapshotKeys(values: seq<Item>, now: int, id: int)
    ensures id in Snapshot(values, now).byID <==> HasID(values, id)
  {
    if |values| > 0 {
      var n := |values| - 1;
      SnapshotKeys(values[..n], now, id);
      if k :| 0 <= k < n && values[k].id == id {
        assert values[..n][k].id == id;
      }
    }
  }

  lemma {:induction false} SnapshotSize(values: seq<Item>, now: int)
    requires DistinctIDs(values)
    ensures |Snapshot(values, now).byID| == |values|
  {
    if |values| > 0 {
      var n := |values| - 1;
      SnapshotSize(values[..n], now);
      SnapshotKeys(values[..n], now, values[n].id);
      var before := Snapshot(values[..n], now).byID;
      assert !HasID(values[..n], values[n].id);
      assert Snapshot(values, now).byID.Keys == before.Keys + {values[n].id};
    }
  }

  lemma {:induction false} SnapshotValue(values: seq<Item>, now: int, k: nat)
    requires DistinctIDs(values) && k < |values|
    ensures values[k].id in Snapshot(values, now).byID
    ensures Snapshot(values, now).byID[values[k].id] == Entry(values[k], now)
  {
    if k < |values| - 1 {
      SnapshotValue(values[..|values| - 1], now, k);
    }
  }

  /** A list of the index of a snapshot has the snapshot's values and its length. */
  lemma SnapshotListed(values: seq<Item>, now: int, result: seq<Item>)
    requires DistinctIDs(values) && Lists(result, Snapshot(values, now).byID)
    ensures |result| == |values|
    ensures forall v :: v in result <==> v in values
  {
    var s := Snapshot(values, now);
    SnapshotSize(values, now);
    forall v ensures v in result <==> v in values {
      if v in result {
        var i :| i in s.byID && s.byID[i].value == v;
        SnapshotHolds(values, now, s.byID[i]);
      }
      if v in values {
        var k :| 0 <= k < |values| && values[k] == v;
        SnapshotValue(values, now, k);
      }
    }
  }

  /** In such runs All returns exactly what one list fetch returned, as a set and without repetition, and
      that fetch was made by this call or is no older than this call's maximum age. */
  lemma AllReturnsOneFetch(calls: seq<Call>, i: nat, result: seq<Item>) returns (j: nat)
    requires ListsOnly(calls) && i < |calls| && calls[i].ListAll? && calls[i].maxAge < MAX_DURATION
    requires forall k :: 0 <= k < |calls| && calls[k].env.all.Ok? ==> DistinctIDs(calls[k].env.all.value)
    requires Outdated(After(calls, i), calls[i].maxAge, calls[i].env.start) ==> calls[i].env.all.Ok?
    requires Lists(result, After(calls, i + 1).byID)
    ensures j <= i && ListFetched(calls, j)
    ensures |result| == |calls[j].env.all.value|
    ensures forall v :: v in result <==> v in calls[j].env.all.value
    ensures j == i || calls[i].env.start - calls[j].env.stored <= calls[i].maxAge
  {
    var before := After(calls, i);
    assert After(calls, i + 1) == Next(before, calls[i]);
    if Outdated(before, calls[i].maxAge, calls[i].env.start) {
      j := i;
    } else {
      var from := OneSnapshot(calls, i);
      assert before.byID != map[];
      j := from.value;
      SnapshotValue(calls[j].env.all.value, calls[j].env.stored, 0);
    }
    SnapshotListed(calls[j].env.all.value, calls[j].env.stored, result);
  }

  /** In mixed runs All may return less than the API lists: one single fetch is enough. */
  lemma AllCanBeIncomplete(a: Item, b: Item, now: int, maxAge: int)
    requires a.id != b.id && maxAge >= 0
    ensures var env := Env(Ok(Some(a)), Ok([a, b]), now, now, now);
            var calls := [Lookup(ByID(a.id), ModeOne, maxAge, env), ListAll(maxAge, env)];
            Timed(calls) && Lists([a], After(calls, 2).byID)
  {
    var env := Env(Ok(Some(a)), Ok([a, b]), now, now, now);
    var calls := [Lookup(ByID(a.id), ModeOne, maxAge, env), ListAll(maxAge, env)];
    assert After(calls, 0) == EMPTY;
    assert After(calls, 1).byID == map[a.id := Entry(a, now)];
    assert a.id in After(calls, 1).byID;
    assert After(calls, 2) == Next(After(calls, 1), calls[1]);
  }

  // ---------------------------------------------------------------- what All lists, in any run

  /** What a call stored: nothing, one value, or a whole list. */
  datatype Stored = Nothing | One(value: Item) | Whole(values: seq<Item>)

  function StoredBy(s: Store, c: Call): Stored {
    match c
    case Lookup(key, mode, maxAge, env) =>
      if mode.ModeOff? || !Misses(s, key, maxAge, env.start) then Nothing
      else if mode.ModeOne? then
        if env.one.Ok? && env.one.value.Some? then One(env.one.value.value) else Nothing
      else if env.all.Ok? then Whole(env.all.value) else Nothing
    case ListAll(maxAge, env) =>
      if Outdated(s, maxAge, env.start) && env.all.Ok? then Whole(env.all.value) else Nothing
  }

  function StoredAt(calls: seq<Call>, i: nat): Stored
    requires i < |calls|
  {
    StoredBy(After(calls, i), calls[i])
  }

  /** The value delivered last under this key, in the last list fetch or after it, and when. */
  function Latest(calls: seq<Call>, n: nat, key: Key): Option<Entry>
    requires n <= |calls|
  {
    if n == 0 then None
    else
      var now := calls[n - 1].env.stored;
      match StoredAt(calls, n - 1)
      case Whole(values) => if Last(values, key).Some? then Some(Entry(Last(values, key).value, now)) else None
      case One(v) => if key.Names(v) then Some(Entry(v, now)) else Latest(calls, n - 1, key)
      case Nothing => Latest(calls, n - 1, key)
  }

  function Stamp(calls: seq<Call>, n: nat, id: int): Option<int>
    requires n <= |calls|
  {
    if Latest(calls, n, ByID(id)).Some? then Some(Latest(calls, n, ByID(id)).value.refreshedAt) else None
  }

  /** When a single value was stored last, after the last list fetch. */
  function LastSingle(calls: seq<Call>, n: nat): Option<int>
    requires n <= |calls|
  {
    if n == 0 then None
    else
      match StoredAt(calls, n - 1)
      case Whole(_) => None
      case One(_) => Some(calls[n - 1].env.stored)
      case Nothing => LastSingle(calls, n - 1)
  }

  /** The last list fetched. */
  function LastList(calls: seq<Call>, n: nat): Option<seq<Item>>
    requires n <= |calls|
  {
    if n == 0 then None
    else
      match StoredAt(calls, n - 1)
      case Whole(values) => Some(values)
      case _ => LastList(calls, n - 1)
  }

  /** No single store came more than an hour after the key was delivered last. */
  predicate Alive(calls: seq<Call>, n: nat, key: Key)
    requires n <= |calls|
  {
    var latest, single := Latest(calls, n, key), LastSingle(calls, n);
    latest.Some? && (single.None? || single.value <= latest.value.refreshedAt + 3_600_000_000_000)
  }

  lemma {:induction false} StampsArePast(calls: seq<Call>, n: nat, key: Key)
    requires Timed(calls) && n <= |calls|
    ensures n > 0 && Latest(calls, n, key).Some? ==> Latest(calls, n, key).value.refreshedAt <= calls[n - 1].env.stored
    ensures n > 0 && LastSingle(calls, n).Some? ==> LastSingle(calls, n).value <= calls[n - 1].env.stored
  {
    if n > 0 {
      StampsArePast(calls, n - 1, key);
      assert calls[n - 1].env.Monotone();
      if n > 1 {
        assert calls[n - 2].env.Monotone() && calls[n - 2].env.checked <= calls[n - 1].env.start;
      }
    }
  }

  /** In every run, an index holds for a key the value delivered last, in the last list fetch or since, unless a
      single store has evicted it: that happens to whatever was delivered more than an hour before. */
  lemma {:induction false} IndexedExactly(calls: seq<Call>, n: nat, key: Key)
    requires Timed(calls) && n <= |calls|
    ensures After(calls, n).Find(key) == if Alive(calls, n, key) then Latest(calls, n, key) else None
  {
    if n > 0 {
      IndexedExactly(calls, n - 1, key);
      StampsArePast(calls, n - 1, key);
      var s, c := After(calls, n - 1), calls[n - 1];
      assert c.env.Monotone();
      if n > 1 {
        assert calls[n - 2].env.Monotone() && calls[n - 2].env.checked <= c.env.start;
      }
      match StoredAt(calls, n - 1) {
        case Whole(values) => SnapshotFinds(values, c.env.stored, key);
        case One(v) =>
          assert After(calls, n) == StoreOne(s, v, c.env.stored);
          StoreOneFinds(s, v, c.env.stored, key);
        case Nothing => assert After(calls, n) == s;
      }
    }
  }

  /** What a key finds after a single value was stored. */
  lemma StoreOneFinds(s: Store, v: Item, now: int, key: Key)
    ensures var old_ := s.Find(key);
            StoreOne(s, v, now).Find(key) ==
              if key.Names(v) then Some(Entry(v, now))
              else if old_.Some? && now <= old_.value.refreshedAt + 3_600_000_000_000 then old_
              else None
  {
  }

  // ---------------------------------------------------------------- what a lookup answers, in any run

  /** A lookup with the cache on: the value delivered last, if it is not evicted and not older than this call's
      maximum age, without asking the API and without changing anything; otherwise what this call's own fetch
      holds. "No such resource" is answered only after a fetch of this call that succeeded. */
  lemma LookupExactly(calls: seq<Call>, i: nat)
    requires Timed(calls) && i < |calls| && calls[i].Lookup? && !calls[i].mode.ModeOff?
    ensures var c, s := calls[i], After(calls, i);
            var latest, answer := Latest(calls, i, c.key), AnswerOf(s, c.key, c.mode, c.maxAge, c.env);
            if Alive(calls, i, c.key) && c.env.start - latest.value.refreshedAt <= c.maxAge then
              answer == Found(latest.value.value) && After(calls, i + 1) == s
            else if (if c.mode.ModeOne? then c.env.one.Err? else c.env.all.Err?) then
              answer == Error && After(calls, i + 1) == s
            else
              var d := Delivered(c.key, c.mode, c.env);
              answer == if d.Some? && c.env.checked - c.env.stored <= c.maxAge then Found(d.value) else Missing
  {
    var c, s := calls[i], After(calls, i);
    IndexedExactly(calls, i, c.key);
    assert c.env.Monotone();
    if i > 0 {
      ReachableIsCoherent(calls, i);
      assert calls[i - 1].env.checked <= c.env.start;
      LaterIsCoherent(s, calls[i - 1].env.checked, c.env.start);
    }
    if Misses(s, c.key, c.maxAge, c.env.start) {
      AbsenceIsExact(s, c.key, c.mode, c.maxAge, c.env);
    }
  }

  /** With the cache off, the API's reply is the answer, and nothing is stored. */
  lemma OffPassesOn(s: Store, key: Key, maxAge: int, env: Env, v: Item)
    ensures AnswerOf(s, key, ModeOff, maxAge, env) == Found(v) <==> env.one == Ok(Some(v))
    ensures AnswerOf(s, key, ModeOff, maxAge, env) == Missing <==> env.one == Ok(None)
    ensures AnswerOf(s, key, ModeOff, maxAge, env) == Error <==> env.one.Err?
    ensures StoreAfter(s, key, ModeOff, maxAge, env) == s
  {
  }

  /** All, at the end of any run, lists a value with this id exactly then, and it is the one delivered last. */
  lemma AllListsExactly(calls: seq<Call>, n: nat, result: seq<Item>, id: int)
    requires Timed(calls) && 0 < n <= |calls| && Lists(result, After(calls, n).byID)
    ensures HasID(result, id) <==> Alive(calls, n, ByID(id))
    ensures Alive(calls, n, ByID(id)) ==> Latest(calls, n, ByID(id)).value.value in result
  {
    var s := After(calls, n);
    IndexedExactly(calls, n, ByID(id));
    ReachableIsCoherent(calls, n);
    if id in s.byID {
      assert s.Find(ByID(id)) == Some(s.byID[id]);
      assert IDEntryAgrees(s, id, calls[n - 1].env.checked);
      var k :| 0 <= k < |result| && result[k] == s.byID[id].value;
    }
    if HasID(result, id) {
      var k :| 0 <= k < |result| && result[k].id == id;
      assert result[k] in result;
      var i :| i in s.byID && s.byID[i].value == result[k];
      assert IDEntryAgrees(s, i, calls[n - 1].env.checked);
    }
  }

  /** Every id of the last list fetched has a stamp. */
  lemma {:induction false} ListedIsStamped(calls: seq<Call>, n: nat, id: int)
    requires n <= |calls| && LastList(calls, n).Some? && HasID(LastList(calls, n).value, id)
    ensures Stamp(calls, n, id).Some?
  {
    match StoredAt(calls, n - 1) {
      case Whole(values) => HasIDIsLast(values, id);
      case _ => ListedIsStamped(calls, n - 1, id);
    }
  }

  lemma {:induction false} HasIDIsLast(values: seq<Item>, id: int)
    ensures HasID(values, id) <==> Last(values, ByID(id)).Some?
  {
    if |values| > 0 {
      var n := |values| - 1;
      HasIDIsLast(values[..n], id);
      if k :| 0 <= k < n && values[k].id == id {
        assert values[..n][k].id == id;
      }
    }
  }

  /** So what All returns holds every id of the last list fetched if and only if no single value was stored
      since, or each of those ids was delivered at most an hour before the last of them. */
  lemma AllIsCompleteExactly(calls: seq<Call>, n: nat, result: seq<Item>)
    requires Timed(calls) && 0 < n <= |calls| && Lists(result, After(calls, n).byID) && LastList(calls, n).Some?
    ensures forall id :: HasID(LastList(calls, n).value, id) ==> Stamp(calls, n, id).Some?
    ensures (forall id :: HasID(LastList(calls, n).value, id) ==> HasID(result, id)) <==>
            || LastSingle(calls, n).None?
            || forall id :: HasID(LastList(calls, n).value, id) ==>
                 LastSingle(calls, n).value <= Stamp(calls, n, id).value + 3_600_000_000_000
  {
    forall id ensures HasID(result, id) <==> Alive(calls, n, ByID(id)) {
      AllListsExactly(calls, n, result, id);
    }
    forall id | HasID(LastList(calls, n).value, id) ensures Stamp(calls, n, id).Some? {
      ListedIsStamped(calls, n, id);
    }
  }

  /** Nothing All lists is older than it may be: each entry comes from the list fetch of this very call, or was
      delivered by an earlier call at most the maximum age ago. */
  lemma AllIsFresh(calls: seq<Call>, i: nat, result: seq<Item>, v: Item) returns (j: nat, e: Entry)
    requires Timed(calls) && i < |calls| && calls[i].ListAll? && calls[i].maxAge < MAX_DURATION
    requires Outdated(After(calls, i), calls[i].maxAge, calls[i].env.start) ==> calls[i].env.all.Ok?
    requires Lists(result, After(calls, i + 1).byID) && v in result
    ensures e.value == v && j <= i && FetchedAt(calls, j, e)
    ensures j == i || calls[i].env.start - e.refreshedAt <= calls[i].maxAge
  {
    var s, c := After(calls, i), calls[i];
    var id :| id in After(calls, i + 1).byID && After(calls, i + 1).byID[id].value == v;
    e := After(calls, i + 1).byID[id];
    if Outdated(s, c.maxAge, c.env.start) {
      assert Snapshot(c.env.all.value, c.env.stored).Holds(e);
      SnapshotHolds(c.env.all.value, c.env.stored, e);
      j := i;
    } else {
      assert s.byID[id] == e && s.Holds(e);
      j := EveryEntryWasFetched(calls, i, e);
    }
  }

  lemma OldListIsEvicted(a: Item, b: Item, now: int)
    requires a.id != b.id
    ensures var s, later := Snapshot([a, b], now), now + HOUR + 1;
            var r := StoreOne(s, a, later);
            && s.Find(ByID(a.id)) == Some(Entry(a, now))
            && (forall i :: i in r.byID <==> i == a.id) && r.byID[a.id] == Entry(a, later)
  {
    assert [a, b][..1] == [a] && [a][..0] == [];
    assert Snapshot([a], now) == EMPTY.Put(Entry(a, now));
  }

  /** One single fetch more than an hour after a list fetch is enough: the store it makes evicts the list. */
  lemma EvictionLosesTheList(a: Item, b: Item, now: int, maxAge: int)
    requires a.id != b.id && 0 <= maxAge <= HOUR
    ensures var later := now + HOUR + 1;
            var early, late := Env(Ok(None), Ok([a, b]), now, now, now), Env(Ok(Some(a)), Ok([a, b]), later, later,
                                                                             later);
            var calls := [ListAll(maxAge, early), Lookup(ByID(a.id), ModeOne, maxAge, late), ListAll(maxAge, late)];
            Timed(calls) && LastList(calls, 3) == Some([a, b]) && Lists([a], After(calls, 3).byID)
  {
    var later := now + HOUR + 1;
    var early, late := Env(Ok(None), Ok([a, b]), now, now, now), Env(Ok(Some(a)), Ok([a, b]), later, later, later);
    var calls := [ListAll(maxAge, early), Lookup(ByID(a.id), ModeOne, maxAge, late), ListAll(maxAge, late)];
    assert After(calls, 0) == EMPTY;
    OldListIsEvicted(a, b, now);
    var listed := Snapshot([a, b], now);
    assert After(calls, 1) == listed && StoredAt(calls, 0) == Whole([a, b]);
    assert After(calls, 2) == StoreOne(listed, a, later) && StoredAt(calls, 1) == One(a);
    assert !Outdated(After(calls, 2), maxAge, later);
    assert After(calls, 3) == After(calls, 2) && StoredAt(calls, 2) == Nothing;
    assert LastList(calls, 1) == Some([a, b]) && LastList(calls, 2) == LastList(calls, 1);
    Sets.Single(After(calls, 3).byID.Keys, a.id);
  }
}
