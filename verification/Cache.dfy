/** The server and load balancer type cache (internal/cache/cache.go): one set of entries under two
    indexes, three modes, a maximum age per call. */
module Cache {
  import opened Wrappers
  import Sets

  /** Nanoseconds, as in Go's time package. */
  const HOUR := 3_600_000_000_000

  /** What time.Sub yields against the zero time: the largest Duration. */
  const MAX_DURATION := 9_223_372_036_854_775_807

  /** A cached resource: its id, its name and everything else. */
  datatype Item = Item(id: int, name: string, rest: string)

  datatype Entry = Entry(value: Item, refreshedAt: int)

  datatype Mode = ModeAll | ModeOne | ModeOff

  datatype Key = ByID(id: int) | ByName(name: string) {
    predicate Names(v: Item) {
      match this
      case ByID(i) => v.id == i
      case ByName(n) => v.name == n
    }
  }

  /** The API's side of one call: the reply of the single fetch, the reply of the list fetch, and the
      clock when the call starts, when a fetched value is stored and when the second lookup is made. */
  datatype Env = Env(one: Result<Option<Item>, ()>, all: Result<seq<Item>, ()>, start: int, stored: int, checked: int) {
    predicate Monotone() { start <= stored <= checked }
  }

  // ---------------------------------------------------------------- the two indexes

  datatype Store = Store(byID: map<int, Entry>, byName: map<string, Entry>) {
    function Find(key: Key): Option<Entry> {
      match key
      case ByID(i) => if i in byID then Some(byID[i]) else None
      case ByName(n) => if n in byName then Some(byName[n]) else None
    }

    function Put(e: Entry): Store {
      Store(byID[e.value.id := e], byName[e.value.name := e])
    }

    /** Entries older than an hour disappear. */
    function Evict(now: int): Store {
      Store(map i | i in byID && now <= byID[i].refreshedAt + HOUR :: byID[i],
            map n | n in byName && now <= byName[n].refreshedAt + HOUR :: byName[n])
    }

    predicate Holds(e: Entry) {
      (exists i :: i in byID && byID[i] == e) || (exists n :: n in byName && byName[n] == e)
    }
  }

  const EMPTY := Store(map[], map[])

  /** The indexes after a list fetch; the last of two values with one id or name wins. */
  function Snapshot(values: seq<Item>, now: int): Store {
    if |values| == 0 then EMPTY
    else Snapshot(values[..|values| - 1], now).Put(Entry(values[|values| - 1], now))
  }

  /** The value a list of replies holds under a key: the last one. */
  function Last(values: seq<Item>, key: Key): Option<Item> {
    if |values| == 0 then None
    else if key.Names(values[|values| - 1]) then Some(values[|values| - 1])
    else Last(values[..|values| - 1], key)
  }

  function StoreOne(s: Store, v: Item, now: int): Store {
    s.Put(Entry(v, now)).Evict(now)
  }

  /** Is some entry too old to serve a list? An empty index always is, up to the largest Duration. */
  predicate Outdated(s: Store, maxAge: int, now: int) {
    if s.byID == map[] then MAX_DURATION > maxAge
    else exists i :: i in s.byID && now - s.byID[i].refreshedAt > maxAge
  }

  // ---------------------------------------------------------------- one call, on values

  datatype Answer = Error | Missing | Found(value: Item)

  /** Does the first lookup of a call fail? */
  predicate Misses(s: Store, key: Key, maxAge: int, now: int) {
    s.Find(key).None? || now - s.Find(key).value.refreshedAt > maxAge
  }

  function Refreshed(s: Store, mode: Mode, env: Env): Option<Store> {
    if mode.ModeOne? then
      match env.one
      case Err(_) => None
      case Ok(None) => Some(s)
      case Ok(Some(v)) => Some(StoreOne(s, v, env.stored))
    else
      match env.all
      case Err(_) => None
      case Ok(values) => Some(Snapshot(values, env.stored))
  }

  /** The indexes a lookup leaves behind. */
  function StoreAfter(s: Store, key: Key, mode: Mode, maxAge: int, env: Env): Store {
    if mode.ModeOff? || !Misses(s, key, maxAge, env.start) || Refreshed(s, mode, env).None? then s
    else Refreshed(s, mode, env).value
  }

  function AnswerOf(s: Store, key: Key, mode: Mode, maxAge: int, env: Env): Answer {
    if mode.ModeOff? then
      match env.one
      case Err(_) => Error
      case Ok(None) => Missing
      case Ok(Some(v)) => Found(v)
    else if !Misses(s, key, maxAge, env.start) then Found(s.Find(key).value.value)
    else match Refreshed(s, mode, env)
      case None => Error
      case Some(s') => if Misses(s', key, maxAge, env.checked) then Missing else Found(s'.Find(key).value.value)
  }

  // ---------------------------------------------------------------- the cache object

  class Cache {
    const defaultMode: Mode
    const defaultMaxAge: int
    var byID: map<int, Entry>
    var byName: map<string, Entry>

    constructor (defaultMode: Mode, defaultMaxAge: int)
      ensures this.defaultMode == defaultMode && this.defaultMaxAge == defaultMaxAge
      ensures Contents() == EMPTY
    {
      this.defaultMode := defaultMode;
      this.defaultMaxAge := defaultMaxAge;
      byID := map[];
      byName := map[];
    }

    function Contents(): Store
      reads this
    {
      Store(byID, byName)
    }

    method RefreshOne(env: Env) returns (ok: bool)
      modifies this
      ensures ok <==> Refreshed(old(Contents()), ModeOne, env).Some?
      ensures Contents() == if ok then Refreshed(old(Contents()), ModeOne, env).value else old(Contents())
    {
      match env.one {
        case Err(_) => return false;
        case Ok(None) => return true;
        case Ok(Some(value)) =>
          var e := Entry(value, env.stored);
          byID := byID[value.id := e];
          byName := byName[value.name := e];
          byID := map i | i in byID && env.stored <= byID[i].refreshedAt + HOUR :: byID[i];
          byName := map n | n in byName && env.stored <= byName[n].refreshedAt + HOUR :: byName[n];
          return true;
      }
    }

    method RefreshAll(env: Env) returns (ok: bool)
      modifies this
      ensures ok <==> env.all.Ok?
      ensures Contents() == if ok then Snapshot(env.all.value, env.stored) else old(Contents())
    {
      if env.all.Err? { return false; }
      var values := env.all.value;
      byID := map[];
      byName := map[];
      for i := 0 to |values|
        invariant Contents() == Snapshot(values[..i], env.stored)
      {
        var e := Entry(values[i], env.stored);
        byID := byID[values[i].id := e];
        byName := byName[values[i].name := e];
        assert values[..i + 1][..i] == values[..i];
      }
      assert values[..|values|] == values;
      ok := true;
    }

    method GetFromCache(key: Key, mode: Option<Mode>, maxAge: Option<int>, env: Env) returns (r: Answer)
      modifies this
      ensures var m := if mode.Some? then mode.value else defaultMode;
              var age := if maxAge.Some? then maxAge.value else defaultMaxAge;
              && Contents() == StoreAfter(old(Contents()), key, m, age, env)
              && r == AnswerOf(old(Contents()), key, m, age, env)
    {
      var m := if mode.Some? then mode.value else defaultMode;
      var age := if maxAge.Some? then maxAge.value else defaultMaxAge;
      if m.ModeOff? {
        match env.one {
          case Err(_) => return Error;
          case Ok(None) => return Missing;
          case Ok(Some(v)) => return Found(v);
        }
      }
      var e := Contents().Find(key);
      if e.Some? && env.start - e.value.refreshedAt <= age {
        return Found(e.value.value);
      }
      var ok;
      if m.ModeOne? {
        ok := RefreshOne(env);
      } else {
        ok := RefreshAll(env);
      }
      if !ok { return Error; }
      e := Contents().Find(key);
      if e.Some? && env.checked - e.value.refreshedAt <= age {
        return Found(e.value.value);
      }
      r := Missing;
    }

    method All(maxAge: Option<int>, env: Env) returns (r: Option<seq<Item>>)
      modifies this
      ensures var limit := if maxAge.Some? then maxAge.value else defaultMaxAge;
              if !Outdated(old(Contents()), limit, env.start) then r.Some? && Contents() == old(Contents())
              else (r.Some? <==> env.all.Ok?)
                   && Contents() == if r.Some? then Snapshot(env.all.value, env.stored) else old(Contents())
      ensures r.Some? ==> Lists(r.value, byID)
    {
      var limit := if maxAge.Some? then maxAge.value else defaultMaxAge;
      var age := Age(byID, env.start);
      if age > limit {
        var ok := RefreshAll(env);
        if !ok { return None; }
      }
      var values := ValuesOf(byID);
      r := Some(values);
    }
  }

  /** The age of the oldest entry. */
  method Age(byID: map<int, Entry>, now: int) returns (age: int)
    ensures byID == map[] ==> age == 0x7FFF_FFFF_FFFF_FFFF
    ensures forall i :: i in byID ==> now - byID[i].refreshedAt <= age
    ensures byID != map[] ==> exists i :: i in byID && now - byID[i].refreshedAt == age
  {
    var oldest: Option<int> := None;
    var todo := byID.Keys;
    while todo != {}
      invariant todo <= byID.Keys
      invariant oldest.None? <==> todo == byID.Keys
      invariant oldest.Some? ==> exists i :: i in byID && oldest.value == byID[i].refreshedAt
      invariant forall i :: i in byID && i !in todo ==> oldest.Some? && oldest.value <= byID[i].refreshedAt
    {
      var i := Sets.Pick(todo);
      if oldest.None? || byID[i].refreshedAt < oldest.value {
        oldest := Some(byID[i].refreshedAt);
      }
      todo := todo - {i};
    }
    age := if oldest.None? then MAX_DURATION else now - oldest.value;
    assert oldest.Some? <==> byID.Keys != {};
  }

  method ValuesOf(byID: map<int, Entry>) returns (values: seq<Item>)
    ensures Lists(values, byID)
  {
    values := [];
    var todo := byID.Keys;
    while todo != {}
      invariant todo <= byID.Keys
      invariant |values| + |todo| == |byID|
      invariant forall i :: i in byID && i !in todo ==> byID[i].value in values
      invariant forall v :: v in values ==> exists i :: i in byID && byID[i].value == v
    {
      var i := Sets.Pick(todo);
      assert |todo - {i}| == |todo| - 1;
      values := values + [byID[i].value];
      todo := todo - {i};
    }
  }

  /** A list of the values of an index, in any order. */
  predicate Lists(values: seq<Item>, byID: map<int, Entry>) {
    && |values| == |byID|
    && (forall i :: i in byID ==> byID[i].value in values)
    && (forall v :: v in values ==> exists i :: i in byID && byID[i].value == v)
  }
}
