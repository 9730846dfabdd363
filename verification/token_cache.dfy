/**
 The cache of device-token validations (services/device_token_service.go). A validation looks in the cache,
 reads the table and then stores its answer; a mutator changes the table and then invalidates. These parts
 are separate steps, so that they interleave; the clock does not go back and is not negative.
 */
module TokenCache {
  import opened Text

  const TTL := 120_000
  const MAX_ITEMS := 4096
  const TOUCH_INTERVAL := 600_000
  const DISABLED := 0
  const ENABLED := 1

  /** `handle` is the database handle that a request works on. */
  datatype Key = Key(handle: int, device: string, hash: string)
  datatype Row = Row(device: string, hash: string, status: int, createTime: int, lastUsedAt: int, expireTime: int)
  type Rows = map<string, Row>
  type Items = map<Key, int>

  // ---------------------------------------------------------------- the table

  predicate Admits(r: Row, key: Key, now: int) {
    r.device == key.device && r.hash == key.hash && r.status == ENABLED && (r.expireTime == 0 || r.expireTime > now)
  }

  /** The query of Validate finds a row. */
  predicate Matches(rows: Rows, key: Key, now: int) {
    exists guid | guid in rows :: Admits(rows[guid], key, now)
  }

  function Expiry(r: Row, now: int): int {
    if 0 < r.expireTime < now + TTL then r.expireTime else now + TTL
  }

  /** A mutator of one device's tokens. */
  datatype Mutation =
    | SetStatus(device: string, guid: string, status: int)
    | CreateToken(device: string, guid: string, hash: string, expireTime: int, now: int)
    | DisableHash(device: string, hash: string)
    | DeleteDevice(device: string)

  predicate Oldest(rows: Rows, guid: string) {
    guid in rows && forall g | g in rows && rows[g].device == rows[guid].device ::
      rows[guid].createTime <= rows[g].createTime
  }

  /** CreateToken reuses the device's oldest row, or makes a new one. */
  predicate Allowed(rows: Rows, m: Mutation) {
    match m
    case SetStatus(_, _, status) => status == DISABLED || status == ENABLED
    case CreateToken(device, guid, _, _, _) =>
      if exists g | g in rows :: rows[g].device == device then Oldest(rows, guid) && rows[guid].device == device
      else guid !in rows
    case _ => true
  }

  function Mutated(rows: Rows, m: Mutation): Rows {
    match m
    case SetStatus(device, guid, status) =>
      if guid in rows && rows[guid].device == device then rows[guid := rows[guid].(status := status)] else rows
    case CreateToken(device, guid, hash, expireTime, now) =>
      var row := if guid in rows then rows[guid] else Row(device, "", ENABLED, now, 0, 0);
      rows[guid := row.(hash := hash, status := ENABLED, expireTime := expireTime)]
    case DisableHash(device, hash) =>
      map g | g in rows :: if rows[g].device == device && rows[g].hash == hash then rows[g].(status := DISABLED)
        else rows[g]
    case DeleteDevice(device) => map g | g in rows && rows[g].device != device :: rows[g]
  }

  /** A row that admits the key until `expiresAt`. */
  predicate Backs(r: Row, key: Key, expiresAt: int) {
    r.device == key.device && r.hash == key.hash && r.status == ENABLED
      && (r.expireTime == 0 || expiresAt <= r.expireTime)
  }

  predicate Sound(rows: Rows, key: Key, expiresAt: int) {
    exists guid | guid in rows :: Backs(rows[guid], key, expiresAt)
  }

  lemma SoundMatches(rows: Rows, key: Key, expiresAt: int, now: int)
    requires Sound(rows, key, expiresAt) && now < expiresAt
    ensures Matches(rows, key, now)
  {
  }

  /** A row other than this one backs the entry. */
  predicate BackedWithout(rows: Rows, guid: string, key: Key, expiresAt: int) {
    exists g | g in rows && g != guid :: Backs(rows[g], key, expiresAt)
  }

  /** Whether a mutator that is about to run leaves an entry backed that is backed. */
  predicate Survives(rows: Rows, m: Mutation, key: Key, expiresAt: int) {
    match m
    case SetStatus(device, guid, status) =>
      key.device != device || status == ENABLED || BackedWithout(rows, guid, key, expiresAt)
    case CreateToken(device, guid, hash, expireTime, _) =>
      || BackedWithout(rows, guid, key, expiresAt)
      || (key.device == device && key.hash == hash && (expireTime == 0 || expiresAt <= expireTime))
    case DisableHash(device, hash) => key.device != device || key.hash != hash
    case DeleteDevice(device) => key.device != device
  }

  lemma MutationKeepsBacking(rows: Rows, m: Mutation, key: Key, expiresAt: int)
    requires Allowed(rows, m) && Sound(rows, key, expiresAt) && Survives(rows, m, key, expiresAt)
    ensures Sound(Mutated(rows, m), key, expiresAt)
  {
    var after := Mutated(rows, m);
    var guid :| guid in rows && Backs(rows[guid], key, expiresAt);
    if (m.SetStatus? || m.CreateToken?) && BackedWithout(rows, m.guid, key, expiresAt) {
      var other :| other in rows && other != m.guid && Backs(rows[other], key, expiresAt);
      assert other in after && after[other] == rows[other];
    } else if m.CreateToken? {
      assert Backs(after[m.guid], key, expiresAt);
    } else {
      assert guid in after && Backs(after[guid], key, expiresAt);
    }
  }

  lemma MutationEndsBacking(rows: Rows, m: Mutation, key: Key, expiresAt: int)
    requires Allowed(rows, m) && Sound(Mutated(rows, m), key, expiresAt)
    ensures Survives(rows, m, key, expiresAt)
  {
    var after := Mutated(rows, m);
    var guid :| guid in after && Backs(after[guid], key, expiresAt);
    if (m.SetStatus? || m.CreateToken?) && guid != m.guid {
      assert guid in rows && after[guid] == rows[guid];
    }
  }

  /** What each mutator does to an entry that is backed: it stays backed if and only if it survives. */
  lemma MutationKeepsSoundIff(rows: Rows, m: Mutation, key: Key, expiresAt: int)
    requires Allowed(rows, m) && Sound(rows, key, expiresAt)
    ensures Sound(Mutated(rows, m), key, expiresAt) <==> Survives(rows, m, key, expiresAt)
  {
    if Survives(rows, m, key, expiresAt) {
      MutationKeepsBacking(rows, m, key, expiresAt);
    }
    if Sound(Mutated(rows, m), key, expiresAt) {
      MutationEndsBacking(rows, m, key, expiresAt);
    }
  }

  /** An entry is backed exactly if the table admits its key at its last moment, and then at all moments before. */
  lemma SoundIffLastMoment(rows: Rows, key: Key, expiresAt: int)
    ensures Sound(rows, key, expiresAt) <==> Matches(rows, key, expiresAt - 1)
    ensures Sound(rows, key, expiresAt) <==> forall t :: t < expiresAt ==> Matches(rows, key, t)
  {
    if Matches(rows, key, expiresAt - 1) {
      var guid :| guid in rows && Admits(rows[guid], key, expiresAt - 1);
      assert Backs(rows[guid], key, expiresAt);
    }
    if Sound(rows, key, expiresAt) {
      forall t | t < expiresAt ensures Matches(rows, key, t) {
        SoundMatches(rows, key, expiresAt, t);
      }
    }
  }

  lemma MutationKeepsOthers(rows: Rows, m: Mutation, key: Key, expiresAt: int)
    requires Allowed(rows, m) && key.device != m.device && Sound(rows, key, expiresAt)
    ensures Survives(rows, m, key, expiresAt) && Sound(Mutated(rows, m), key, expiresAt)
  {
    var guid :| guid in rows && Backs(rows[guid], key, expiresAt);
    if m.CreateToken? {
      assert guid != m.guid;
    }
    MutationKeepsBacking(rows, m, key, expiresAt);
  }

  // ---------------------------------------------------------------- what the mutators decide

  /** A row that lets the device in with this hash, said without the cache. */
  predicate Usable(r: Row, key: Key, now: int) {
    r.device == key.device && r.hash == key.hash && r.status == 1 && Unexpired(r.expireTime, now)
  }

  predicate Unexpired(expireTime: int, now: int) {
    expireTime == 0 || now < expireTime
  }

  /** What decides, on the table before a mutator, whether its key is admitted after it. */
  predicate AdmittedAfter(rows: Rows, m: Mutation, key: Key, now: int) {
    match m
    case SetStatus(device, guid, status) =>
      || (exists g | g in rows && !(g == guid && rows[g].device == device && status == 0) :: Usable(rows[g], key, now))
      || (status == 1 && key.device == device && guid in rows && rows[guid].device == device
          && rows[guid].hash == key.hash && Unexpired(rows[guid].expireTime, now))
    case CreateToken(device, guid, hash, expireTime, _) =>
      || (exists g | g in rows && g != guid :: Usable(rows[g], key, now))
      || (key.device == device && key.hash == hash && Unexpired(expireTime, now))
    case DisableHash(device, hash) =>
      !(key.device == device && key.hash == hash) && exists g | g in rows :: Usable(rows[g], key, now)
    case DeleteDevice(device) => key.device != device && exists g | g in rows :: Usable(rows[g], key, now)
  }

  lemma AdmittedByMutated(rows: Rows, m: Mutation, key: Key, now: int)
    requires Allowed(rows, m) && Matches(Mutated(rows, m), key, now)
    ensures AdmittedAfter(rows, m, key, now)
  {
    var after := Mutated(rows, m);
    var guid :| guid in after && Admits(after[guid], key, now);
    if (m.CreateToken? || m.SetStatus?) && guid == m.guid {
    } else {
      assert guid in rows && Usable(rows[guid], key, now);
    }
  }

  lemma MutatedAdmits(rows: Rows, m: Mutation, key: Key, now: int)
    requires Allowed(rows, m) && AdmittedAfter(rows, m, key, now)
    ensures Matches(Mutated(rows, m), key, now)
  {
    var after := Mutated(rows, m);
    if (m.CreateToken? || m.SetStatus?) && m.guid in after && Admits(after[m.guid], key, now) {
    } else {
      var g :| g in rows && Usable(rows[g], key, now)
               && !(m.SetStatus? && g == m.guid && rows[g].device == m.device && m.status == 0)
               && !(m.CreateToken? && g == m.guid);
      assert g in after && Admits(after[g], key, now);
    }
  }

  /** For every mutator, key and moment: whether the key is admitted afterwards. */
  lemma MutationDecides(rows: Rows, m: Mutation, key: Key, now: int)
    requires Allowed(rows, m)
    ensures Matches(Mutated(rows, m), key, now) <==> AdmittedAfter(rows, m, key, now)
  {
    if Matches(Mutated(rows, m), key, now) {
      AdmittedByMutated(rows, m, key, now);
    }
    if AdmittedAfter(rows, m, key, now) {
      MutatedAdmits(rows, m, key, now);
    }
  }

  /** A device has one row at most, as CreateToken leaves it. */
  predicate OneRowEach(rows: Rows) {
    forall g, h | g in rows && h in rows && rows[g].device == rows[h].device :: g == h
  }

  /** CreateToken admits the new hash until it expires, for a device's first token as well, and in the table of
      a device that had one token no other hash; one row a device stays one. */
  lemma CreatedTokenReplaces(rows: Rows, device: string, guid: string, hash: string, expireTime: int, at: int,
                             key: Key, now: int)
    requires Allowed(rows, CreateToken(device, guid, hash, expireTime, at)) && OneRowEach(rows) && key.device == device
    ensures var after := Mutated(rows, CreateToken(device, guid, hash, expireTime, at));
            && (Matches(after, key, now) <==> key.hash == hash && (expireTime == 0 || now < expireTime))
            && OneRowEach(after)
  {
    MutationDecides(rows, CreateToken(device, guid, hash, expireTime, at), key, now);
  }

  /** Disabling a device's token refuses it at once, enabling admits it until it expires. */
  lemma StatusDecides(rows: Rows, guid: string, status: int, key: Key, now: int)
    requires OneRowEach(rows) && guid in rows && rows[guid].device == key.device && rows[guid].hash == key.hash
    requires status == 0 || status == 1
    ensures Matches(Mutated(rows, SetStatus(key.device, guid, status)), key, now)
            <==> status == 1 && (rows[guid].expireTime == 0 || now < rows[guid].expireTime)
  {
    MutationDecides(rows, SetStatus(key.device, guid, status), key, now);
  }

  /** Of several rows that a device has, CreateToken writes the oldest, and it leaves the others as they are. */
  lemma OldestRowIsReused(rows: Rows, device: string, guid: string, hash: string, expireTime: int, at: int, g: string)
    requires Allowed(rows, CreateToken(device, guid, hash, expireTime, at)) && g in rows
    ensures var after := Mutated(rows, CreateToken(device, guid, hash, expireTime, at));
            && g in after && (g != guid ==> after[g] == rows[g])
            && (rows[g].device == device ==>
                  guid in rows && rows[guid].createTime <= rows[g].createTime
                  && after[guid].createTime == rows[guid].createTime && after[guid].lastUsedAt == rows[guid].lastUsedAt)
  {
  }

  // ---------------------------------------------------------------- the cache

  predicate Hit(items: Items, key: Key, now: int) {
    key in items && now < items[key]
  }

  function LookedUp(items: Items, key: Key, now: int): Items {
    if Hit(items, key, now) then items else items - {key}
  }

  function Live(items: Items, now: int): Items {
    map key | key in items && now < items[key] :: items[key]
  }

  predicate SweepDue(items: Items, lastSweep: int, now: int) {
    now - lastSweep >= TTL || |items| >= MAX_ITEMS
  }

  function Swept(items: Items, lastSweep: int, now: int): Items {
    if SweepDue(items, lastSweep, now) then Live(items, now) else items
  }

  /** Just enough entries, any ones, are evicted to make room for one more. */
  predicate MakesRoom(items: Items, evicted: set<Key>) {
    evicted <= items.Keys && |evicted| == if |items| >= MAX_ITEMS then |items| - MAX_ITEMS + 1 else 0
  }

  function Stored(items: Items, lastSweep: int, key: Key, expiresAt: int, now: int, evicted: set<Key>): Items {
    (Swept(items, lastSweep, now) - evicted)[key := expiresAt]
  }

  function Invalidated(items: Items, handle: int, device: string): Items {
    map key | key in items && !(key.handle == handle && key.device == device) :: items[key]
  }

  lemma StoredFits(items: Items, lastSweep: int, key: Key, expiresAt: int, now: int, evicted: set<Key>)
    requires MakesRoom(Swept(items, lastSweep, now), evicted)
    ensures var swept := Swept(items, lastSweep, now);
            |Stored(items, lastSweep, key, expiresAt, now, evicted)|
            <= if |swept| < MAX_ITEMS then |swept| + 1 else MAX_ITEMS
  {
  }

  lemma SubmapIsSmaller(a: Items, b: Items)
    requires a.Keys <= b.Keys
    ensures |a| <= |b|
  {
    if a.Keys != b.Keys {
      assert b.Keys == a.Keys + (b.Keys - a.Keys);
      assert |b.Keys| == |a.Keys| + |b.Keys - a.Keys|;
    }
  }

  lemma SweptIsSmaller(items: Items, lastSweep: int, now: int)
    ensures |Swept(items, lastSweep, now)| <= |items|
  {
    SubmapIsSmaller(Swept(items, lastSweep, now), items);
  }

  // ---------------------------------------------------------------- the protocol

  /** A validation that has read its row and not yet stored its answer. */
  datatype Pending = Pending(key: Key, expiresAt: int)

  /** A mutator that has written and not yet invalidated. */
  datatype Writing = Writing(handle: int, device: string)

  datatype State = State(clock: int, rows: Rows, items: Items, lastSweep: int, pending: seq<Pending>,
                         writing: multiset<Writing>)

  datatype Step =
    | Lookup(key: Key, now: int)
    | Read(key: Key, guid: string, touchOk: bool, now: int)
    | Store(which: nat, evicted: set<Key>, now: int)
    | Write(handle: int, mutation: Mutation, now: int)
    | Invalidate(handle: int, device: string, now: int)

  predicate Possible(s: State, a: Step) {
    0 <= a.now && s.clock <= a.now &&
    match a
    case Lookup(_, _) => true
    case Read(key, guid, _, now) => guid in s.rows && Admits(s.rows[guid], key, now)
    case Store(i, evicted, now) => i < |s.pending| && MakesRoom(Swept(s.items, s.lastSweep, now), evicted)
    case Write(_, m, _) => Allowed(s.rows, m)
    case Invalidate(handle, device, _) => Writing(handle, device) in s.writing
  }

  /** last_used_at is brought up to date at most every ten minutes. */
  predicate TouchDue(r: Row, now: int) {
    r.lastUsedAt <= 0 || now - r.lastUsedAt >= TOUCH_INTERVAL
  }

  function Touched(rows: Rows, guid: string, now: int): Rows
    requires guid in rows
  {
    if TouchDue(rows[guid], now) then rows[guid := rows[guid].(lastUsedAt := now)] else rows
  }

  function Apply(s0: State, a: Step): State
    requires Possible(s0, a)
  {
    var s := s0.(clock := a.now);
    match a
    case Lookup(key, now) => s.(items := LookedUp(s.items, key, now))
    case Read(key, guid, touchOk, now) =>
      if TouchDue(s.rows[guid], now) && !touchOk then s
      else s.(rows := Touched(s.rows, guid, now), pending := s.pending + [Pending(key, Expiry(s.rows[guid], now))])
    case Store(i, evicted, now) =>
      var p := s.pending[i];
      s.(items := Stored(s.items, s.lastSweep, p.key, p.expiresAt, now, evicted),
         lastSweep := if SweepDue(s.items, s.lastSweep, now) then now else s.lastSweep,
         pending := s.pending[..i] + s.pending[i + 1..])
    case Write(handle, m, _) =>
      s.(rows := Mutated(s.rows, m), writing := s.writing + multiset{Writing(handle, m.device)})
    case Invalidate(handle, device, _) =>
      s.(items := Invalidated(s.items, handle, device), writing := s.writing - multiset{Writing(handle, device)})
  }

  predicate Run(s: State, steps: seq<Step>)
    decreases |steps|
  {
    steps == [] || (Possible(s, steps[0]) && Run(Apply(s, steps[0]), steps[1..]))
  }

  function At(s: State, steps: seq<Step>): State
    requires Run(s, steps)
    decreases |steps|
  {
    if steps == [] then s else At(Apply(s, steps[0]), steps[1..])
  }

  lemma TouchKeepsSound(rows: Rows, guid: string, now: int, key: Key, expiresAt: int)
    requires guid in rows && Sound(rows, key, expiresAt)
    ensures Sound(Touched(rows, guid, now), key, expiresAt)
  {
    var g :| g in rows && Backs(rows[g], key, expiresAt);
    assert Backs(Touched(rows, guid, now)[g], key, expiresAt);
  }

  lemma ReadIsSound(rows: Rows, guid: string, key: Key, now: int)
    requires 0 <= now && guid in rows && Admits(rows[guid], key, now)
    ensures now < Expiry(rows[guid], now) <= now + TTL && Sound(rows, key, Expiry(rows[guid], now))
  {
  }

  lemma StoredHas(s: State, k: Key, expiresAt: int, now: int, evicted: set<Key>, key: Key)
    ensures var items := Stored(s.items, s.lastSweep, k, expiresAt, now, evicted);
            key in items ==> if key == k then items[key] == expiresAt else key in s.items && items[key] == s.items[key]
  {
  }

  lemma StepKeepsSize(s: State, a: Step)
    requires |s.items| <= MAX_ITEMS && Possible(s, a)
    ensures |Apply(s, a).items| <= MAX_ITEMS
  {
    if a.Store? {
      var p := s.pending[a.which];
      StoredFits(s.items, s.lastSweep, p.key, p.expiresAt, a.now, a.evicted);
      SweptIsSmaller(s.items, s.lastSweep, a.now);
    } else {
      SubmapIsSmaller(Apply(s, a).items, s.items);
    }
  }

  /** In every interleaving the cache has at most 4096 entries. */
  lemma {:induction false} RunKeepsSize(s: State, steps: seq<Step>)
    requires |s.items| <= MAX_ITEMS && Run(s, steps)
    ensures |At(s, steps).items| <= MAX_ITEMS
    decreases |steps|
  {
    if steps != [] {
      StepKeepsSize(s, steps[0]);
      RunKeepsSize(Apply(s, steps[0]), steps[1..]);
    }
  }

  /** An entry stays until it is looked up after its end, found ended by a sweep, evicted, or invalidated under
      its own handle for its own device; while it stays, only a store of the same key changes it. */
  lemma EntryStaysIff(s: State, a: Step, key: Key)
    requires Possible(s, a) && key in s.items
    ensures var t := Apply(s, a);
            key in t.items <==>
            match a
            case Lookup(k, now) => k != key || now < s.items[key]
            case Store(i, evicted, now) =>
              s.pending[i].key == key
              || (key !in evicted && !(now >= s.items[key] && (now - s.lastSweep >= 120_000 || |s.items| >= 4096)))
            case Invalidate(handle, device, _) => key.handle != handle || key.device != device
            case _ => true
    ensures key in Apply(s, a).items && !(a.Store? && s.pending[a.which].key == key) ==>
              Apply(s, a).items[key] == s.items[key]
  {
  }

  /** A store caches its answer, and evicts nothing while there is room for it. */
  lemma StoreCaches(s: State, i: nat, evicted: set<Key>, now: int)
    requires Possible(s, Store(i, evicted, now))
    ensures var p, t := s.pending[i], Apply(s, Store(i, evicted, now));
            && (forall at :: Hit(t.items, p.key, at) <==> at < p.expiresAt)
            && (|s.items| < 4096 ==> evicted == {})
            && |t.pending| == |s.pending| - 1
  {
    SweptIsSmaller(s.items, s.lastSweep, now);
  }

  /** A read that admits its key has the answer stored for two minutes, or until the token expires if that is
      sooner, and notes the use if the last one noted is ten minutes old. */
  lemma ReadPrepares(s: State, key: Key, guid: string, now: int)
    requires Possible(s, Read(key, guid, true, now))
    ensures var t := Apply(s, Read(key, guid, true, now));
            && |t.pending| == |s.pending| + 1 && t.pending[|s.pending|].key == key
            && (forall at :: now <= at ==>
                  (at < t.pending[|s.pending|].expiresAt
                   <==> at < now + 120_000 && Unexpired(s.rows[guid].expireTime, at)))
            && t.rows.Keys == s.rows.Keys && t.rows[guid].lastUsedAt >= now - 600_000
            && (forall g | g in s.rows :: t.rows[g] == s.rows[g].(lastUsedAt := t.rows[g].lastUsedAt))
            && (forall g | g in s.rows && g != guid :: t.rows[g] == s.rows[g])
            && (0 < s.rows[guid].lastUsedAt && now < s.rows[guid].lastUsedAt + 600_000 ==> t.rows == s.rows)
  {
  }

  // ---------------------------------------------------------------- exactly when hits agree

  /** Every entry under way is backed, and so is every cached one, unless a mutator under its handle is about to
      invalidate it. */
  ghost predicate Backed(s: State) {
    && (forall p | p in s.pending :: Sound(s.rows, p.key, p.expiresAt))
    && (forall key | key in s.items :: CachedOK(s, key))
  }

  predicate CachedOK(s: State, key: Key)
    requires key in s.items
  {
    Writing(key.handle, key.device) in s.writing || Sound(s.rows, key, s.items[key])
  }

  /** A write is harmless if all entries that it does not invalidate survive it: those of validations under way,
      and those cached under other handles. It can be seen before the write. */
  ghost predicate Harmless(s: State, a: Step) {
    a.Write? ==>
      && (forall p | p in s.pending :: Survives(s.rows, a.mutation, p.key, p.expiresAt))
      && (forall key | key in s.items && LeftAlone(s, a, key) :: Survives(s.rows, a.mutation, key, s.items[key]))
  }

  predicate LeftAlone(s: State, a: Step, key: Key)
    requires a.Write?
  {
    Writing(key.handle, key.device) !in s.writing && !(key.handle == a.handle && key.device == a.mutation.device)
  }

  lemma OtherStepKeepsBacked(s: State, a: Step)
    requires Backed(s) && Possible(s, a) && !a.Write?
    ensures Backed(Apply(s, a))
  {
    var t := Apply(s, a);
    forall p | p in t.pending ensures Sound(t.rows, p.key, p.expiresAt) {
      PendingStaysSound(s, a, p);
    }
    forall key | key in t.items ensures CachedOK(t, key) {
      CachedStaysOK(s, a, key);
    }
  }

  lemma PendingStaysSound(s: State, a: Step, p: Pending)
    requires Backed(s) && Possible(s, a) && !a.Write? && p in Apply(s, a).pending
    ensures Sound(Apply(s, a).rows, p.key, p.expiresAt)
  {
    hide Sound;
    if a.Read? {
      ReadIsSound(s.rows, a.guid, a.key, a.now);
      assert p in s.pending || p == Pending(a.key, Expiry(s.rows[a.guid], a.now));
      TouchKeepsSound(s.rows, a.guid, a.now, p.key, p.expiresAt);
    } else {
      assert p in s.pending;
    }
  }

  lemma CachedStaysOK(s: State, a: Step, key: Key)
    requires Backed(s) && Possible(s, a) && !a.Write? && key in Apply(s, a).items
    ensures CachedOK(Apply(s, a), key)
  {
    hide Sound, Stored;
    if a.Store? {
      var p := s.pending[a.which];
      assert p in s.pending;
      StoredHas(s, p.key, p.expiresAt, a.now, a.evicted, key);
      assert key != p.key ==> CachedOK(s, key);
    } else {
      assert key in s.items && CachedOK(s, key);
      if a.Read? && Sound(s.rows, key, s.items[key]) {
        TouchKeepsSound(s.rows, a.guid, a.now, key, s.items[key]);
      }
    }
  }

  lemma WriteKeepsBackedIff(s: State, a: Step)
    requires Backed(s) && Possible(s, a) && a.Write?
    ensures Backed(Apply(s, a)) <==> Harmless(s, a)
  {
    hide Sound, Survives, Mutated;
    var t := Apply(s, a);
    forall p | p in s.pending
      ensures Sound(t.rows, p.key, p.expiresAt) <==> Survives(s.rows, a.mutation, p.key, p.expiresAt)
    {
      MutationKeepsSoundIff(s.rows, a.mutation, p.key, p.expiresAt);
    }
    forall key | key in s.items
      ensures CachedOK(t, key) <==> (LeftAlone(s, a, key) ==> Survives(s.rows, a.mutation, key, s.items[key]))
    {
      assert CachedOK(s, key);
      if LeftAlone(s, a, key) {
        MutationKeepsSoundIff(s.rows, a.mutation, key, s.items[key]);
      }
    }
  }

  /** A step keeps every entry backed if and only if it is no write that an entry it leaves alone does not
      survive. */
  lemma StepKeepsBackedIff(s: State, a: Step)
    requires Backed(s) && Possible(s, a)
    ensures Backed(Apply(s, a)) <==> Harmless(s, a)
  {
    if a.Write? {
      WriteKeepsBackedIff(s, a);
    } else {
      OtherStepKeepsBacked(s, a);
    }
  }

  /** A mutator that runs with no validation of its device between its read and its store, and with nothing of the
      device cached under another handle, is harmless. */
  lemma UndisturbedIsHarmless(s: State, a: Step)
    requires Backed(s) && Possible(s, a) && a.Write?
    requires forall p | p in s.pending :: p.key.device != a.mutation.device
    requires forall key | key in s.items && key.device == a.mutation.device :: key.handle == a.handle
    ensures Harmless(s, a)
  {
    hide Sound, Survives;
    forall p | p in s.pending ensures Survives(s.rows, a.mutation, p.key, p.expiresAt) {
      MutationKeepsOthers(s.rows, a.mutation, p.key, p.expiresAt);
    }
    forall key | key in s.items && LeftAlone(s, a, key) ensures Survives(s.rows, a.mutation, key, s.items[key]) {
      assert CachedOK(s, key);
      MutationKeepsOthers(s.rows, a.mutation, key, s.items[key]);
    }
  }

  ghost predicate BackedThroughout(s: State, steps: seq<Step>)
    requires Run(s, steps)
    decreases |steps|
  {
    Backed(s) && (steps != [] ==> BackedThroughout(Apply(s, steps[0]), steps[1..]))
  }

  ghost predicate HarmlessThroughout(s: State, steps: seq<Step>)
    requires Run(s, steps)
    decreases |steps|
  {
    steps != [] ==> Harmless(s, steps[0]) && HarmlessThroughout(Apply(s, steps[0]), steps[1..])
  }

  /** Over every run, all entries stay backed if and only if every write is harmless when it comes. */
  lemma {:induction false} BackedIffHarmless(s: State, steps: seq<Step>)
    requires Backed(s) && Run(s, steps)
    ensures BackedThroughout(s, steps) <==> HarmlessThroughout(s, steps)
    decreases |steps|
  {
    if steps != [] {
      hide Backed, Harmless;
      StepKeepsBackedIff(s, steps[0]);
      if Harmless(s, steps[0]) {
        BackedIffHarmless(Apply(s, steps[0]), steps[1..]);
      }
    }
  }

  /** While all writes are harmless, every hit of a device that no mutator is invalidating is an answer that the
      table gives too, its expiry included. */
  lemma {:induction false} HitAgrees(s: State, steps: seq<Step>, key: Key, now: int)
    requires Backed(s) && Run(s, steps) && HarmlessThroughout(s, steps)
    requires Hit(At(s, steps).items, key, now) && Writing(key.handle, key.device) !in At(s, steps).writing
    ensures Matches(At(s, steps).rows, key, now)
    decreases |steps|
  {
    if steps == [] {
      assert CachedOK(s, key);
      SoundMatches(s.rows, key, s.items[key], now);
    } else {
      StepKeepsBackedIff(s, steps[0]);
      HitAgrees(Apply(s, steps[0]), steps[1..], key, now);
    }
  }

  /** A validation overtaken by one mutator of its device: it reads, the mutator writes and invalidates, and it
      stores what it has read. */
  predicate Overtaken(s: State, read: Step, write: Step, invalidate: Step, store: Step) {
    && read.Read? && write.Write? && invalidate.Invalidate? && store.Store?
    && invalidate.handle == write.handle && invalidate.device == write.mutation.device
    && Possible(s, read) && |Apply(s, read).pending| == |s.pending| + 1 && store.which == |s.pending|
    && Possible(Apply(s, read), write)
    && Possible(Apply(Apply(s, read), write), invalidate)
    && Possible(Apply(Apply(Apply(s, read), write), invalidate), store)
  }

  function AfterOvertaken(s: State, read: Step, write: Step, invalidate: Step, store: Step): State
    requires Overtaken(s, read, write, invalidate, store)
  {
    Apply(Apply(Apply(Apply(s, read), write), invalidate), store)
  }

  /** Its entry hits at a moment when the table refuses it if and only if it does not survive the mutator. */
  lemma OvertakenIsWrongIff(s: State, read: Step, write: Step, invalidate: Step, store: Step)
    requires Overtaken(s, read, write, invalidate, store)
    ensures var expiresAt := Expiry(s.rows[read.guid], read.now);
            var t := AfterOvertaken(s, read, write, invalidate, store);
            (exists now :: Hit(t.items, read.key, now) && !Matches(t.rows, read.key, now))
            <==> !Survives(Touched(s.rows, read.guid, read.now), write.mutation, read.key, expiresAt)
  {
    var key := read.key;
    var expiresAt := Expiry(s.rows[read.guid], read.now);
    var rows := Touched(s.rows, read.guid, read.now);
    OvertakenEndsIn(s, read, write, invalidate, store);
    hide AfterOvertaken, Survives, Matches;
    ReadIsSound(s.rows, read.guid, key, read.now);
    TouchKeepsSound(s.rows, read.guid, read.now, key, expiresAt);
    MutationKeepsSoundIff(rows, write.mutation, key, expiresAt);
    SoundIffLastMoment(Mutated(rows, write.mutation), key, expiresAt);
    var t := AfterOvertaken(s, read, write, invalidate, store);
    assert forall now :: Hit(t.items, key, now) <==> now < expiresAt;
    assert Hit(t.items, key, expiresAt - 1);
  }

  lemma OvertakenEndsIn(s: State, read: Step, write: Step, invalidate: Step, store: Step)
    requires Overtaken(s, read, write, invalidate, store)
    ensures Allowed(Touched(s.rows, read.guid, read.now), write.mutation)
    ensures var t := AfterOvertaken(s, read, write, invalidate, store);
            && t.rows == Mutated(Touched(s.rows, read.guid, read.now), write.mutation)
            && read.key in t.items && t.items[read.key] == Expiry(s.rows[read.guid], read.now)
  {
    hide Allowed, Mutated, Touched;
    var s1 := Apply(s, read);
    var n := |s.pending|;
    assert s1.pending[n] == Pending(read.key, Expiry(s.rows[read.guid], read.now));
    var s2 := Apply(s1, write);
    assert s2.pending[n].key == read.key && s2.pending[n].expiresAt == s1.pending[n].expiresAt;
    var s3 := Apply(s2, invalidate);
    assert s3.pending == s2.pending;
  }

  // ---------------------------------------------------------------- what a hit means in every interleaving

  /** At a step of the run at time m, the table had a row that admitted the key. */
  predicate ValidDuring(s: State, steps: seq<Step>, key: Key, m: int)
    requires Run(s, steps)
    decreases |steps|
  {
    steps != [] && ((steps[0].now == m && Matches(s.rows, key, m))
      || ValidDuring(Apply(s, steps[0]), steps[1..], key, m))
  }

  predicate Holds(s: State, key: Key, expiresAt: int) {
    (key in s.items && s.items[key] == expiresAt)
      || (exists p | p in s.pending :: p.key == key && p.expiresAt == expiresAt)
  }

  /** What a step leaves cached or pending was so before, or its row has just been read. */
  lemma StepHolds(s: State, a: Step, key: Key, expiresAt: int)
    requires Possible(s, a) && Holds(Apply(s, a), key, expiresAt)
    ensures Holds(s, key, expiresAt) || (Matches(s.rows, key, a.now) && expiresAt <= a.now + TTL)
  {
  }

  lemma {:induction false} Origin(s: State, steps: seq<Step>, key: Key, expiresAt: int) returns (m: int)
    requires Run(s, steps) && Holds(At(s, steps), key, expiresAt) && !Holds(s, key, expiresAt)
    ensures expiresAt <= m + TTL && s.clock <= m <= At(s, steps).clock && ValidDuring(s, steps, key, m)
    decreases |steps|
  {
    var t := Apply(s, steps[0]);
    ClockRises(t, steps[1..]);
    if Holds(t, key, expiresAt) {
      StepHolds(s, steps[0], key, expiresAt);
      m := steps[0].now;
    } else {
      m := Origin(t, steps[1..], key, expiresAt);
    }
  }

  lemma {:induction false} ClockRises(s: State, steps: seq<Step>)
    requires Run(s, steps)
    ensures s.clock <= At(s, steps).clock
    decreases |steps|
  {
    if steps != [] {
      ClockRises(Apply(s, steps[0]), steps[1..]);
    }
  }

  /** Whatever runs between a validation's read and its store, a hit means that the table admitted the key at
      some moment of the last two minutes. */
  lemma HitIsRecent(s: State, steps: seq<Step>, key: Key, now: int) returns (m: int)
    requires s.items == map[] && s.pending == [] && Run(s, steps)
    requires At(s, steps).clock <= now && Hit(At(s, steps).items, key, now)
    ensures now - TTL < m <= now && ValidDuring(s, steps, key, m)
  {
    m := Origin(s, steps, key, At(s, steps).items[key]);
  }

  /** The race: a token disabled between the read and the store of a validation still hits, although the
      mutator has invalidated and the table refuses it. */
  lemma RaceLeavesAStaleHit(key: Key, guid: string)
    ensures var s0 := State(0, map[guid := Row(key.device, key.hash, ENABLED, 0, 1, 0)], map[], 0, [], multiset{});
            var read := Read(key, guid, true, 1);
            var write := Write(key.handle, SetStatus(key.device, guid, DISABLED), 1);
            var invalidate := Invalidate(key.handle, key.device, 1);
            var store := Store(0, {}, 1);
            && Possible(s0, read) && Possible(Apply(s0, read), write)
            && Possible(Apply(Apply(s0, read), write), invalidate)
            && Possible(Apply(Apply(Apply(s0, read), write), invalidate), store)
            && var s := Apply(Apply(Apply(Apply(s0, read), write), invalidate), store);
            Hit(s.items, key, 2) && !Matches(s.rows, key, 2) && s.writing == multiset{}
  {
  }

  // ---------------------------------------------------------------- the code

  /** The cache while a loop has the keys `todo` before it. */
  function LiveExcept(items: Items, now: int, todo: set<Key>): Items {
    map key | key in items && (key in todo || now < items[key]) :: items[key]
  }

  function InvalidatedExcept(items: Items, handle: int, device: string, todo: set<Key>): Items {
    map key | key in items && (key in todo || !(key.handle == handle && key.device == device)) :: items[key]
  }

  class ValidationCache {
    var items: Items
    var lastSweep: int

    constructor ()
      ensures items == map[] && lastSweep == 0
    {
      items := map[];
      lastSweep := 0;
    }

    /** tokenValidationCached */
    method Cached(key: Key, now: int) returns (hit: bool)
      requires 0 <= now
      modifies this`items
      ensures hit == Hit(old(items), key, now) && items == LookedUp(old(items), key, now)
    {
      var expiresAt := if key in items then items[key] else 0;
      if expiresAt <= now {
        items := items - {key};
        return false;
      }
      return true;
    }

    method DropExpired(now: int)
      modifies this`items
      ensures items == Live(old(items), now)
    {
      ghost var before := items;
      var todo := items.Keys;
      while todo != {}
        invariant todo <= items.Keys && items == LiveExcept(before, now, todo)
        decreases |todo|
      {
        var key :| key in todo;
        if items[key] <= now {
          items := items - {key};
        }
        todo := todo - {key};
      }
    }

    /** The second loop of cacheTokenValidation. */
    method Evict() returns (ghost evicted: set<Key>)
      modifies this`items
      ensures MakesRoom(old(items), evicted) && items == old(items) - evicted
    {
      evicted := {};
      assert items - {} == items;
      while |items| >= MAX_ITEMS
        invariant evicted <= old(items).Keys && items == old(items) - evicted && |items| == |old(items)| - |evicted|
        invariant |old(items)| < MAX_ITEMS ==> evicted == {}
        invariant |old(items)| >= MAX_ITEMS ==> |evicted| <= |old(items)| - MAX_ITEMS + 1
        decreases |items|
      {
        var cachedKey :| cachedKey in items.Keys;
        ghost var was := items;
        items := items - {cachedKey};
        evicted := evicted + {cachedKey};
        assert items.Keys == was.Keys - {cachedKey};
      }
    }

    /** cacheTokenValidation */
    method Store(key: Key, expiresAt: int, now: int)
      requires |items| <= MAX_ITEMS
      modifies this
      ensures exists evicted | MakesRoom(Swept(old(items), old(lastSweep), now), evicted) ::
                items == Stored(old(items), old(lastSweep), key, expiresAt, now, evicted)
      ensures lastSweep == if SweepDue(old(items), old(lastSweep), now) then now else old(lastSweep)
      ensures |items| <= MAX_ITEMS
    {
      SweptIsSmaller(items, lastSweep, now);
      if now - lastSweep >= TTL || |items| >= MAX_ITEMS {
        DropExpired(now);
        lastSweep := now;
      }
      ghost var evicted := Evict();
      StoredFits(old(items), old(lastSweep), key, expiresAt, now, evicted);
      items := items[key := expiresAt];
    }

    /** invalidateDeviceTokenValidationCache */
    method Invalidate(handle: int, deviceGuid: string)
      modifies this`items
      ensures items == Invalidated(old(items), handle, TrimSpace(deviceGuid))
    {
      var device := TrimSpace(deviceGuid);
      ghost var before := items;
      var todo := items.Keys;
      while todo != {}
        invariant todo <= items.Keys && items == InvalidatedExcept(before, handle, device, todo)
        decreases |todo|
      {
        var key :| key in todo;
        if key.handle == handle && key.device == device {
          items := items - {key};
        }
        todo := todo - {key};
      }
    }
  }

  /** The service on one handle, with its calls one at a time. */
  class DeviceTokenService {
    const cache: ValidationCache
    const handle: int
    /** The token hash, an abstract function. */
    const hashToken: string -> string
    var rows: Rows

    /** Every entry of this handle is backed by a row. */
    ghost predicate Valid()
      reads this, cache
    {
      |cache.items| <= MAX_ITEMS && forall key | key in cache.items && key.handle == handle ::
        Sound(rows, key, cache.items[key])
    }

    function KeyOf(deviceGuid: string, token: string): Key {
      Key(handle, TrimSpace(deviceGuid), hashToken(TrimSpace(token)))
    }

    constructor (handle: int, hashToken: string -> string, rows: Rows)
      ensures Valid() && fresh(cache) && this.rows == rows && this.handle == handle && this.hashToken == hashToken
    {
      this.cache := new ValidationCache();
      this.handle, this.hashToken, this.rows := handle, hashToken, rows;
    }

    /** The cache is not seen in the answer: it is what the table says. A failing update of last_used_at may
        refuse a token, and then nothing is cached. */
    method Validate(deviceGuid: string, token: string, now: int, touchOk: bool) returns (ok: bool)
      requires Valid() && 0 <= now
      modifies this`rows, cache
      ensures Valid()
      ensures ok ==> Matches(old(rows), KeyOf(deviceGuid, token), now)
      ensures touchOk && Matches(old(rows), KeyOf(deviceGuid, token), now) ==> ok
      ensures ok ==> Hit(cache.items, KeyOf(deviceGuid, token), now)
      ensures Hit(old(cache.items), KeyOf(deviceGuid, token), now) || !ok ==> rows == old(rows)
      ensures !Hit(old(cache.items), KeyOf(deviceGuid, token), now) && ok ==>
                exists guid | guid in old(rows) && Admits(old(rows)[guid], KeyOf(deviceGuid, token), now) ::
                  rows == Touched(old(rows), guid, now)
    {
      hide Sound, Matches, Touched;
      var key := KeyOf(deviceGuid, token);
      var hit := cache.Cached(key, now);
      if hit {
        SoundMatches(rows, key, cache.items[key], now);
        return true;
      }
      SubmapIsSmaller(cache.items, old(cache.items));
      ok := ValidateOnTable(key, now, touchOk);
    }

    /** The part of Validate after a miss. */
    method ValidateOnTable(key: Key, now: int, touchOk: bool) returns (ok: bool)
      requires Valid() && 0 <= now
      modifies this`rows, cache
      ensures Valid()
      ensures ok ==> Matches(old(rows), key, now)
      ensures touchOk && Matches(old(rows), key, now) ==> ok
      ensures !ok ==> rows == old(rows)
      ensures ok ==> Hit(cache.items, key, now)
      ensures ok ==> exists guid | guid in old(rows) && Admits(old(rows)[guid], key, now) ::
                       rows == Touched(old(rows), guid, now)
    {
      if !(exists guid | guid in rows :: Admits(rows[guid], key, now)) {
        return false;
      }
      var guid :| guid in rows && Admits(rows[guid], key, now);
      if TouchDue(rows[guid], now) && !touchOk {
        return false;
      }
      ReadIsSound(rows, guid, key, now);
      assert Matches(rows, key, now);
      hide Sound, Matches;
      var expiresAt := now + TTL;
      if rows[guid].expireTime > 0 && rows[guid].expireTime < expiresAt {
        expiresAt := rows[guid].expireTime;
      }
      assert expiresAt == Expiry(rows[guid], now);
      Touch(guid, now);
      cache.Store(key, expiresAt, now);
      return true;
    }

    /** The update of last_used_at, which is due at most every ten minutes. */
    method Touch(guid: string, now: int)
      requires guid in rows
      modifies this`rows
      ensures rows == Touched(old(rows), guid, now)
      ensures forall k: Key, e: int | Sound(old(rows), k, e) :: Sound(rows, k, e)
    {
      forall k: Key, e: int | Sound(rows, k, e) ensures Sound(Touched(rows, guid, now), k, e) {
        TouchKeepsSound(rows, guid, now, k, e);
      }
      if TouchDue(rows[guid], now) {
        rows := rows[guid := rows[guid].(lastUsedAt := now)];
      }
    }

    /** A mutator: write, then invalidate the device. */
    method Mutate(m: Mutation)
      requires Valid() && Allowed(rows, m) && TrimSpace(m.device) == m.device
      modifies this`rows, cache`items
      ensures Valid() && rows == Mutated(old(rows), m)
    {
      forall key: Key, e: int | key.device != m.device && Sound(rows, key, e) ensures Sound(Mutated(rows, m), key, e) {
        MutationKeepsOthers(rows, m, key, e);
      }
      SubmapIsSmaller(Invalidated(cache.items, handle, m.device), cache.items);
      rows := Mutated(rows, m);
      cache.Invalidate(handle, m.device);
    }

    /** A validation right after a mutator: its answer is decided by the table from before the mutator. */
    method MutateAndValidate(m: Mutation, deviceGuid: string, token: string, now: int) returns (ok: bool)
      requires Valid() && Allowed(rows, m) && TrimSpace(m.device) == m.device && 0 <= now
      modifies this`rows, cache
      ensures Valid() && (ok <==> AdmittedAfter(old(rows), m, KeyOf(deviceGuid, token), now))
    {
      hide Sound, Matches, Mutated, Allowed, AdmittedAfter;
      MutationDecides(rows, m, KeyOf(deviceGuid, token), now);
      Mutate(m);
      ok := Validate(deviceGuid, token, now, true);
    }
  }
}
