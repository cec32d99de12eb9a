/** The cache of remote snapshotters (snapshotter/demux/cache/cache.go) as it is written. A snapshotter is known by the
    number of the fetch that returned it; `fetched` and `closed` record what was done to the outside. */
module SnapshotterCaches {
  import opened Outcomes
  import opened Text

  type Snapshotter = nat

  /** A call of Close on a cache that was closed before panics, since its channel is closed twice. */
  datatype CloseResult = Closed(errs: set<Snapshotter>) | Panicked

  class RemoteSnapshotterCache {
    var snapshotters: map<string, Snapshotter>
    var fetched: seq<string>             // the key of each fetch
    var closed: multiset<Snapshotter>    // every call of a snapshotter's Close
    var stopped: bool

    /** Everything that was fetched is either in the cache, under the key it was fetched for, or was closed, and that
        once. */
    ghost predicate Valid()
      reads this
    {
      && (forall k :: k in snapshotters ==> snapshotters[k] < |fetched| && fetched[snapshotters[k]] == k)
      && (forall x :: x in closed ==> x < |fetched|)
      && (forall x :: 0 <= x < |fetched| ==>
          closed[x] == (if fetched[x] in snapshotters && snapshotters[fetched[x]] == x then 0 else 1))
    }

    constructor ()
      ensures Valid() && snapshotters == map[] && fetched == [] && closed == multiset{} && !stopped
    {
      snapshotters := map[];
      fetched := [];
      closed := multiset{};
      stopped := false;
    }

    /** Fetches only if the key is absent. */
    method Get(key: string, fetchOk: bool) returns (r: Result<Snapshotter>)
      requires Valid()
      modifies this`snapshotters, this`fetched
      ensures Valid()
      ensures key in old(snapshotters) ==>
                r == Ok(old(snapshotters)[key]) && fetched == old(fetched) && snapshotters == old(snapshotters)
      ensures key !in old(snapshotters) && !fetchOk ==>
          r.Err? && fetched == old(fetched) && snapshotters == old(snapshotters)
      ensures key !in old(snapshotters) && fetchOk ==>
                r == Ok(|old(fetched)|) && fetched == old(fetched) + [key]
                    && snapshotters == old(snapshotters)[key := |old(fetched)|]
    {
      if key in snapshotters {
        return Ok(snapshotters[key]);
      }
      if !fetchOk {
        return Err("fetch failed");
      }
      var newSnapshotter := |fetched|;
      fetched := fetched + [key];
      snapshotters := snapshotters[key := newSnapshotter];
      return Ok(newSnapshotter);
    }

    method Drop(key: string)
      requires Valid() && key in snapshotters
      modifies this`snapshotters, this`closed
      ensures Valid() && snapshotters == old(snapshotters) - {key}
          && closed == old(closed) + multiset{old(snapshotters)[key]}
    {
      closed := closed + multiset{snapshotters[key]};
      snapshotters := snapshotters - {key};
    }

    /** Closes and forgets the snapshotter of a key, even if closing it fails. */
    method Evict(key: string, closeOk: bool) returns (r: Result<()>)
      requires Valid()
      modifies this`snapshotters, this`closed
      ensures Valid()
      ensures r.Ok? <==> key in old(snapshotters) && closeOk
      ensures snapshotters == old(snapshotters) - {key}
      ensures closed == old(closed) + (if key in old(snapshotters) then multiset{old(snapshotters)[key]}
          else multiset{})
    {
      if key !in snapshotters {
        return Err("snapshotter not found in cache");
      }
      Drop(key);
      return if closeOk then Ok(()) else Err("close failed");
    }

    method List() returns (keys: seq<string>)
      ensures Distinct(keys) && forall k :: k in keys <==> k in snapshotters
    {
      keys := [];
      var left := snapshotters.Keys;
      while left != {}
        invariant left <= snapshotters.Keys && Distinct(keys)
        invariant forall k :: k in keys <==> k in snapshotters && k !in left
        decreases left
      {
        var k :| k in left;
        keys := keys + [k];
        left := left - {k};
      }
    }

    /** Walks every cached snapshotter, whether or not others fail; the error names exactly those that failed. */
    method WalkAll(fails: Snapshotter -> bool) returns (walked: multiset<string>, errs: set<string>)
      ensures walked == multiset(snapshotters.Keys)
      ensures forall k :: k in errs <==> k in snapshotters && fails(snapshotters[k])
    {
      walked, errs := multiset{}, {};
      var left := snapshotters.Keys;
      while left != {}
        invariant left <= snapshotters.Keys
        invariant walked == multiset(snapshotters.Keys - left)
        invariant forall k :: k in errs <==> k in snapshotters && k !in left && fails(snapshotters[k])
        decreases left
      {
        var k :| k in left;
        assert snapshotters.Keys - (left - {k}) == (snapshotters.Keys - left) + {k};
        walked := walked + multiset{k};
        if fails(snapshotters[k]) {
          errs := errs + {k};
        }
        left := left - {k};
      }
    }

    /** Leaves nothing in the cache and nothing unclosed. */
    method Close(fails: Snapshotter -> bool) returns (r: CloseResult)
      requires Valid()
      modifies this
      ensures Valid() && fetched == old(fetched) && stopped
      ensures r.Panicked? <==> old(stopped)
      ensures r.Closed? ==> snapshotters == map[] && forall x :: 0 <= x < |fetched| ==> closed[x] == 1
      ensures r.Closed? ==> forall x :: x in r.errs <==> x in old(snapshotters).Values && fails(x)
    {
      if stopped {
        return Panicked;
      }
      hide FailedOf;
      stopped := true;
      var errs: set<Snapshotter> := {};
      ghost var all := snapshotters;
      FailedAll(all, fails);
      while snapshotters != map[]
        invariant Valid() && fetched == old(fetched) && stopped
        invariant forall k :: k in snapshotters ==> k in all && snapshotters[k] == all[k]
        invariant errs == FailedOf(all, snapshotters.Keys, fails)
        decreases snapshotters.Keys
      {
        assert snapshotters.Keys != {};
        var k :| k in snapshotters;
        var v := snapshotters[k];
        FailedStep(all, snapshotters.Keys, fails, k);
        if fails(v) {
          errs := errs + {v};
        }
        Drop(k);
      }
      return Closed(errs);
    }
  }

  /** The values outside `left` whose closing fails. */
  ghost function FailedOf(all: map<string, Snapshotter>, left: set<string>,
                          fails: Snapshotter -> bool): set<Snapshotter>
  {
    set k | k in all && k !in left && fails(all[k]) :: all[k]
  }

  lemma FailedStep(all: map<string, Snapshotter>, left: set<string>, fails: Snapshotter -> bool, k: string)
    requires k in left && k in all
    ensures FailedOf(all, left - {k}, fails) == FailedOf(all, left, fails) + (if fails(all[k]) then {all[k]} else {})
  {
  }

  lemma FailedAll(all: map<string, Snapshotter>, fails: Snapshotter -> bool)
    ensures FailedOf(all, all.Keys, fails) == {}
    ensures forall x :: x in FailedOf(all, {}, fails) <==> x in all.Values && fails(x)
  {
  }
}

/** Every interleaving of any number of Get, Evict and Close calls. A step is one section under the lock, or the fetch,
    which is made without it. */
module SnapshotterRuns {
  import opened Outcomes

  datatype Client =
    | Getting(key: string)                  // before the first look
    | Missed(key: string)                   // missed under the read lock
    | Fetching(key: string)                 // missed again under the write lock
    | Inserting(key: string, x: nat)        // has fetched x
    | Got(x: nat)
    | GetErr
    | Evicting(key: string)
    | Closing(key: string, x: nat)          // found x under the read lock
    | EvictDone(ok: bool)
    | CloseCalled
    | CloseStopped                          // has closed the stop channel
    | CloseDone

  /** Who fetched a snapshotter and for which key. */
  datatype Fetch = Fetch(key: string, client: nat)

  datatype State = State(
    cache: map<string, nat>,
    fetched: seq<Fetch>,
    closed: multiset<nat>,
    clients: seq<Client>,
    stopped: bool,        // the stop channel is closed
    dead: bool            // closing it again has ended the process
  )

  const INIT := State(map[], [], multiset{}, [], false, false)

  datatype Step =
    | CallGet(key: string)
    | CallEvict(key: string)
    | CallClose
    | Look(c: nat)
    | FetchReturns(c: nat, ok: bool)
    | Insert(c: nat)
    | FindEvicted(c: nat)
    | FinishEvict(c: nat)
    | CloseStop(c: nat)
    | CloseAll(c: nat)

  predicate Enabled(s: State, step: Step) {
    !s.dead &&
    match step
    case CallGet(_) => true
    case CallEvict(_) => true
    case CallClose => true
    case Look(c) => c < |s.clients| && (s.clients[c].Getting? || s.clients[c].Missed?)
    case FetchReturns(c, _) => c < |s.clients| && s.clients[c].Fetching?
    case Insert(c) => c < |s.clients| && s.clients[c].Inserting?
    case FindEvicted(c) => c < |s.clients| && s.clients[c].Evicting?
    case FinishEvict(c) => c < |s.clients| && s.clients[c].Closing?
    case CloseStop(c) => c < |s.clients| && s.clients[c].CloseCalled?
    case CloseAll(c) => c < |s.clients| && s.clients[c].CloseStopped?
  }

  function At(s: State, c: nat, client: Client): State
    requires c < |s.clients|
  {
    s.(clients := s.clients[c := client])
  }

  function Apply(s: State, step: Step): State
    requires Enabled(s, step)
  {
    match step
    case CallGet(key) => s.(clients := s.clients + [Getting(key)])
    case CallEvict(key) => s.(clients := s.clients + [Evicting(key)])
    case CallClose => s.(clients := s.clients + [CloseCalled])
    case Look(c) =>
      var key := s.clients[c].key;
      At(s, c, if key in s.cache then Got(s.cache[key]) else if s.clients[c].Getting? then Missed(key)
          else Fetching(key))
    case FetchReturns(c, ok) =>
      var key := s.clients[c].key;
      if ok then At(s, c, Inserting(key, |s.fetched|)).(fetched := s.fetched + [Fetch(key, c)]) else At(s, c, GetErr)
    case Insert(c) => At(s, c, Got(s.clients[c].x)).(cache := s.cache[s.clients[c].key := s.clients[c].x])
    case FindEvicted(c) =>
      var key := s.clients[c].key;
      At(s, c, if key in s.cache then Closing(key, s.cache[key]) else EvictDone(false))
    case FinishEvict(c) =>
      At(s, c, EvictDone(true)).(closed := s.closed + multiset{s.clients[c].x}, cache := s.cache - {s.clients[c].key})
    case CloseStop(c) => if s.stopped then s.(dead := true) else At(s, c, CloseStopped).(stopped := true)
    case CloseAll(c) => At(s, c, CloseDone).(closed := s.closed + multiset(s.cache.Values), cache := map[])
  }

  ghost function After(run: seq<Step>): Option<State>
    decreases |run|
  {
    if run == [] then Some(INIT)
    else
      var last := run[|run| - 1];
      match After(run[..|run| - 1])
      case None => None
      case Some(s) => if Enabled(s, last) then Some(Apply(s, last)) else None
  }

  // ----- where snapshotters come from -----

  predicate FetchedFor(s: State, x: nat, key: string) {
    x < |s.fetched| && s.fetched[x].key == key
  }

  ghost predicate ClientInv(s: State, c: nat, client: Client) {
    match client
    case Inserting(key, x) => FetchedFor(s, x, key) && s.fetched[x].client == c
    case Closing(key, x) => FetchedFor(s, x, key)
    case Got(x) => x < |s.fetched|
    case _ => true
  }

  ghost predicate Inv(s: State) {
    && (forall k :: k in s.cache ==> FetchedFor(s, s.cache[k], k))
    && (forall c :: 0 <= c < |s.clients| ==> ClientInv(s, c, s.clients[c]))
    && (forall x :: x in s.closed ==> x < |s.fetched|)
  }

  lemma ClientsStep(s: State, step: Step)
    requires Inv(s) && Enabled(s, step)
    ensures var s' := Apply(s, step); forall c :: 0 <= c < |s'.clients| ==> ClientInv(s', c, s'.clients[c])
  {
    var s' := Apply(s, step);
    OthersStay(s, step);
    if |s'.clients| == |s.clients| {
      MoverStep(s, step);
    }
    hide Enabled, Apply, ClientInv;
    forall c | 0 <= c < |s.clients| && s'.clients[c] == s.clients[c] ensures ClientInv(s', c, s'.clients[c]) {
      ClientKept(s, s', c, s.clients[c]);
    }
    forall c | |s.clients| <= c < |s'.clients| ensures ClientInv(s', c, s'.clients[c]) {
      NewClient(s', c, s'.clients[c]);
    }
  }

  /** A call adds one client; any other step moves the client it names. */
  lemma OthersStay(s: State, step: Step)
    requires Enabled(s, step)
    ensures var s' := Apply(s, step);
            && s.fetched <= s'.fetched
            && (if step.CallGet? || step.CallEvict? || step.CallClose?
                then |s'.clients| == |s.clients| + 1 && s.clients <= s'.clients && Called(s'.clients[|s.clients|])
                else && step.c < |s.clients| == |s'.clients| && !Finished(s.clients[step.c])
                     && forall d :: 0 <= d < |s.clients| && d != step.c ==> s'.clients[d] == s.clients[d])
  {
  }

  predicate Called(client: Client) {
    client.Getting? || client.Evicting? || client.CloseCalled?
  }

  lemma NewClient(s: State, c: nat, client: Client)
    requires Called(client)
    ensures ClientInv(s, c, client)
  {
  }

  lemma ClientKept(s: State, s': State, c: nat, client: Client)
    requires ClientInv(s, c, client) && s.fetched <= s'.fetched
    ensures ClientInv(s', c, client)
  {
  }

  lemma MoverStep(s: State, step: Step)
    requires Inv(s) && Enabled(s, step) && !step.CallGet? && !step.CallEvict? && !step.CallClose?
    ensures var s' := Apply(s, step); step.c < |s'.clients| && ClientInv(s', step.c, s'.clients[step.c])
  {
    assert ClientInv(s, step.c, s.clients[step.c]);
  }

  lemma InvStep(s: State, step: Step)
    requires Inv(s) && Enabled(s, step)
    ensures Inv(Apply(s, step))
  {
    ClientsStep(s, step);
    CacheStep(s, step);
    ClosedStep(s, step);
    hide ClientInv, FetchedFor, Enabled, Apply;
  }

  lemma CacheStep(s: State, step: Step)
    requires Inv(s) && Enabled(s, step)
    ensures var s' := Apply(s, step); forall k :: k in s'.cache ==> FetchedFor(s', s'.cache[k], k)
  {
    if step.Insert? {
      assert ClientInv(s, step.c, s.clients[step.c]);
    }
    hide ClientInv;
  }

  lemma ClosedStep(s: State, step: Step)
    requires Inv(s) && Enabled(s, step)
    ensures var s' := Apply(s, step); forall x :: x in s'.closed ==> x < |s'.fetched|
  {
    if step.FinishEvict? {
      assert ClientInv(s, step.c, s.clients[step.c]);
    }
    hide ClientInv;
    if step.CloseAll? {
      forall x | x in s.cache.Values ensures x < |s.fetched| {
        var k :| k in s.cache && s.cache[k] == x;
      }
    }
  }

  /** In every interleaving, what is cached under a key was fetched for that key. */
  lemma {:induction false} CachedWasFetched(run: seq<Step>)
    requires After(run).Some?
    ensures Inv(After(run).value)
    decreases |run|
  {
    hide Enabled, Apply, Inv;
    if run == [] {
      InitInv();
    } else {
      CachedWasFetched(run[..|run| - 1]);
      InvStep(After(run[..|run| - 1]).value, run[|run| - 1]);
    }
  }

  lemma InitInv()
    ensures Inv(INIT)
  {
  }

  // ----- conservation -----

  predicate Cached(s: State, x: nat) {
    x < |s.fetched| && s.fetched[x].key in s.cache && s.cache[s.fetched[x].key] == x
  }

  /** Fetched and not yet inserted. */
  predicate InFlight(s: State, x: nat) {
    && x < |s.fetched| && s.fetched[x].client < |s.clients|
    && s.clients[s.fetched[x].client] == Inserting(s.fetched[x].key, x)
  }

  /** In how many places a snapshotter is. */
  function Places(s: State, x: nat): nat {
    s.closed[x] + (if Cached(s, x) then 1 else 0) + (if InFlight(s, x) then 1 else 0)
  }

  /** Each fetched snapshotter is being inserted, or cached, or was closed once. */
  ghost predicate Conserved(s: State) {
    forall x :: 0 <= x < |s.fetched| ==> Places(s, x) == 1
  }

  /** The two ways overlapping calls get into each other's way: an insertion over an entry that another call has made
      since the miss, and an eviction that no longer finds the snapshotter it looked up. */
  predicate Races(s: State, step: Step) {
    match step
    case Insert(c) => c < |s.clients| && s.clients[c].Inserting? && s.clients[c].key in s.cache
    case FinishEvict(c) =>
      c < |s.clients| && s.clients[c].Closing?
          && !(s.clients[c].key in s.cache && s.cache[s.clients[c].key] == s.clients[c].x)
    case _ => false
  }

  lemma CallConserves(s: State, step: Step)
    requires Inv(s) && Conserved(s) && Enabled(s, step)
    requires step.CallGet? || step.CallEvict? || step.CallClose? || step.Look? || step.FetchReturns?
             || step.FindEvicted? || step.CloseStop?
    ensures Conserved(Apply(s, step))
  {
    var s' := Apply(s, step);
    forall x | 0 <= x < |s'.fetched| ensures Places(s', x) == 1 {
      if x < |s.fetched| {
        assert Places(s, x) == 1;
        assert s'.fetched[x] == s.fetched[x];
        assert InFlight(s', x) <==> InFlight(s, x);
      } else {
        assert x !in s.closed;
        assert InFlight(s', x);
      }
    }
  }

  lemma InsertConserves(s: State, c: nat)
    requires Inv(s) && Conserved(s) && Enabled(s, Insert(c))
    ensures Conserved(Apply(s, Insert(c))) <==> s.clients[c].key !in s.cache
  {
    var s' := Apply(s, Insert(c));
    var Inserting(key, x0) := s.clients[c];
    assert ClientInv(s, c, s.clients[c]);
    assert InFlight(s, x0) && Places(s, x0) == 1;
    if key in s.cache {
      var y := s.cache[key];
      assert FetchedFor(s, y, key) && Cached(s, y) && Places(s, y) == 1;
      assert y != x0;
      assert Places(s', y) == 0;
    } else {
      forall x | 0 <= x < |s'.fetched| ensures Places(s', x) == 1 {
        assert Places(s, x) == 1;
        if x != x0 {
          assert InFlight(s', x) <==> InFlight(s, x);
          assert Cached(s', x) <==> Cached(s, x);
        }
      }
    }
  }

  lemma EvictConserves(s: State, c: nat)
    requires Inv(s) && Conserved(s) && Enabled(s, FinishEvict(c))
    ensures Conserved(Apply(s, FinishEvict(c))) <==>
        s.clients[c].key in s.cache && s.cache[s.clients[c].key] == s.clients[c].x
  {
    var s' := Apply(s, FinishEvict(c));
    var Closing(key, x0) := s.clients[c];
    assert ClientInv(s, c, s.clients[c]);
    if key in s.cache && s.cache[key] == x0 {
      forall x | 0 <= x < |s'.fetched| ensures Places(s', x) == 1 {
        assert Places(s, x) == 1;
        assert InFlight(s', x) <==> InFlight(s, x);
        assert Cached(s', x) <==> Cached(s, x) && x != x0;
      }
    } else {
      assert Places(s, x0) == 1 && !Cached(s, x0);
      assert InFlight(s', x0) <==> InFlight(s, x0);
      assert Places(s', x0) == 2;
    }
  }

  lemma CloseConserves(s: State, c: nat)
    requires Inv(s) && Conserved(s) && Enabled(s, CloseAll(c))
    ensures Conserved(Apply(s, CloseAll(c)))
  {
    var s' := Apply(s, CloseAll(c));
    forall x | 0 <= x < |s'.fetched| ensures Places(s', x) == 1 {
      assert Places(s, x) == 1;
      assert InFlight(s', x) <==> InFlight(s, x);
      assert x in s.cache.Values <==> Cached(s, x) by {
        if x in s.cache.Values {
          var k :| k in s.cache && s.cache[k] == x;
          assert FetchedFor(s, x, k);
        }
      }
    }
  }

  /** A step loses a snapshotter, or closes one twice, exactly when it races. */
  lemma ConservedIffNoRace(s: State, step: Step)
    requires Inv(s) && Conserved(s) && Enabled(s, step)
    ensures Conserved(Apply(s, step)) <==> !Races(s, step)
  {
    hide Conserved, Inv, Apply;
    match step
    case Insert(c) => InsertConserves(s, c);
    case FinishEvict(c) => EvictConserves(s, c);
    case CloseAll(c) => CloseConserves(s, c);
    case _ => CallConserves(s, step);
  }

  ghost predicate NoRaces(run: seq<Step>)
    requires After(run).Some?
    decreases |run|
  {
    run == [] || (NoRaces(run[..|run| - 1]) && !Races(After(run[..|run| - 1]).value, run[|run| - 1]))
  }

  /** The state after the first `k` steps. */
  ghost function Prefix(run: seq<Step>, k: nat): (s: State)
    requires After(run).Some? && k <= |run|
    ensures After(run[..k]) == Some(s)
    decreases |run|
  {
    if k == |run| then assert run[..k] == run; After(run).value
    else
      assert run[..|run| - 1][..k] == run[..k];
      Prefix(run[..|run| - 1], k)
  }

  ghost predicate AlwaysConserved(run: seq<Step>)
    requires After(run).Some?
  {
    forall k :: 0 <= k <= |run| ==> Conserved(Prefix(run, k))
  }

  lemma AlwaysOneMore(run: seq<Step>)
    requires After(run).Some? && run != []
    ensures AlwaysConserved(run) <==> AlwaysConserved(run[..|run| - 1]) && Conserved(After(run).value)
  {
    hide Conserved, Enabled, Apply;
    var init := run[..|run| - 1];
    assert Prefix(run, |run|) == After(run).value;
    if AlwaysConserved(run) {
      forall k | 0 <= k <= |init| ensures Conserved(Prefix(init, k)) {
        assert Conserved(Prefix(run, k));
      }
    }
    if AlwaysConserved(init) && Conserved(After(run).value) {
      forall k | 0 <= k <= |run| ensures Conserved(Prefix(run, k)) {
        assert k < |run| ==> Prefix(run, k) == Prefix(init, k);
      }
    }
  }

  /** Every run, of overlapping calls or not: all along each fetched snapshotter is in exactly one place, if and only if
      no step of the run races. */
  lemma {:induction false} AlwaysConservedIffNoRaces(run: seq<Step>)
    requires After(run).Some?
    ensures AlwaysConserved(run) <==> NoRaces(run)
    decreases |run|
  {
    hide Conserved, Enabled, Apply, Races, Inv;
    if run == [] {
      assert Conserved(INIT) by { NothingFetched(); }
    } else {
      var init := run[..|run| - 1];
      AlwaysConservedIffNoRaces(init);
      AlwaysOneMore(run);
      CachedWasFetched(init);
      if AlwaysConserved(init) {
        assert Conserved(Prefix(init, |init|));
        assert init[..|init|] == init;
        ConservedIffNoRace(After(init).value, run[|run| - 1]);
      }
    }
  }

  lemma NothingFetched()
    ensures Conserved(INIT)
  {
  }

  // ----- calls that do not overlap -----

  predicate Finished(client: Client) {
    client.Got? || client.GetErr? || client.EvictDone? || client.CloseDone?
  }

  ghost predicate Quiet(s: State) {
    forall c :: 0 <= c < |s.clients| ==> Finished(s.clients[c])
  }

  /** A call begins only when all others have returned. */
  ghost predicate NoOverlap(run: seq<Step>)
    decreases |run|
  {
    run == [] ||
    (var init, last := run[..|run| - 1], run[|run| - 1];
     && NoOverlap(init)
     && After(init).Some?
     && (last.CallGet? || last.CallEvict? || last.CallClose? ==> Quiet(After(init).value)))
  }

  /** What the one call in progress has seen is still true. */
  ghost predicate SeenStillTrue(s: State, client: Client) {
    match client
    case Missed(key) => key !in s.cache
    case Fetching(key) => key !in s.cache
    case Inserting(key, _) => key !in s.cache
    case Closing(key, x) => key in s.cache && s.cache[key] == x
    case _ => true
  }

  ghost predicate OneAtATime(s: State) {
    && (forall c, d :: 0 <= c < d < |s.clients| ==> Finished(s.clients[c]) || Finished(s.clients[d]))
    && (forall c :: 0 <= c < |s.clients| ==> SeenStillTrue(s, s.clients[c]))
  }

  /** The one call in progress moves on. */
  lemma MovesAlone(s: State, s': State, c: nat)
    requires OneAtATime(s) && c < |s.clients| == |s'.clients| && !Finished(s.clients[c])
    requires forall d :: 0 <= d < |s.clients| && d != c ==> s'.clients[d] == s.clients[d]
    requires SeenStillTrue(s', s'.clients[c])
    ensures OneAtATime(s')
  {
    assert forall d :: 0 <= d < |s.clients| && d != c ==> Finished(s.clients[d]);
  }

  lemma OneAtATimeStep(s: State, step: Step)
    requires OneAtATime(s) && Enabled(s, step)
    requires step.CallGet? || step.CallEvict? || step.CallClose? ==> Quiet(s)
    ensures OneAtATime(Apply(s, step))
  {
    if step.CallGet? || step.CallEvict? || step.CallClose? {
      CallsAlone(s, step);
    } else {
      assert SeenStillTrue(s, s.clients[step.c]);
      SeenAfter(s, step);
      OthersStay(s, step);
      hide OneAtATime, SeenStillTrue, Enabled, Apply, Finished;
      MovesAlone(s, Apply(s, step), step.c);
    }
  }

  lemma CallsAlone(s: State, step: Step)
    requires OneAtATime(s) && Quiet(s) && Enabled(s, step) && (step.CallGet? || step.CallEvict? || step.CallClose?)
    ensures OneAtATime(Apply(s, step))
  {
  }

  lemma SeenAfter(s: State, step: Step)
    requires Enabled(s, step) && !step.CallGet? && !step.CallEvict? && !step.CallClose?
    requires SeenStillTrue(s, s.clients[step.c])
    ensures var s' := Apply(s, step); step.c < |s'.clients| && SeenStillTrue(s', s'.clients[step.c])
  {
  }

  /** In every run of calls that do not overlap, nothing is lost or closed twice; when no call is in progress, the
      fetched snapshotters are those in the cache and those closed once, and no others. */
  lemma {:induction false} NoOverlapConserves(run: seq<Step>)
    requires NoOverlap(run) && After(run).Some?
    ensures var s := After(run).value;
            && OneAtATime(s) && Conserved(s)
            && (Quiet(s) ==> forall x :: 0 <= x < |s.fetched| ==> s.closed[x] == if Cached(s, x) then 0 else 1)
    decreases |run|
  {
    if run != [] {
      var init, last := run[..|run| - 1], run[|run| - 1];
      var s := After(init).value;
      NoOverlapConserves(init);
      CachedWasFetched(init);
      hide Inv;
      OneAtATimeStep(s, last);
      NoRaceAlone(s, last);
      ConservedIffNoRace(s, last);
    }
    QuietPlaces(After(run).value);
  }

  lemma NoRaceAlone(s: State, step: Step)
    requires OneAtATime(s)
    ensures !Races(s, step)
  {
  }

  lemma QuietPlaces(s: State)
    requires Conserved(s)
    ensures Quiet(s) ==> forall x :: 0 <= x < |s.fetched| ==> s.closed[x] == if Cached(s, x) then 0 else 1
  {
    if Quiet(s) {
      forall x | 0 <= x < |s.fetched| ensures s.closed[x] == if Cached(s, x) then 0 else 1 {
        assert Places(s, x) == 1 && !InFlight(s, x);
      }
    }
  }

  // ----- calls that do overlap -----

  lemma Go(run: seq<Step>, s: State, step: Step) returns (run': seq<Step>, s': State)
    requires After(run) == Some(s) && Enabled(s, step)
    ensures After(run') == Some(s') && s' == Apply(s, step)
  {
    run', s' := run + [step], Apply(s, step);
    assert run'[..|run|] == run;
  }

  /** Two calls that both miss both fetch; the snapshotter inserted first is then neither cached nor ever closed. */
  lemma OverlappingMissesLose(key: string) returns (run: seq<Step>, s: State)
    ensures After(run) == Some(s)
    ensures |s.clients| == 2 && s.clients[0] == Got(0) && s.clients[1] == Got(1)
    ensures |s.fetched| == 2 && Places(s, 0) == 0
  {
    hide After;
    run, s := TwoMisses(key);
    run, s := Go(run, s, FetchReturns(0, true));
    run, s := Go(run, s, FetchReturns(1, true));
    run, s := Go(run, s, Insert(0));
    run, s := Go(run, s, Insert(1));
  }

  lemma TwoMisses(key: string) returns (run: seq<Step>, s: State)
    ensures After(run) == Some(s) && s == INIT.(clients := [Fetching(key), Fetching(key)])
  {
    run, s := [], INIT;
    assert After(run) == Some(s);
    hide After;
    run, s := Go(run, s, CallGet(key));
    run, s := Go(run, s, CallGet(key));
    run, s := Go(run, s, Look(0));
    run, s := Go(run, s, Look(1));
    run, s := Go(run, s, Look(0));
    run, s := Go(run, s, Look(1));
  }

  /** Two evictions that both find a snapshotter both close it. */
  lemma OverlappingEvictionsCloseTwice(key: string) returns (run: seq<Step>, s: State)
    ensures After(run) == Some(s)
    ensures |s.clients| == 3 && s.clients[1] == EvictDone(true) && s.clients[2] == EvictDone(true)
    ensures |s.fetched| == 1 && s.closed[0] == 2 && Places(s, 0) == 2
  {
    run, s := [], INIT;
    assert After(run) == Some(s);
    hide After;
    run, s := Go(run, s, CallGet(key));
    run, s := Go(run, s, Look(0));
    run, s := Go(run, s, Look(0));
    run, s := Go(run, s, FetchReturns(0, true));
    run, s := Go(run, s, Insert(0));
    assert s == INIT.(cache := map[key := 0], fetched := [Fetch(key, 0)], clients := [Got(0)]);
    hide Enabled, Apply;
    run, s := EvictTwice(run, s, key);
  }

  lemma EvictTwice(run: seq<Step>, s: State, key: string) returns (run': seq<Step>, s': State)
    requires After(run) == Some(s) && !s.dead && key in s.cache && |s.clients| == 1
    ensures After(run') == Some(s') && s'.fetched == s.fetched && key !in s'.cache
    ensures s'.closed == s.closed + multiset{s.cache[key], s.cache[key]}
    ensures s'.clients == [s.clients[0], EvictDone(true), EvictDone(true)]
  {
    hide After;
    run', s' := Go(run, s, CallEvict(key));
    run', s' := Go(run', s', CallEvict(key));
    run', s' := Go(run', s', FindEvicted(1));
    run', s' := Go(run', s', FindEvicted(2));
    run', s' := Go(run', s', FinishEvict(1));
    run', s' := Go(run', s', FinishEvict(2));
  }

  // ----- closing twice -----

  ghost predicate Stopped(run: seq<Step>) {
    exists i :: 0 <= i < |run| && run[i].CloseStop?
  }

  lemma StopStep(s: State, step: Step)
    requires Enabled(s, step)
    ensures Apply(s, step).stopped <==> s.stopped || step.CloseStop?
  {
  }

  lemma {:induction false} StoppedIsRemembered(run: seq<Step>)
    requires After(run).Some?
    ensures After(run).value.stopped <==> Stopped(run)
    decreases |run|
  {
    if run != [] {
      var init, last := run[..|run| - 1], run[|run| - 1];
      StoppedIsRemembered(init);
      StopStep(After(init).value, last);
      hide Apply, Enabled;
      if i :| 0 <= i < |init| && init[i].CloseStop? {
        assert run[i].CloseStop?;
      }
      assert forall i :: 0 <= i < |init| ==> init[i] == run[i];
    }
  }

  /** A Close ends the process if and only if another one has come before it, in any interleaving. */
  lemma CloseIsOnce(run: seq<Step>, c: nat)
    requires After(run).Some? && Enabled(After(run).value, CloseStop(c))
    ensures var s' := Apply(After(run).value, CloseStop(c));
            && (s'.dead <==> Stopped(run))
            && (!s'.dead ==> s'.clients[c] == CloseStopped)
  {
    hide After;
    StoppedIsRemembered(run);
  }

  // ----- requests and answers -----

  predicate IsCall(step: Step) {
    step.CallGet? || step.CallEvict? || step.CallClose?
  }

  /** The calls that a run makes, in order: the i-th is that of client i. */
  function Requests(run: seq<Step>): seq<Step>
    decreases |run|
  {
    if run == [] then []
    else Requests(run[..|run| - 1]) + if IsCall(run[|run| - 1]) then [run[|run| - 1]] else []
  }

  /** The step makes the call of client `c` fail: the fetch does, or there is nothing to evict. */
  predicate Fails(s: State, step: Step, c: nat) {
    && Enabled(s, step)
    && match step
       case FetchReturns(d, ok) => d == c && !ok
       case FindEvicted(d) => d == c && s.clients[c].key !in s.cache
       case _ => false
  }

  ghost predicate Failed(run: seq<Step>, c: nat)
    requires After(run).Some?
    decreases |run|
  {
    run != [] && (Failed(run[..|run| - 1], c) || Fails(After(run[..|run| - 1]).value, run[|run| - 1], c))
  }

  predicate HasFailed(client: Client) {
    client == GetErr || client == EvictDone(false)
  }

  /** A Get works with its own key, and the snapshotter it returns was fetched for that key; an Evict works with its own
      key, and the snapshotter it closes was fetched for that key. */
  ghost predicate DoesAsAsked(s: State, client: Client, request: Step) {
    match request
    case CallGet(key) =>
      (match client
       case Getting(k) => k == key
       case Missed(k) => k == key
       case Fetching(k) => k == key
       case Inserting(k, x) => k == key && FetchedFor(s, x, key)
       case Got(x) => FetchedFor(s, x, key)
       case GetErr => true
       case _ => false)
    case CallEvict(key) =>
      (match client
       case Evicting(k) => k == key
       case Closing(k, x) => k == key && FetchedFor(s, x, key)
       case EvictDone(_) => true
       case _ => false)
    case _ => client.CloseCalled? || client.CloseStopped? || client.CloseDone?
  }

  ghost predicate Answers(s: State, c: nat, request: Step, failed: bool)
    requires c < |s.clients|
  {
    DoesAsAsked(s, s.clients[c], request) && (HasFailed(s.clients[c]) <==> failed)
  }

  lemma AnswersStay(s: State, s': State, c: nat, request: Step, failed: bool)
    requires c < |s.clients| && Answers(s, c, request, failed)
    requires c < |s'.clients| && s'.clients[c] == s.clients[c] && s.fetched <= s'.fetched
    ensures Answers(s', c, request, failed)
  {
  }

  lemma OwnAnswers(s: State, step: Step, request: Step, failed: bool)
    requires Inv(s) && Enabled(s, step) && !IsCall(step) && Answers(s, step.c, request, failed)
    ensures var s' := Apply(s, step);
            step.c < |s'.clients| && Answers(s', step.c, request, failed || Fails(s, step, step.c))
  {
    hide ClientInv, Inv, Enabled, Apply, Answers, Fails, FetchedFor;
    match step
    case Look(c) => GetAnswers(s, step, request, failed);
    case FetchReturns(c, _) => GetAnswers(s, step, request, failed);
    case Insert(c) => GetAnswers(s, step, request, failed);
    case FindEvicted(c) => EvictAnswers(s, step, request, failed);
    case FinishEvict(c) => EvictAnswers(s, step, request, failed);
    case _ => CloseAnswers(s, step, request, failed);
  }

  lemma GetAnswers(s: State, step: Step, request: Step, failed: bool)
    requires Inv(s) && Enabled(s, step) && (step.Look? || step.FetchReturns? || step.Insert?)
    requires Answers(s, step.c, request, failed)
    ensures var s' := Apply(s, step);
            step.c < |s'.clients| && Answers(s', step.c, request, failed || Fails(s, step, step.c))
  {
    assert request.CallGet?;
    hide ClientInv;
  }

  lemma EvictAnswers(s: State, step: Step, request: Step, failed: bool)
    requires Inv(s) && Enabled(s, step) && (step.FindEvicted? || step.FinishEvict?)
    requires Answers(s, step.c, request, failed)
    ensures var s' := Apply(s, step);
            step.c < |s'.clients| && Answers(s', step.c, request, failed || Fails(s, step, step.c))
  {
    assert request.CallEvict?;
    hide ClientInv;
  }

  lemma CloseAnswers(s: State, step: Step, request: Step, failed: bool)
    requires Enabled(s, step) && (step.CloseStop? || step.CloseAll?) && Answers(s, step.c, request, failed)
    ensures var s' := Apply(s, step);
            step.c < |s'.clients| && Answers(s', step.c, request, failed || Fails(s, step, step.c))
  {
  }

  lemma CallAnswers(s: State, step: Step)
    requires Enabled(s, step) && IsCall(step)
    ensures var s', c := Apply(s, step), |s.clients|; |s'.clients| == c + 1 && Answers(s', c, step, false)
  {
  }

  lemma FailsByItself(s: State, step: Step, c: nat)
    requires Fails(s, step, c)
    ensures !IsCall(step) && step.c == c < |s.clients|
  {
  }

  lemma {:induction false} RunAnswers(run: seq<Step>, c: nat)
    requires After(run).Some?
    ensures |Requests(run)| == |After(run).value.clients|
    ensures if c < |Requests(run)| then Answers(After(run).value, c, Requests(run)[c], Failed(run, c))
            else !Failed(run, c)
    decreases |run|
  {
    if run != [] {
      hide Enabled, Apply, Inv, Answers, Fails;
      var init, last := run[..|run| - 1], run[|run| - 1];
      var s := After(init).value;
      CachedWasFetched(init);
      RunAnswers(init, c);
      OthersStay(s, last);
      if Fails(s, last, c) {
        FailsByItself(s, last, c);
      }
      if c < |s.clients| {
        if !IsCall(last) && last.c == c {
          OwnAnswers(s, last, Requests(init)[c], Failed(init, c));
        } else {
          AnswersStay(s, Apply(s, last), c, Requests(init)[c], Failed(init, c));
        }
      } else if IsCall(last) {
        CallAnswers(s, last);
      }
    }
  }

  /** In every interleaving a Get that returns a snapshotter returns one that was fetched for its own key, and it fails
      if and only if its fetch did; an Evict closes only what was fetched for its own key, and it finds nothing if and
      only if the key was absent when it looked. */
  lemma AnswersAreExact(run: seq<Step>, c: nat)
    requires After(run).Some? && c < |After(run).value.clients|
    ensures c < |Requests(run)| && DoesAsAsked(After(run).value, After(run).value.clients[c], Requests(run)[c])
    ensures HasFailed(After(run).value.clients[c]) <==> Failed(run, c)
  {
    hide After, DoesAsAsked, Failed;
    RunAnswers(run, c);
  }
}
