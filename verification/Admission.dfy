/** Capacity admission: accounts with requests in flight, grouped into limited pools.
  *
  * Occupancy is counted per account and survives publication, so renaming or moving an
  * account between pools carries its running work along.
  */
module Admission {
  import opened Prelude
  import Decimal

  datatype Account = Account(pool: Option<string>, inFlight: nat)

  datatype Counters = Counters(limits: map<string, nat>, accounts: map<string, Account>)

  datatype PoolLimit = PoolLimit(id: string, maxInFlight: nat)
  datatype Credential = Credential(id: string, pool: Option<string>)
  datatype Backend = Backend(id: string, credentials: seq<Credential>)
  datatype Config = Config(pools: seq<PoolLimit>, backends: seq<Backend>)

  /** Both parts of an account key carry their length, so neither can imitate the other. */
  function AccountKey(backend: string, credential: string): string {
    Decimal.Render(|backend|) + ":" + backend + Decimal.Render(|credential|) + ":" + credential
  }

  lemma DigitsBeforeColon(m: nat, s: string, n: nat, t: string)
    requires Decimal.Render(m) + ":" + s == Decimal.Render(n) + ":" + t
    ensures m == n && s == t
  {
    var a, b := Decimal.Render(m), Decimal.Render(n);
    var left, right := a + ":" + s, b + ":" + t;
    assert left[|a|] == ':' && right[|b|] == ':';
    assert |a| == |b|;
    assert left[..|a|] == a && right[..|b|] == b;
    assert left[|a| + 1..] == s && right[|b| + 1..] == t;
    Decimal.RenderInjective(m, n);
  }

  lemma AccountKeySplits(backend: string, credential: string)
    ensures AccountKey(backend, credential)
            == Decimal.Render(|backend|) + ":" + (backend + (Decimal.Render(|credential|) + ":" + credential))
  {
    var a, b := Decimal.Render(|backend|) + ":", Decimal.Render(|credential|);
    assert AccountKey(backend, credential) == a + backend + b + ":" + credential;
    hide *;
    Associates(a + backend, b, ":");
    Associates(a + backend, b + ":", credential);
    Associates(a, backend, b + ":" + credential);
  }

  lemma SameLengthFronts(a: string, s: string, b: string, t: string)
    requires |a| == |b| && a + s == b + t
    ensures a == b && s == t
  {
    assert (a + s)[..|a|] == a && (b + t)[..|b|] == b;
    assert (a + s)[|a|..] == s && (b + t)[|b|..] == t;
  }

  /** Two credentials share an account key only when they are the same credential of the
    * same backend. */
  lemma AccountKeyInjective(b1: string, c1: string, b2: string, c2: string)
    requires AccountKey(b1, c1) == AccountKey(b2, c2)
    ensures b1 == b2 && c1 == c2
  {
    AccountKeySplits(b1, c1);
    AccountKeySplits(b2, c2);
    hide AccountKey, Decimal.Render;
    var r1, r2 := Decimal.Render(|c1|) + ":" + c1, Decimal.Render(|c2|) + ":" + c2;
    DigitsBeforeColon(|b1|, b1 + r1, |b2|, b2 + r2);
    SameLengthFronts(b1, r1, b2, r2);
    DigitsBeforeColon(|c1|, c1, |c2|, c2);
  }

  // ---------------------------------------------------------------- occupancy

  function Weight(a: Account, pool: string): nat { if a.pool == Some(pool) then a.inFlight else 0 }

  ghost function SumOver(accounts: map<string, Account>, keys: set<string>, pool: string): nat
    requires keys <= accounts.Keys
  {
    if keys == {} then 0
    else
      var k :| k in keys;
      Weight(accounts[k], pool) + SumOver(accounts, keys - {k}, pool)
  }

  ghost function Occupied(accounts: map<string, Account>, pool: string): nat {
    SumOver(accounts, accounts.Keys, pool)
  }

  lemma {:induction false} SumTakes(accounts: map<string, Account>, keys: set<string>, pool: string, k: string)
    requires k in keys && keys <= accounts.Keys
    ensures SumOver(accounts, keys, pool) == Weight(accounts[k], pool) + SumOver(accounts, keys - {k}, pool)
    decreases keys
  {
    var j :| j in keys && SumOver(accounts, keys, pool)
                          == Weight(accounts[j], pool) + SumOver(accounts, keys - {j}, pool);
    if j != k {
      SumTakes(accounts, keys - {j}, pool, k);
      SumTakes(accounts, keys - {k}, pool, j);
      assert keys - {j} - {k} == keys - {k} - {j};
    }
  }

  lemma {:induction false} SumAgrees(a: map<string, Account>, b: map<string, Account>, keys: set<string>, pool: string)
    requires keys <= a.Keys && keys <= b.Keys
    requires forall k :: k in keys ==> Weight(a[k], pool) == Weight(b[k], pool)
    ensures SumOver(a, keys, pool) == SumOver(b, keys, pool)
    decreases keys
  {
    if keys != {} {
      var k :| k in keys;
      SumTakes(a, keys, pool, k);
      SumTakes(b, keys, pool, k);
      SumAgrees(a, b, keys - {k}, pool);
    }
  }

  /** Writing one account moves each pool's occupancy by exactly that account's share. */
  lemma OccupiedUpdates(accounts: map<string, Account>, key: string, a: Account, pool: string)
    ensures Occupied(accounts[key := a], pool) + (if key in accounts then Weight(accounts[key], pool) else 0)
            == Occupied(accounts, pool) + Weight(a, pool)
  {
    var updated := accounts[key := a];
    var others := accounts.Keys - {key};
    SumTakes(updated, updated.Keys, pool, key);
    assert updated.Keys - {key} == others;
    SumAgrees(accounts, updated, others, pool);
    if key in accounts {
      SumTakes(accounts, accounts.Keys, pool, key);
    } else {
      assert accounts.Keys == others;
    }
  }

  // ---------------------------------------------------------------- atomic steps

  function WithLimits(limits: map<string, nat>, pools: seq<PoolLimit>): map<string, nat> {
    if pools == [] then limits
    else WithLimits(limits, pools[..|pools| - 1])[pools[|pools| - 1].id := pools[|pools| - 1].maxInFlight]
  }

  function Assigned(accounts: map<string, Account>, key: string, pool: Option<string>): map<string, Account> {
    accounts[key := Account(pool, if key in accounts then accounts[key].inFlight else 0)]
  }

  function WithCredentials(accounts: map<string, Account>, backend: string, credentials: seq<Credential>)
    : map<string, Account>
  {
    if credentials == [] then accounts
    else
      var c := credentials[|credentials| - 1];
      Assigned(WithCredentials(accounts, backend, credentials[..|credentials| - 1]), AccountKey(backend, c.id), c.pool)
  }

  function WithBackends(accounts: map<string, Account>, backends: seq<Backend>): map<string, Account> {
    if backends == [] then accounts
    else
      var b := backends[|backends| - 1];
      WithCredentials(WithBackends(accounts, backends[..|backends| - 1]), b.id, b.credentials)
  }

  function Published(c: Counters, config: Config): Counters {
    Counters(WithLimits(c.limits, config.pools), WithBackends(c.accounts, config.backends))
  }

  /** The pool an attempt counts against: the account's own once it is known, else the
    * caller's. */
  function PoolOf(c: Counters, key: string, pool: Option<string>): Option<string> {
    if key in c.accounts then c.accounts[key].pool else pool
  }

  ghost predicate Admits(c: Counters, key: string, pool: Option<string>) {
    var p := PoolOf(c, key, pool);
    p.Some? ==> p.value in c.limits && Occupied(c.accounts, p.value) < c.limits[p.value]
  }

  function Taken(c: Counters, key: string, pool: Option<string>): Counters {
    var a := if key in c.accounts then c.accounts[key] else Account(pool, 0);
    c.(accounts := c.accounts[key := a.(inFlight := a.inFlight + 1)])
  }

  function Released(c: Counters, key: string): Counters
    requires key in c.accounts && c.accounts[key].inFlight > 0
  {
    c.(accounts := c.accounts[key := c.accounts[key].(inFlight := c.accounts[key].inFlight - 1)])
  }

  predicate DistinctIds(config: Config) {
    && (forall i, j :: 0 <= i < j < |config.pools| ==> config.pools[i].id != config.pools[j].id)
    && (forall i, j :: 0 <= i < j < |config.backends| ==> config.backends[i].id != config.backends[j].id)
    && forall b :: b in config.backends ==> DistinctCredentials(b.credentials)
  }

  predicate DistinctCredentials(credentials: seq<Credential>) {
    forall i, j :: 0 <= i < j < |credentials| ==> credentials[i].id != credentials[j].id
  }

  lemma {:induction false} LimitInstalled(limits: map<string, nat>, pools: seq<PoolLimit>, i: nat)
    requires i < |pools| && forall a, b :: 0 <= a < b < |pools| ==> pools[a].id != pools[b].id
    ensures pools[i].id in WithLimits(limits, pools) && WithLimits(limits, pools)[pools[i].id] == pools[i].maxInFlight
  {
    if i < |pools| - 1 {
      LimitInstalled(limits, pools[..|pools| - 1], i);
    }
  }

  lemma {:induction false} CredentialInstalled(accounts: map<string, Account>, backend: string,
                                               credentials: seq<Credential>, j: nat)
    requires j < |credentials| && DistinctCredentials(credentials)
    ensures var key := AccountKey(backend, credentials[j].id);
            key in WithCredentials(accounts, backend, credentials)
            && WithCredentials(accounts, backend, credentials)[key].pool == credentials[j].pool
  {
    hide AccountKey;
    var last := |credentials| - 1;
    if j < last {
      CredentialInstalled(accounts, backend, credentials[..last], j);
      if AccountKey(backend, credentials[j].id) == AccountKey(backend, credentials[last].id) {
        AccountKeyInjective(backend, credentials[j].id, backend, credentials[last].id);
      }
    }
  }

  lemma {:induction false} CredentialsLeaveOthers(accounts: map<string, Account>, backend: string,
                                                  credentials: seq<Credential>,
                                                  other: string, id: string)
    requires backend != other && AccountKey(other, id) in accounts
    ensures var key := AccountKey(other, id);
            key in WithCredentials(accounts, backend, credentials)
            && WithCredentials(accounts, backend, credentials)[key] == accounts[key]
  {
    hide AccountKey;
    if credentials != [] {
      var last := |credentials| - 1;
      CredentialsLeaveOthers(accounts, backend, credentials[..last], other, id);
      if AccountKey(backend, credentials[last].id) == AccountKey(other, id) {
        AccountKeyInjective(backend, credentials[last].id, other, id);
      }
    }
  }

  lemma {:induction false} AccountInstalled(accounts: map<string, Account>, backends: seq<Backend>, i: nat, j: nat)
    requires i < |backends| && j < |backends[i].credentials|
    requires forall a, b :: 0 <= a < b < |backends| ==> backends[a].id != backends[b].id
    requires forall b :: b in backends ==> DistinctCredentials(b.credentials)
    ensures var key := AccountKey(backends[i].id, backends[i].credentials[j].id);
            key in WithBackends(accounts, backends)
            && WithBackends(accounts, backends)[key].pool == backends[i].credentials[j].pool
  {
    hide AccountKey, WithCredentials, DistinctCredentials;
    var last := |backends| - 1;
    var earlier := WithBackends(accounts, backends[..last]);
    if i == last {
      CredentialInstalled(earlier, backends[i].id, backends[i].credentials, j);
    } else {
      AccountInstalled(accounts, backends[..last], i, j);
      CredentialsLeaveOthers(earlier, backends[last].id, backends[last].credentials,
                             backends[i].id, backends[i].credentials[j].id);
    }
  }

  /** After a publication every configured pool has its configured limit and every configured
    * credential counts against its configured pool, whatever they were before. */
  lemma PublishInstalls(c: Counters, config: Config, i: nat, j: nat, k: nat)
    requires DistinctIds(config) && k < |config.pools|
    requires i < |config.backends| && j < |config.backends[i].credentials|
    ensures var key := AccountKey(config.backends[i].id, config.backends[i].credentials[j].id);
            var next := Published(c, config);
            && key in next.accounts && next.accounts[key].pool == config.backends[i].credentials[j].pool
            && config.pools[k].id in next.limits && next.limits[config.pools[k].id] == config.pools[k].maxInFlight
  {
    hide AccountKey;
    AccountInstalled(c.accounts, config.backends, i, j);
    LimitInstalled(c.limits, config.pools, k);
  }

  class Gate {
    var limits: map<string, nat>
    var accounts: map<string, Account>

    function State(): Counters
      reads this
    {
      Counters(limits, accounts)
    }

    constructor ()
      ensures State() == Counters(map[], map[])
    {
      limits, accounts := map[], map[];
    }

    /** The running work of a pool, summed over the accounts in whatever order they are kept. */
    method OccupiedBy(pool: string) returns (total: nat)
      ensures total == Occupied(accounts, pool)
    {
      total := 0;
      var rest := accounts.Keys;
      while rest != {}
        invariant rest <= accounts.Keys
        invariant total + SumOver(accounts, rest, pool) == Occupied(accounts, pool)
        decreases rest
      {
        var k :| k in rest;
        SumTakes(accounts, rest, pool, k);
        if accounts[k].pool == Some(pool) {
          total := total + accounts[k].inFlight;
        }
        rest := rest - {k};
      }
    }

    method PublishConfig(config: Config)
      modifies this
      ensures State() == Published(old(State()), config)
    {
      hide AccountKey;
      var i := 0;
      while i < |config.pools|
        invariant 0 <= i <= |config.pools|
        invariant limits == WithLimits(old(limits), config.pools[..i]) && accounts == old(accounts)
      {
        limits := limits[config.pools[i].id := config.pools[i].maxInFlight];
        assert config.pools[..i + 1][..i] == config.pools[..i];
        i := i + 1;
      }
      assert config.pools[..i] == config.pools;
      i := 0;
      while i < |config.backends|
        invariant 0 <= i <= |config.backends|
        invariant limits == WithLimits(old(limits), config.pools)
        invariant accounts == WithBackends(old(accounts), config.backends[..i])
      {
        var backend := config.backends[i];
        ghost var before := accounts;
        var j := 0;
        while j < |backend.credentials|
          invariant 0 <= j <= |backend.credentials|
          invariant limits == WithLimits(old(limits), config.pools)
          invariant accounts == WithCredentials(before, backend.id, backend.credentials[..j])
        {
          var credential := backend.credentials[j];
          var key := AccountKey(backend.id, credential.id);
          if key !in accounts {
            accounts := accounts[key := Account(None, 0)];
          }
          accounts := accounts[key := accounts[key].(pool := credential.pool)];
          assert backend.credentials[..j + 1][..j] == backend.credentials[..j];
          j := j + 1;
        }
        assert backend.credentials[..j] == backend.credentials;
        assert config.backends[..i + 1][..i] == config.backends[..i];
        i := i + 1;
      }
      assert config.backends[..i] == config.backends;
    }

    method AcquireAccount(key: string, pool: Option<string>) returns (admitted: bool)
      modifies this
      ensures admitted <==> old(Admits(State(), key, pool))
      ensures State() == if admitted then Taken(old(State()), key, pool) else old(State())
    {
      var own := if key in accounts then accounts[key].pool else pool;
      if own.Some? {
        if own.value !in limits { return false; }
        var occupied := OccupiedBy(own.value);
        if occupied >= limits[own.value] { return false; }
      }
      if key !in accounts {
        accounts := accounts[key := Account(own, 0)];
      }
      accounts := accounts[key := accounts[key].(inFlight := accounts[key].inFlight + 1)];
      return true;
    }

    method DropLease(key: string)
      requires key in accounts && accounts[key].inFlight > 0
      modifies this
      ensures State() == Released(old(State()), key)
    {
      accounts := accounts[key := accounts[key].(inFlight := accounts[key].inFlight - 1)];
    }
  }

  // ---------------------------------------------------------------- runs

  datatype Step =
    | Publish(config: Config)
    | Acquire(key: string, pool: Option<string>)
    | Release(key: string)

  /** The counters, the leases handed out and not dropped yet, and the counters as the last
    * publication left them. */
  datatype System = System(counters: Counters, leases: multiset<string>, published: Counters)

  predicate Enabled(sys: System, step: Step) { step.Release? ==> step.key in sys.leases }

  function InFlight(accounts: map<string, Account>, key: string): nat {
    if key in accounts then accounts[key].inFlight else 0
  }

  /** Every account counts exactly its outstanding leases. */
  ghost predicate Counted(sys: System) {
    forall key: string {:trigger sys.leases[key]} :: sys.leases[key] == InFlight(sys.counters.accounts, key)
  }

  /** No pool has grown past its limit, or past what it held when its limit was published. */
  ghost predicate WithinLimits(sys: System) {
    && sys.counters.limits == sys.published.limits
    && forall pool: string {:trigger Occupied(sys.counters.accounts, pool)} ::
         Occupied(sys.counters.accounts, pool)
         <= Max(if pool in sys.counters.limits then sys.counters.limits[pool] else 0,
                Occupied(sys.published.accounts, pool))
  }

  ghost function Next(sys: System, step: Step): System
    requires Enabled(sys, step) && Counted(sys)
  {
    match step
    case Publish(config) =>
      var c := Published(sys.counters, config);
      System(c, sys.leases, c)
    case Acquire(key, pool) =>
      if Admits(sys.counters, key, pool)
      then sys.(counters := Taken(sys.counters, key, pool), leases := sys.leases + multiset{key})
      else sys
    case Release(key) =>
      assert sys.leases[key] > 0;
      sys.(counters := Released(sys.counters, key), leases := sys.leases - multiset{key})
  }

  lemma {:induction false} CredentialsKeepCounts(accounts: map<string, Account>, backend: string,
                                                 credentials: seq<Credential>)
    ensures forall key :: InFlight(WithCredentials(accounts, backend, credentials), key) == InFlight(accounts, key)
  {
    if credentials != [] {
      CredentialsKeepCounts(accounts, backend, credentials[..|credentials| - 1]);
    }
  }

  /** Publishing a configuration renames, moves and adds accounts without touching their
    * running work. */
  lemma {:induction false} PublishKeepsCounts(accounts: map<string, Account>, backends: seq<Backend>)
    ensures forall key :: InFlight(WithBackends(accounts, backends), key) == InFlight(accounts, key)
  {
    if backends != [] {
      var b := backends[|backends| - 1];
      PublishKeepsCounts(accounts, backends[..|backends| - 1]);
      CredentialsKeepCounts(WithBackends(accounts, backends[..|backends| - 1]), b.id, b.credentials);
    }
  }

  lemma AcquireKeeps(sys: System, key: string, pool: Option<string>)
    requires Counted(sys) && WithinLimits(sys)
    ensures WithinLimits(Next(sys, Acquire(key, pool)))
  {
    if Admits(sys.counters, key, pool) {
      var next := Taken(sys.counters, key, pool);
      forall p: string
        ensures Occupied(next.accounts, p)
                <= Max(if p in next.limits then next.limits[p] else 0, Occupied(sys.published.accounts, p))
      {
        OccupiedUpdates(sys.counters.accounts, key, next.accounts[key], p);
      }
    }
  }

  lemma ReleaseKeeps(sys: System, key: string)
    requires Counted(sys) && WithinLimits(sys) && key in sys.leases
    ensures WithinLimits(Next(sys, Release(key)))
  {
    assert sys.leases[key] > 0;
    var next := Released(sys.counters, key);
    forall p: string
      ensures Occupied(next.accounts, p)
              <= Max(if p in next.limits then next.limits[p] else 0, Occupied(sys.published.accounts, p))
    {
      OccupiedUpdates(sys.counters.accounts, key, next.accounts[key], p);
    }
  }

  lemma StepKeeps(sys: System, step: Step)
    requires Counted(sys) && WithinLimits(sys) && Enabled(sys, step)
    ensures Counted(Next(sys, step)) && WithinLimits(Next(sys, step))
  {
    match step
    case Publish(config) => PublishKeepsCounts(sys.counters.accounts, config.backends);
    case Acquire(key, pool) => AcquireKeeps(sys, key, pool);
    case Release(key) =>
      assert sys.leases[key] > 0;
      ReleaseKeeps(sys, key);
  }

  ghost predicate IsRun(states: seq<System>, steps: seq<Step>) {
    && |states| == |steps| + 1
    && states[0] == System(Counters(map[], map[]), multiset{}, Counters(map[], map[]))
    && forall i :: 0 <= i < |steps| ==>
         Enabled(states[i], steps[i]) && (Counted(states[i]) ==> states[i + 1] == Next(states[i], steps[i]))
  }

  /** Over every interleaving of publications, acquisitions and drops, each account's count is
    * its number of outstanding leases, so no drop underflows, and no pool outgrows its limit. */
  lemma {:induction false} RunsStayCounted(states: seq<System>, steps: seq<Step>, i: nat)
    requires IsRun(states, steps) && i < |states|
    ensures Counted(states[i]) && WithinLimits(states[i])
    ensures forall key :: key in states[i].leases ==>
              key in states[i].counters.accounts && states[i].counters.accounts[key].inFlight > 0
  {
    if i > 0 {
      RunsStayCounted(states, steps, i - 1);
      StepKeeps(states[i - 1], steps[i - 1]);
    }
    forall key | key in states[i].leases
      ensures key in states[i].counters.accounts && states[i].counters.accounts[key].inFlight > 0
    {
      assert states[i].leases[key] > 0;
    }
  }

  /** An admission takes one place in the pool of the account, which is its own once it is known and
    * the caller's before, and none elsewhere. Accounts without a pool are always admitted. */
  lemma AcquireTakesAPlace(sys: System, key: string, pool: Option<string>, other: string)
    requires Counted(sys) && Admits(sys.counters, key, pool)
    ensures var (was, now) := (sys.counters.accounts, Next(sys, Acquire(key, pool)).counters.accounts);
            var own := if key in was then was[key].pool else pool;
            && Occupied(now, other) == Occupied(was, other) + (if own == Some(other) then 1 else 0)
            && key in now && now[key].pool == own
            && (forall k :: k != key ==> (k in now <==> k in was) && (k in was ==> now[k] == was[k]))
  {
    var next := Taken(sys.counters, key, pool);
    OccupiedUpdates(sys.counters.accounts, key, next.accounts[key], other);
  }

  lemma UnpooledIsAdmitted(c: Counters, key: string, pool: Option<string>)
    requires if key in c.accounts then c.accounts[key].pool == None else pool == None
    ensures Admits(c, key, pool)
  {
  }

  /** A drop gives that place back. */
  lemma ReleaseGivesItBack(sys: System, key: string, other: string)
    requires Counted(sys) && key in sys.leases
    ensures key in sys.counters.accounts
    ensures var (was, now) := (sys.counters.accounts, Next(sys, Release(key)).counters.accounts);
            && Occupied(now, other) + (if was[key].pool == Some(other) then 1 else 0) == Occupied(was, other)
            && now.Keys == was.Keys && now[key].pool == was[key].pool
            && (forall k :: k in was && k != key ==> now[k] == was[k])
  {
    assert sys.leases[key] > 0;
    var next := Released(sys.counters, key);
    OccupiedUpdates(sys.counters.accounts, key, next.accounts[key], other);
  }

  predicate Configures(backends: seq<Backend>, key: string) {
    exists i, j :: 0 <= i < |backends| && 0 <= j < |backends[i].credentials|
                   && key == AccountKey(backends[i].id, backends[i].credentials[j].id)
  }

  lemma {:induction false} CredentialsLeaveRest(accounts: map<string, Account>, backend: string,
                                                credentials: seq<Credential>, key: string)
    requires forall j :: 0 <= j < |credentials| ==> key != AccountKey(backend, credentials[j].id)
    ensures var now := WithCredentials(accounts, backend, credentials);
            (key in now <==> key in accounts) && (key in accounts ==> now[key] == accounts[key])
  {
    hide AccountKey;
    if credentials != [] {
      CredentialsLeaveRest(accounts, backend, credentials[..|credentials| - 1], key);
    }
  }

  lemma {:induction false} BackendsLeaveRest(accounts: map<string, Account>, backends: seq<Backend>, key: string)
    requires !Configures(backends, key)
    ensures var now := WithBackends(accounts, backends);
            (key in now <==> key in accounts) && (key in accounts ==> now[key] == accounts[key])
  {
    hide AccountKey;
    if backends != [] {
      var (front, last) := (backends[..|backends| - 1], backends[|backends| - 1]);
      forall i, j | 0 <= i < |front| && 0 <= j < |front[i].credentials|
        ensures key != AccountKey(front[i].id, front[i].credentials[j].id)
      {
        assert front[i] == backends[i];
      }
      BackendsLeaveRest(accounts, front, key);
      forall j | 0 <= j < |last.credentials|
        ensures key != AccountKey(last.id, last.credentials[j].id)
      {
        assert backends[|backends| - 1].credentials[j] == last.credentials[j];
      }
      CredentialsLeaveRest(WithBackends(accounts, front), last.id, last.credentials, key);
    }
  }

  lemma {:induction false} OtherLimitsStay(limits: map<string, nat>, pools: seq<PoolLimit>, pool: string)
    requires forall k :: 0 <= k < |pools| ==> pools[k].id != pool
    ensures var now := WithLimits(limits, pools);
            (pool in now <==> pool in limits) && (pool in limits ==> now[pool] == limits[pool])
  {
    if pools != [] {
      OtherLimitsStay(limits, pools[..|pools| - 1], pool);
    }
  }

  /** A publication leaves alone the limits and accounts that it does not mention. */
  lemma PublishLeavesOthers(c: Counters, config: Config, key: string, pool: string)
    requires !Configures(config.backends, key) && forall k :: 0 <= k < |config.pools| ==> config.pools[k].id != pool
    ensures var next := Published(c, config);
            && (key in next.accounts <==> key in c.accounts)
            && (key in c.accounts ==> next.accounts[key] == c.accounts[key])
            && (pool in next.limits <==> pool in c.limits)
            && (pool in c.limits ==> next.limits[pool] == c.limits[pool])
  {
    hide Configures, AccountKey;
    BackendsLeaveRest(c.accounts, config.backends, key);
    OtherLimitsStay(c.limits, config.pools, pool);
  }

  /** A lease dropped from a pool that is not over its limit frees a place at once. */
  lemma ReleaseFreesAPlace(sys: System, key: string, other: string, pool: string)
    requires Counted(sys) && key in sys.leases && key in sys.counters.accounts
    requires sys.counters.accounts[key].pool == Some(pool)
    requires pool in sys.counters.limits && Occupied(sys.counters.accounts, pool) <= sys.counters.limits[pool]
    requires PoolOf(sys.counters, other, Some(pool)) == Some(pool)
    ensures Admits(Next(sys, Release(key)).counters, other, Some(pool))
  {
    assert sys.leases[key] > 0;
    var next := Released(sys.counters, key);
    OccupiedUpdates(sys.counters.accounts, key, next.accounts[key], pool);
  }
}
