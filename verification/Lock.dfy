/** The Redis lock: SET NX with a time to live, released by deleting the key. Many processes, one key. */
module Lock {
  import opened Basics

  /** What Redis does with a request: answers, is not reachable at all, or raises. */
  datatype Redis = Up | Down | Failing

  /** A process inside the `async with` block. The first three run the protected section. */
  datatype Client =
    | Holding(until: nat)  // the key was set for it, to expire at `until`
    | Unlocked             // Redis was not reachable: goes ahead without a lock
    | Errored              // Redis raised: goes ahead, and will delete the key on exit
    | Turned               // somebody else holds the key
  {
    predicate Inside() { !Turned? }
    predicate Deletes() { Holding? || Errored? }
  }

  /** SET NX EX: succeeds unless a key is present that has not expired. */
  predicate Live(now: nat, expires: Option<nat>) { expires.Some? && now < expires.value }

  function Entered(now: nat, expires: Option<nat>, ttl: nat, redis: Redis): (Client, Option<nat>) {
    match redis
    case Down => (Unlocked, expires)
    case Failing => (Errored, expires)
    case Up =>
      if ttl == 0 then (Errored, expires)  // Redis refuses a lease of no length
      else if Live(now, expires) then (Turned, expires) else (Holding(now + ttl), Some(now + ttl))
  }

  function Exited(client: Client, expires: Option<nat>, redis: Redis): Option<nat> {
    if client.Deletes() && redis.Up? then None else expires
  }

  datatype World = World(now: nat, expires: Option<nat>, clients: map<nat, Client>)

  datatype Event = Enter(p: nat, ttl: nat, redis: Redis) | Exit(p: nat, redis: Redis) | Tick(dt: nat)

  function Step(w: World, e: Event): World {
    match e
    case Enter(p, ttl, redis) =>
      if p in w.clients then w else
      var (client, expires) := Entered(w.now, w.expires, ttl, redis);
      w.(clients := w.clients[p := client], expires := expires)
    case Exit(p, redis) =>
      if p !in w.clients then w else
      w.(clients := w.clients - {p}, expires := Exited(w.clients[p], w.expires, redis))
    case Tick(dt) => w.(now := w.now + dt)
  }

  function Run(w: World, es: seq<Event>): World {
    if |es| == 0 then w else Step(Run(w, es[..|es| - 1]), es[|es| - 1])
  }

  /** Entering in plain terms: with Redis up and a lease of some length the process gets the key, for that long,
      unless there is one that has not expired, and is turned away otherwise; with Redis away or raising, or for
      no length, it goes ahead without one. Only a process that is not inside yet can enter. */
  lemma EnterSpelled(w: World, p: nat, ttl: nat, redis: Redis)
    ensures var w' := Step(w, Enter(p, ttl, redis));
            var taken := exists until :: w.expires == Some(until) && w.now < until;
            if p in w.clients then w' == w else
            && w'.now == w.now && w'.clients.Keys == w.clients.Keys + {p}
            && (forall q :: q in w.clients ==> w'.clients[q] == w.clients[q])
            && (redis == Down ==> w'.clients[p] == Unlocked && w'.expires == w.expires)
            && (redis == Failing || (redis == Up && ttl == 0) ==>
                  w'.clients[p] == Errored && w'.expires == w.expires)
            && (redis == Up && ttl > 0 && taken ==> w'.clients[p] == Turned && w'.expires == w.expires)
            && (redis == Up && ttl > 0 && !taken ==>
                  w'.clients[p] == Holding(w.now + ttl) && w'.expires == Some(w.now + ttl))
  {}

  /** Leaving in plain terms: the key goes, whoever set it, if Redis is up and the process had set a key or had
      entered on an error. */
  lemma ExitSpelled(w: World, p: nat, redis: Redis)
    ensures var w' := Step(w, Exit(p, redis));
            if p !in w.clients then w' == w else
            && w'.now == w.now && w'.clients == w.clients - {p}
            && w'.expires == if redis == Up && w.clients[p] != Turned && w.clients[p] != Unlocked
                             then None else w.expires
  {}

  /** Only holders and turned-away processes; at most one holder; the key is there, unexpired and set
      by that holder, exactly while there is one. */
  ghost predicate Safe(w: World) {
    && (forall p :: p in w.clients ==> w.clients[p].Holding? || w.clients[p].Turned?)
    && (forall p, q :: p in w.clients && q in w.clients && w.clients[p].Holding? && w.clients[q].Holding? ==> p == q)
    && (forall p :: p in w.clients && w.clients[p].Holding? ==>
          w.expires == Some(w.clients[p].until) && w.now < w.clients[p].until)
    && (w.expires.Some? ==> exists p :: p in w.clients && w.clients[p].Holding?)
  }

  /** The steps a careful deployment rules out: entering while Redis is away or raising, a lease of no
      length, overstaying the lease, and a holder whose delete is lost. */
  predicate Careless(w: World, e: Event) {
    match e
    case Enter(p, ttl, redis) => p !in w.clients && (!redis.Up? || ttl == 0)
    case Exit(p, redis) => p in w.clients && w.clients[p].Deletes() && !redis.Up?
    case Tick(dt) => exists p :: p in w.clients && w.clients[p].Holding? && w.now + dt >= w.clients[p].until
  }

  lemma EnterSafe(w: World, p: nat, ttl: nat, redis: Redis)
    requires Safe(w)
    ensures Safe(Step(w, Enter(p, ttl, redis))) <==> !Careless(w, Enter(p, ttl, redis))
  {
    var w' := Step(w, Enter(p, ttl, redis));
    if p !in w.clients {
      assert p in w'.clients;
      assert forall q :: q in w.clients ==> w'.clients[q] == w.clients[q];
      if w.expires.Some? {
        var h :| h in w.clients && w.clients[h].Holding?;
        assert w'.clients[h] == w.clients[h];
      }
    }
  }

  lemma ExitSafe(w: World, p: nat, redis: Redis)
    requires Safe(w)
    ensures Safe(Step(w, Exit(p, redis))) <==> !Careless(w, Exit(p, redis))
  {
    var w' := Step(w, Exit(p, redis));
    if p in w.clients && w.clients[p].Turned? && w.expires.Some? {
      var h :| h in w.clients && w.clients[h].Holding?;
      assert h in w'.clients && w'.clients[h].Holding?;
    }
  }

  lemma TickSafe(w: World, dt: nat)
    requires Safe(w)
    ensures Safe(Step(w, Tick(dt))) <==> !Careless(w, Tick(dt))
  {}

  /** One step keeps the lock safe exactly when it is not careless. */
  lemma StepSafe(w: World, e: Event)
    requires Safe(w)
    ensures Safe(Step(w, e)) <==> !Careless(w, e)
  {
    match e
    case Enter(p, ttl, redis) => EnterSafe(w, p, ttl, redis);
    case Exit(p, redis) => ExitSafe(w, p, redis);
    case Tick(dt) => TickSafe(w, dt);
  }

  ghost predicate CarefulRun(w: World, es: seq<Event>) {
    forall k :: 0 <= k < |es| ==> !Careless(Run(w, es[..k]), es[k])
  }

  /** Mutual exclusion over every interleaving of careful processes: at most one is inside, and the key
      exists exactly while one is. */
  lemma {:induction false} MutualExclusion(w: World, es: seq<Event>)
    requires Safe(w) && CarefulRun(w, es)
    ensures Safe(Run(w, es))
    ensures var w' := Run(w, es);
            && (forall p, q :: p in w'.clients && q in w'.clients ==>
                  w'.clients[p].Inside() && w'.clients[q].Inside() ==> p == q)
            && (w'.expires.Some? <==> exists p :: p in w'.clients && w'.clients[p].Inside())
  {
    if |es| > 0 {
      var n := |es| - 1;
      forall k | 0 <= k < n ensures !Careless(Run(w, es[..n][..k]), es[..n][k]) {
        assert es[..n][..k] == es[..k];
      }
      MutualExclusion(w, es[..n]);
      StepSafe(Run(w, es[..n]), es[n]);
    }
    SafeMeans(Run(w, es));
  }

  lemma SafeMeans(w: World)
    requires Safe(w)
    ensures forall p, q :: p in w.clients && q in w.clients && w.clients[p].Inside() && w.clients[q].Inside() ==> p == q
    ensures w.expires.Some? <==> exists p :: p in w.clients && w.clients[p].Inside()
  {}

  // ----- who removes the key -----

  /** The key is the one set for this process, unexpired. */
  predicate Holds(w: World, p: nat) {
    p in w.clients && w.clients[p].Holding? && w.expires == Some(w.clients[p].until) && w.now < w.clients[p].until
  }

  /** The exit deletes a key that is there and has not expired. */
  predicate Removes(w: World, p: nat, redis: Redis) {
    Live(w.now, w.expires) && Step(w, Exit(p, redis)).expires.None?
  }

  /** From any world, a process that does not hold the key removes it on exit exactly when Redis takes the
      delete and the process entered on an error or had set a key that has expired since. */
  lemma StrangerRemovesIff(w: World, p: nat, redis: Redis)
    requires p in w.clients && !Holds(w, p) && Live(w.now, w.expires)
    ensures Removes(w, p, redis) <==> redis.Up? && (w.clients[p].Errored? || w.clients[p].Holding?)
  {}

  /** No process inside entered on an error, and everyone who set the key still holds it. */
  ghost predicate OwnersOnly(w: World) {
    && (forall p :: p in w.clients ==> !w.clients[p].Errored?)
    && (forall p :: p in w.clients && w.clients[p].Holding? ==> Holds(w, p))
    && (forall p, q :: p in w.clients && q in w.clients && w.clients[p].Holding? && w.clients[q].Holding? ==> p == q)
  }

  /** Entering on an error, or staying until the lease is over. Lost deletes and an unreachable Redis are
      not among these. */
  predicate Risky(w: World, e: Event) {
    match e
    case Enter(p, ttl, redis) => p !in w.clients && (redis.Failing? || (redis.Up? && ttl == 0))
    case Exit(_, _) => false
    case Tick(dt) => exists p :: p in w.clients && w.clients[p].Holding? && w.now + dt >= w.clients[p].until
  }

  lemma EnterOwners(w: World, p: nat, ttl: nat, redis: Redis)
    requires OwnersOnly(w)
    ensures OwnersOnly(Step(w, Enter(p, ttl, redis))) <==> !Risky(w, Enter(p, ttl, redis))
  {
    var w' := Step(w, Enter(p, ttl, redis));
    if p !in w.clients {
      assert p in w'.clients;
      assert forall q :: q in w.clients ==> w'.clients[q] == w.clients[q];
    }
  }

  lemma ExitOwners(w: World, p: nat, redis: Redis)
    requires OwnersOnly(w)
    ensures OwnersOnly(Step(w, Exit(p, redis)))
  {
    var w' := Step(w, Exit(p, redis));
    assert forall q :: q in w'.clients ==> q in w.clients && w'.clients[q] == w.clients[q];
  }

  lemma TickOwners(w: World, dt: nat)
    requires OwnersOnly(w)
    ensures OwnersOnly(Step(w, Tick(dt))) <==> !Risky(w, Tick(dt))
  {
    var w' := Step(w, Tick(dt));
    if Risky(w, Tick(dt)) {
      var p :| p in w.clients && w.clients[p].Holding? && w.now + dt >= w.clients[p].until;
      assert p in w'.clients && w'.clients[p].Holding? && !Holds(w', p);
    } else {
      forall p | p in w'.clients && w'.clients[p].Holding? ensures Holds(w', p) { assert Holds(w, p); }
    }
  }

  lemma StepOwners(w: World, e: Event)
    requires OwnersOnly(w)
    ensures OwnersOnly(Step(w, e)) <==> !Risky(w, e)
  {
    match e
    case Enter(p, ttl, redis) => EnterOwners(w, p, ttl, redis);
    case Exit(p, redis) => ExitOwners(w, p, redis);
    case Tick(dt) => TickOwners(w, dt);
  }

  ghost predicate NoRisk(w: World, es: seq<Event>) {
    forall k :: 0 <= k < |es| ==> !Risky(Run(w, es[..k]), es[k])
  }

  /** Over every run without risky steps, Redis going away included, an exit removes the key only if its
      process holds it. */
  lemma OnlyHoldersRemove(w: World, es: seq<Event>, p: nat, redis: Redis)
    requires OwnersOnly(w) && NoRisk(w, es) && p in Run(w, es).clients
    ensures OwnersOnly(Run(w, es))
    ensures Removes(Run(w, es), p, redis) ==> Holds(Run(w, es), p)
  {
    OwnersAlong(w, es);
    var w' := Run(w, es);
    if !Holds(w', p) && Live(w'.now, w'.expires) { StrangerRemovesIff(w', p, redis); }
  }

  lemma {:induction false} OwnersAlong(w: World, es: seq<Event>)
    requires OwnersOnly(w) && NoRisk(w, es)
    ensures OwnersOnly(Run(w, es))
  {
    if |es| > 0 {
      var n := |es| - 1;
      forall k | 0 <= k < n ensures !Risky(Run(w, es[..n][..k]), es[..n][k]) {
        assert es[..n][..k] == es[..k];
      }
      OwnersAlong(w, es[..n]);
      StepOwners(Run(w, es[..n]), es[n]);
    }
  }

  /** A process let in on a Redis error deletes the key of the holder when it leaves, and a third enters. */
  lemma ErrorLetsTwoIn()
    ensures var held := World(0, Some(10), map[1 := Holding(10)]);
            var es := [Enter(2, 10, Failing), Exit(2, Up), Enter(3, 10, Up)];
            var w := Run(held, es);
            && Safe(held) && Removes(Run(held, es[..1]), 2, Up) && !Holds(Run(held, es[..1]), 2)
            && 1 in w.clients && 3 in w.clients && w.clients[1].Inside() && w.clients[3].Inside()
  {
    var held := World(0, Some(10), map[1 := Holding(10)]);
    var es := [Enter(2, 10, Failing), Exit(2, Up), Enter(3, 10, Up)];
    assert 1 in held.clients && held.clients[1].Holding?;
    assert es[..2] == [Enter(2, 10, Failing), Exit(2, Up)];
    assert es[..2][..1] == es[..1] == [Enter(2, 10, Failing)];
    assert es[..1][..0] == [];
    var w1 := World(0, Some(10), map[1 := Holding(10), 2 := Errored]);
    assert Run(held, es[..1]) == w1;
    var w2 := World(0, None, map[1 := Holding(10)]);
    assert Step(w1, Exit(2, Up)) == w2;
    assert Run(held, es[..2]) == w2;
  }

  /** Overstaying is enough to lose the lock: the late holder deletes the key of its successor, and a
      third process enters beside it. */
  lemma OverstayingLetsTwoIn()
    ensures var w := Run(World(0, None, map[]),
                         [Enter(1, 10, Up), Tick(10), Enter(2, 10, Up), Exit(1, Up), Enter(3, 10, Up)]);
            2 in w.clients && 3 in w.clients && w.clients[2].Inside() && w.clients[3].Inside()
  {
    var w0 := World(0, None, map[]);
    var es := [Enter(1, 10, Up), Tick(10), Enter(2, 10, Up), Exit(1, Up), Enter(3, 10, Up)];
    assert es[..4] == [Enter(1, 10, Up), Tick(10), Enter(2, 10, Up), Exit(1, Up)];
    assert es[..4][..3] == [Enter(1, 10, Up), Tick(10), Enter(2, 10, Up)];
    assert es[..4][..3][..2] == [Enter(1, 10, Up), Tick(10)];
    assert es[..4][..3][..2][..1] == [Enter(1, 10, Up)];
    assert es[..4][..3][..2][..1][..0] == [];
    var w1 := World(0, Some(10), map[1 := Holding(10)]);
    assert Run(w0, [Enter(1, 10, Up)]) == w1;
    var w2 := w1.(now := 10);
    assert Run(w0, [Enter(1, 10, Up), Tick(10)]) == w2;
    var w3 := World(10, Some(20), map[1 := Holding(10), 2 := Holding(20)]);
    assert Run(w0, es[..4][..3]) == w3;
    var w4 := World(10, None, map[2 := Holding(20)]);
    assert Step(w3, Exit(1, Up)) == w4;
    assert Run(w0, es[..4]) == w4;
  }

  // ----- the objects -----

  class RedisServer {
    var now: nat
    var expires: Option<nat>

    constructor ()
      ensures now == 0 && expires == None
    {
      now, expires := 0, None;
    }

    method SetIfAbsent(ttl: nat) returns (ok: bool)
      modifies this`expires
      ensures ok == !Live(now, old(expires))
      ensures expires == if ok then Some(now + ttl) else old(expires)
    {
      ok := expires.None? || now >= expires.value;
      if ok { expires := Some(now + ttl); }
    }

    method Delete()
      modifies this`expires
      ensures expires == None
    {
      expires := None;
    }
  }

  class DistributedLock {
    const server: RedisServer
    const ttl: nat
    var connected: bool
    var acquired: bool

    constructor (server: RedisServer, ttl: nat)
      ensures this.server == server && this.ttl == ttl && !acquired && !connected
    {
      this.server, this.ttl := server, ttl;
      connected, acquired := false, false;
    }

    /** The object's fields agree with the client's place in the protocol. */
    predicate Shows(client: Client)
      reads this
    {
      match client
      case Holding(_) => acquired && connected
      case Errored => acquired && connected
      case Unlocked => acquired && !connected
      case Turned => !acquired
    }

    method Enter(redis: Redis) returns (ok: bool)
      modifies this, server`expires
      ensures var (client, expires) := Entered(server.now, old(server.expires), ttl, redis);
              Shows(client) && ok == client.Inside() && server.expires == expires
      ensures !redis.Up? || ttl == 0 ==> ok && server.expires == old(server.expires)
      ensures redis.Up? && ttl > 0 ==>
                && (ok <==> old(server.expires) == None || old(server.expires).value <= server.now)
                && server.expires == if ok then Some(server.now + ttl) else old(server.expires)
      ensures acquired == ok && (connected <==> redis != Down)
    {
      connected := !redis.Down?;
      if redis.Down? {
        acquired := true;
        return true;
      }
      if redis.Failing? || ttl == 0 {
        acquired := true;
        return true;
      }
      acquired := server.SetIfAbsent(ttl);
      ok := acquired;
    }

    method Exit(redis: Redis, ghost client: Client)
      requires Shows(client)
      modifies this, server`expires
      ensures server.expires == Exited(client, old(server.expires), redis)
      ensures server.expires == if old(acquired) && old(connected) && redis == Up then None else old(server.expires)
      ensures !acquired
    {
      if acquired && connected {
        if redis.Up? { server.Delete(); }
      }
      acquired := false;
    }
  }
}
