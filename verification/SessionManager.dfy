/** The sessions manager: when sessions are started, and why a server never has two of them. */
module SessionManager {
  import opened Wrappers

  type ServerId = string

  // In milliseconds.
  const MANAGER_TICK_INTERVAL: nat := 5000
  const CONNECT_TIMEOUT: nat := 2000

  datatype Timing = Timing(interval: nat, timeout: nat)

  const GATEWAY_TIMING: Timing := Timing(MANAGER_TICK_INTERVAL, CONNECT_TIMEOUT)

  /** An attempt at starting a session, which ends by itself or is cut at its deadline. */
  datatype Attempt = Attempt(server: ServerId, deadline: nat)

  /** `registry` tells of each registered session whether it is alive. History variable: how many
      registrations took the place of another session. */
  datatype Sessions = Sessions(now: nat, lastTick: Option<nat>, registry: map<ServerId, bool>, attempts: seq<Attempt>,
                               replaced: nat)

  const NO_SESSIONS: Sessions := Sessions(0, None, map[], [], 0)

  // ---------------------------------------------------------------------------
  // Steps
  // ---------------------------------------------------------------------------

  function Alive(registry: map<ServerId, bool>): map<ServerId, bool> {
    map server | server in registry && registry[server] :: true
  }

  /** One attempt for each server that has no session running. */
  function Spawned(servers: seq<ServerId>, running: set<ServerId>, deadline: nat): seq<Attempt> {
    if servers == [] then []
    else
      var n := |servers| - 1;
      Spawned(servers[..n], running, deadline) + if servers[n] in running then [] else [Attempt(servers[n], deadline)]
  }

  /** A tick drops the dead sessions, then starts what is not running. */
  function Ticked(timing: Timing, servers: seq<ServerId>, s: Sessions): Sessions {
    var alive := Alive(s.registry);
    s.(lastTick := Some(s.now), registry := alive,
       attempts := s.attempts + Spawned(servers, alive.Keys, s.now + timing.timeout))
  }

  function Without(attempts: seq<Attempt>, k: nat): seq<Attempt>
    requires k < |attempts|
  {
    attempts[..k] + attempts[k + 1..]
  }

  /** An attempt succeeds: its session goes in the registry, whatever is there. */
  function Registered(s: Sessions, k: nat): Sessions
    requires k < |s.attempts|
  {
    var server := s.attempts[k].server;
    s.(registry := s.registry[server := true], attempts := Without(s.attempts, k),
       replaced := s.replaced + if server in s.registry then 1 else 0)
  }

  datatype Event =
    | Tick
    | Register(attempt: nat)
    | Fail(attempt: nat)
    | Die(server: ServerId)
    | Advance(time: nat)

  predicate TickIsDue(timing: Timing, s: Sessions) {
    s.lastTick.None? || s.lastTick.value + timing.interval <= s.now
  }

  /** Time passes no deadline: attempts end by then. */
  predicate MayAdvance(s: Sessions, time: nat) {
    forall k :: 0 <= k < |s.attempts| ==> s.now + time <= s.attempts[k].deadline
  }

  function Step(timing: Timing, servers: seq<ServerId>, s: Sessions, e: Event): Option<Sessions> {
    match e
    case Tick => if TickIsDue(timing, s) then Some(Ticked(timing, servers, s)) else None
    case Register(k) => if k < |s.attempts| then Some(Registered(s, k)) else None
    case Fail(k) => if k < |s.attempts| then Some(s.(attempts := Without(s.attempts, k))) else None
    case Die(server) => if server in s.registry then Some(s.(registry := s.registry[server := false])) else None
    case Advance(time) => if MayAdvance(s, time) then Some(s.(now := s.now + time)) else None
  }

  function Play(timing: Timing, servers: seq<ServerId>, run: seq<Event>): Option<Sessions> {
    if run == [] then Some(NO_SESSIONS)
    else
      match Play(timing, servers, run[..|run| - 1])
      case None => None
      case Some(s) => Step(timing, servers, s, run[|run| - 1])
  }

  // ---------------------------------------------------------------------------
  // At most one session
  // ---------------------------------------------------------------------------

  predicate Distinct(servers: seq<ServerId>) {
    forall i, j :: 0 <= i < j < |servers| ==> servers[i] != servers[j]
  }

  function AttemptsFor(attempts: seq<Attempt>, server: ServerId): nat {
    if attempts == [] then 0
    else AttemptsFor(attempts[..|attempts| - 1], server) + if attempts[|attempts| - 1].server == server then 1 else 0
  }

  /** Sessions a server has or may get: registered, and being started. */
  function Holders(s: Sessions, server: ServerId): nat {
    AttemptsFor(s.attempts, server) + if server in s.registry then 1 else 0
  }

  ghost predicate Safe(s: Sessions) {
    s.replaced == 0 && forall server :: Holders(s, server) <= 1
  }

  ghost predicate AttemptsDistinct(attempts: seq<Attempt>) {
    forall i, j :: 0 <= i < j < |attempts| ==> attempts[i].server != attempts[j].server
  }

  /** All attempts are of the last tick. */
  ghost predicate Inv(timing: Timing, s: Sessions) {
    && s.replaced == 0 && AttemptsDistinct(s.attempts)
    && (s.attempts != [] ==> s.lastTick.Some? && s.now <= s.lastTick.value + timing.timeout)
    && (forall k :: 0 <= k < |s.attempts| ==>
          && s.attempts[k].server !in s.registry
          && s.attempts[k].deadline == s.lastTick.value + timing.timeout)
  }

  lemma {:induction false} AttemptsForDistinct(attempts: seq<Attempt>, server: ServerId)
    requires AttemptsDistinct(attempts)
    ensures AttemptsFor(attempts, server) ==
            if exists k :: 0 <= k < |attempts| && attempts[k].server == server then 1 else 0
  {
    if attempts != [] {
      AttemptsForDistinct(attempts[..|attempts| - 1], server);
    }
  }

  lemma InvIsSafe(timing: Timing, s: Sessions)
    requires Inv(timing, s)
    ensures Safe(s)
  {
    forall server ensures Holders(s, server) <= 1 {
      AttemptsForDistinct(s.attempts, server);
    }
  }

  lemma {:induction false} SpawnedFacts(servers: seq<ServerId>, running: set<ServerId>, deadline: nat)
    requires Distinct(servers)
    ensures AttemptsDistinct(Spawned(servers, running, deadline))
    ensures forall k :: 0 <= k < |Spawned(servers, running, deadline)| ==>
              var a := Spawned(servers, running, deadline)[k];
              a.server in servers && a.server !in running && a.deadline == deadline
  {
    if servers != [] {
      SpawnedFacts(servers[..|servers| - 1], running, deadline);
    }
  }

  lemma TickKeeps(timing: Timing, servers: seq<ServerId>, s: Sessions)
    requires timing.timeout < timing.interval && Distinct(servers)
    requires Inv(timing, s) && TickIsDue(timing, s)
    ensures Inv(timing, Ticked(timing, servers, s))
  {
    assert s.attempts == [];
    SpawnedFacts(servers, Alive(s.registry).Keys, s.now + timing.timeout);
    assert s.attempts + Spawned(servers, Alive(s.registry).Keys, s.now + timing.timeout)
        == Spawned(servers, Alive(s.registry).Keys, s.now + timing.timeout);
  }

  lemma StepKeeps(timing: Timing, servers: seq<ServerId>, s: Sessions, e: Event)
    requires timing.timeout < timing.interval && Distinct(servers)
    requires Inv(timing, s) && Step(timing, servers, s, e).Some?
    ensures Inv(timing, Step(timing, servers, s, e).value)
  {
    if e.Tick? {
      TickKeeps(timing, servers, s);
    } else if e.Advance? && s.attempts != [] {
      assert s.now + e.time <= s.attempts[0].deadline;
    }
  }

  /** At most one session: when attempts end before the next tick, in every run, each server has
      at most one session registered or being started, and no registration ever takes the place
      of another session. */
  lemma {:induction false} AtMostOneSession(timing: Timing, servers: seq<ServerId>, run: seq<Event>)
    requires timing.timeout < timing.interval && Distinct(servers)
    requires Play(timing, servers, run).Some?
    ensures Inv(timing, Play(timing, servers, run).value) && Safe(Play(timing, servers, run).value)
  {
    if run != [] {
      var before := run[..|run| - 1];
      AtMostOneSession(timing, servers, before);
      StepKeeps(timing, servers, Play(timing, servers, before).value, run[|run| - 1]);
    }
    InvIsSafe(timing, Play(timing, servers, run).value);
  }

  lemma GatewayHasAtMostOneSession(servers: seq<ServerId>, run: seq<Event>)
    requires Distinct(servers) && Play(GATEWAY_TIMING, servers, run).Some?
    ensures Safe(Play(GATEWAY_TIMING, servers, run).value)
  {
    AtMostOneSession(GATEWAY_TIMING, servers, run);
  }

  lemma PlayOne(timing: Timing, servers: seq<ServerId>, run: seq<Event>, s: Sessions, e: Event)
    requires Play(timing, servers, run) == Some(s)
    ensures Play(timing, servers, run + [e]) == Step(timing, servers, s, e)
  {
    assert (run + [e])[..|run|] == run;
  }

  lemma {:induction false} AttemptsForConcat(a: seq<Attempt>, b: seq<Attempt>, server: ServerId)
    ensures AttemptsFor(a + b, server) == AttemptsFor(a, server) + AttemptsFor(b, server)
  {
    if b == [] {
      assert a + b == a;
    } else {
      assert (a + b)[..|a + b| - 1] == a + b[..|b| - 1];
      AttemptsForConcat(a, b[..|b| - 1], server);
    }
  }

  lemma {:induction false} SpawnedForEach(servers: seq<ServerId>, running: set<ServerId>, deadline: nat,
                                          server: ServerId)
    requires server in servers && server !in running
    ensures AttemptsFor(Spawned(servers, running, deadline), server) >= 1
  {
    var n := |servers| - 1;
    var before := Spawned(servers[..n], running, deadline);
    assert before + [] == before;
    AttemptsForConcat(before, [Attempt(servers[n], deadline)], server);
    if servers[n] != server {
      assert server in servers[..n];
      SpawnedForEach(servers[..n], running, deadline, server);
    }
  }

  /** Right after a tick, each server has either its live session, and no attempt, or one attempt
      and no session: a session that was dead is gone, and being replaced. */
  lemma TickServesEveryServer(timing: Timing, servers: seq<ServerId>, run: seq<Event>, server: ServerId)
    requires timing.timeout < timing.interval && Distinct(servers) && server in servers
    requires Play(timing, servers, run).Some? && Play(timing, servers, run + [Tick]).Some?
    ensures
      var before, after := Play(timing, servers, run).value, Play(timing, servers, run + [Tick]).value;
      && Holders(after, server) == 1
      && if server in before.registry && before.registry[server]
         then server in after.registry && after.registry[server] && AttemptsFor(after.attempts, server) == 0
         else server !in after.registry && AttemptsFor(after.attempts, server) == 1
  {
    hide Play, Inv, Spawned, AttemptsFor, Step;
    AtMostOneSession(timing, servers, run + [Tick]);
    var s := Play(timing, servers, run).value;
    PlayTick(timing, servers, run, s);
    var attempts := Spawned(servers, Alive(s.registry).Keys, s.now + timing.timeout);
    if server !in Alive(s.registry) {
      SpawnedForEach(servers, Alive(s.registry).Keys, s.now + timing.timeout, server);
    }
    AttemptsForConcat(s.attempts, attempts, server);
  }

  lemma PlayTick(timing: Timing, servers: seq<ServerId>, run: seq<Event>, s: Sessions)
    requires Play(timing, servers, run) == Some(s) && Play(timing, servers, run + [Tick]).Some?
    ensures Play(timing, servers, run + [Tick]) == Some(Ticked(timing, servers, s))
  {
    hide Play, Ticked;
    PlayOne(timing, servers, run, s, Tick);
  }

  lemma {:induction false} SpawnedDeadlines(servers: seq<ServerId>, running: set<ServerId>, deadline: nat)
    ensures forall k :: 0 <= k < |Spawned(servers, running, deadline)| ==>
            Spawned(servers, running, deadline)[k].deadline == deadline
  {
    if servers != [] {
      SpawnedDeadlines(servers[..|servers| - 1], running, deadline);
    }
  }

  lemma {:induction false} SomeAttemptFor(attempts: seq<Attempt>, server: ServerId) returns (i: nat)
    requires AttemptsFor(attempts, server) >= 1
    ensures i < |attempts| && attempts[i].server == server
  {
    var n := |attempts| - 1;
    if attempts[n].server == server {
      i := n;
    } else {
      i := SomeAttemptFor(attempts[..n], server);
    }
  }

  lemma {:induction false} TwoAttemptsFor(attempts: seq<Attempt>, server: ServerId) returns (i: nat, j: nat)
    requires AttemptsFor(attempts, server) >= 2
    ensures i < j < |attempts| && attempts[i].server == server && attempts[j].server == server
  {
    var n := |attempts| - 1;
    if attempts[n].server == server {
      i := SomeAttemptFor(attempts[..n], server);
      j := n;
    } else {
      i, j := TwoAttemptsFor(attempts[..n], server);
    }
  }

  /** The first tick is over, and the next one is due while its attempts are under way. */
  lemma NextTickIsDue(timing: Timing, servers: seq<ServerId>) returns (run: seq<Event>)
    requires timing.interval <= timing.timeout
    ensures Play(timing, servers, run) ==
            Some(Sessions(timing.interval, Some(0), map[], Spawned(servers, {}, timing.timeout), 0))
  {
    hide Play, Spawned;
    NothingPlayed(timing, servers);
    PlayOne(timing, servers, [], NO_SESSIONS, Tick);
    assert Alive(map[]) == map[] && Alive(map[]).Keys == {};
    assert [] + Spawned(servers, {}, timing.timeout) == Spawned(servers, {}, timing.timeout);
    var s := Sessions(0, Some(0), map[], Spawned(servers, {}, timing.timeout), 0);
    SpawnedDeadlines(servers, {}, timing.timeout);
    PlayOne(timing, servers, [] + [Tick], s, Advance(timing.interval));
    run := [] + [Tick] + [Advance(timing.interval)];
  }

  /** Otherwise an attempt can outlive the next tick, which starts another one. */
  lemma SlowAttemptsCollide(timing: Timing, servers: seq<ServerId>, server: ServerId)
    returns (run: seq<Event>, s: Sessions)
    requires timing.interval <= timing.timeout && server in servers
    ensures Play(timing, servers, run) == Some(s) && AttemptsFor(s.attempts, server) >= 2
  {
    hide Play, Spawned, AttemptsFor;
    run := NextTickIsDue(timing, servers);
    s := Sessions(timing.interval, Some(0), map[], Spawned(servers, {}, timing.timeout), 0);
    PlayOne(timing, servers, run, s, Tick);
    run := run + [Tick];
    assert Alive(map[]).Keys == {};
    SpawnedForEach(servers, {}, timing.timeout, server);
    SpawnedForEach(servers, {}, timing.interval + timing.timeout, server);
    AttemptsForConcat(s.attempts, Spawned(servers, {}, timing.interval + timing.timeout), server);
    s := Ticked(timing, servers, s);
  }

  /** And both of them can register, so that one session takes the place of another. */
  lemma SlowSessionsReplace(timing: Timing, servers: seq<ServerId>, server: ServerId)
    returns (run: seq<Event>, s: Sessions)
    requires timing.interval <= timing.timeout && server in servers
    ensures Play(timing, servers, run) == Some(s) && s.replaced >= 1
  {
    hide Play, AttemptsFor;
    run, s := SlowAttemptsCollide(timing, servers, server);
    var i, j := TwoAttemptsFor(s.attempts, server);
    PlayOne(timing, servers, run, s, Register(j));
    run := run + [Register(j)];
    s := Registered(s, j);
    assert s.attempts[i].server == server && server in s.registry;
    PlayOne(timing, servers, run, s, Register(i));
    run := run + [Register(i)];
    s := Registered(s, i);
  }

  lemma NothingPlayed(timing: Timing, servers: seq<ServerId>)
    ensures Play(timing, servers, []) == Some(NO_SESSIONS)
  {
  }

  /** The timeout must be shorter than the interval between ticks, and that is enough. */
  lemma SafeIff(timing: Timing, servers: seq<ServerId>)
    requires Distinct(servers) && servers != []
    ensures (forall run :: Play(timing, servers, run).Some? ==> Safe(Play(timing, servers, run).value))
            <==> timing.timeout < timing.interval
  {
    if timing.timeout < timing.interval {
      forall run | Play(timing, servers, run).Some? {
        AtMostOneSession(timing, servers, run);
      }
    } else {
      var run, s := SlowSessionsReplace(timing, servers, servers[0]);
      assert !Safe(Play(timing, servers, run).value);
    }
  }

  // ---------------------------------------------------------------------------
  // The manager
  // ---------------------------------------------------------------------------

  class SessionsManager {
    const servers: seq<ServerId>
    var sessions: map<ServerId, bool>
    var attempts: seq<Attempt>
    ghost var lastTick: Option<nat>
    ghost var replaced: nat

    ghost function State(now: nat): Sessions
      reads this
    {
      Sessions(now, lastTick, sessions, attempts, replaced)
    }

    constructor (servers: seq<ServerId>)
      ensures this.servers == servers && State(0) == NO_SESSIONS
    {
      this.servers := servers;
      sessions, attempts := map[], [];
      lastTick, replaced := None, 0;
    }

    /** One turn of the manager's loop. */
    method HandleTick(now: nat)
      modifies this
      ensures State(now) == Ticked(GATEWAY_TIMING, servers, old(State(now)))
    {
      // What is dead leaves the registry,
      var unchecked := sessions.Keys;
      while unchecked != {}
        invariant unchecked <= sessions.Keys
        invariant forall server :: server in sessions ==>
                    server in old(sessions) && sessions[server] == old(sessions)[server]
        invariant forall server :: server in old(sessions) && server !in unchecked ==>
                    (server in sessions <==> old(sessions)[server])
        invariant attempts == old(attempts) && lastTick == old(lastTick) && replaced == old(replaced)
        decreases unchecked
      {
        var server :| server in unchecked;
        unchecked := unchecked - {server};
        if !sessions[server] {
          sessions := sessions - {server};
        }
      }
      assert sessions == Alive(old(sessions));
      var running := sessions.Keys;
      // and every server left without a session gets an attempt.
      for i := 0 to |servers|
        invariant sessions == Alive(old(sessions)) && lastTick == old(lastTick) && replaced == old(replaced)
        invariant attempts == old(attempts) + Spawned(servers[..i], running, now + CONNECT_TIMEOUT)
      {
        assert servers[..i + 1][..i] == servers[..i];
        if servers[i] !in running {
          attempts := attempts + [Attempt(servers[i], now + CONNECT_TIMEOUT)];
        }
      }
      assert servers[..|servers|] == servers;
      lastTick := Some(now);
    }

    /** The end of a successful start: the session goes in the registry. */
    method RegisterSession(ghost now: nat, k: nat)
      requires k < |attempts|
      modifies this
      ensures State(now) == Registered(old(State(now)), k)
    {
      var server := attempts[k].server;
      replaced := replaced + if server in sessions then 1 else 0;
      sessions := sessions[server := true];
      attempts := Without(attempts, k);
    }
  }
}
