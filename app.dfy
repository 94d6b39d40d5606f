/**
 * How the engine runs the two controllers (src/main.rs and the plugin registrations): one
 * frame first commits a pending state transition, running the `OnExit` systems of the state
 * left and the `OnEnter` systems of the state entered, and then runs the `OnUpdate` systems of
 * the current state; the command buffers the systems queue are applied after they return.
 */
module AppSchedule {
  import opened Wrappers
  import opened States
  import opened Ecs
  import opened Game
  import opened MainMenu

  /** An entity the play controller is responsible for: a pin or an entity tagged `LevelUnload`. */
  predicate Owned(e: Entity)
  {
    Pin in e.tags || LevelUnload in e.tags
  }

  /** Spawning owned entities into a table of owned entities with fresh ids keeps it so. */
  lemma SpawnOwned(t: Table, es: seq<Entity>)
    requires forall id :: id in t.rows ==> id < t.next && Owned(t.rows[id])
    requires forall k :: 0 <= k < |es| ==> Owned(es[k])
    ensures forall id :: id in Run(t, SpawnAll(es)).rows ==>
      id < Run(t, SpawnAll(es)).next && Owned(Run(t, SpawnAll(es)).rows[id])
  {
    var r := Run(t, SpawnAll(es));
    RunSpawns(t, es);
    forall id | id in r.rows ensures id < r.next && Owned(r.rows[id]) {
      if id >= t.next {
        var k := id - t.next;
        assert r.rows[t.next + k] == es[k];
      }
    }
  }

  /** Every entity of the scene is owned by the play controller. */
  lemma SceneOwned()
    ensures forall k :: 0 <= k < |SceneEntities()| ==> Owned(SceneEntities()[k])
  {
    SceneTagging();
  }

  /**
   * A table holding exactly the standing entities `es` at the ids from `n` on has each of them
   * at its id, and none fallen.
   */
  lemma SpawnStanding(rows: map<EntityId, Entity>, n: EntityId, es: seq<Entity>)
    requires AllStanding(es)
    requires forall id :: id in rows <==> n <= id < n + |es|
    requires forall k :: 0 <= k < |es| ==> rows[n + k] == es[k]
    ensures forall id :: n <= id < n + |es| ==> id in rows && rows[id] == es[id - n]
    ensures forall id :: id in rows ==> id !in FallenIds(rows)
  {
    forall id | id in rows
      ensures rows[id] == es[id - n] && id !in FallenIds(rows)
    {
      var k := id - n;
      assert rows[n + k] == es[k];
    }
  }

  /** `rows` holds exactly the entities `es`, at the ids from `n` on. */
  ghost predicate HoldsExactly(rows: map<EntityId, Entity>, n: EntityId, es: seq<Entity>)
  {
    && (forall id :: n <= id < n + |es| ==> id in rows && rows[id] == es[id - n])
    && (forall id :: id in rows ==> n <= id < n + |es|)
  }

  /**
   * Spawning standing entities `es` into an empty table whose next id is `n` puts each at its id
   * from `n` on, leaves none fallen, and keeps a pin when `es` holds one.
   */
  lemma EntryTable(n: EntityId, es: seq<Entity>)
    requires AllStanding(es)
    ensures HoldsExactly(Run(Table(map[], n), SpawnAll(es)).rows, n, es)
    ensures Run(Table(map[], n), SpawnAll(es)).next == n + |es|
    ensures forall id :: id in Run(Table(map[], n), SpawnAll(es)).rows ==>
      id !in FallenIds(Run(Table(map[], n), SpawnAll(es)).rows)
    ensures forall k :: 0 <= k < |es| && Pin in es[k].tags ==>
      n + k in TaggedIds(Run(Table(map[], n), SpawnAll(es)).rows, Pin)
  {
    var t := Table(map[], n);
    var r := Run(t, SpawnAll(es));
    RunSpawns(t, es);
    SpawnStanding(r.rows, n, es);
    forall k | 0 <= k < |es| && Pin in es[k].tags
      ensures n + k in TaggedIds(r.rows, Pin)
    {
      assert r.rows[n + k] == es[k];
    }
  }

  /**
   * `rows` holds the scene at the ids from `n` on and nothing else, nothing in it has fallen,
   * and at least one pin is left.
   */
  ghost predicate SceneStands(rows: map<EntityId, Entity>, n: EntityId)
  {
    && HoldsExactly(rows, n, SceneEntities())
    && (forall id :: id in rows ==> id !in FallenIds(rows))
    && TaggedIds(rows, Pin) != {}
  }

  /** The table that entering play builds from an empty one: the scene, standing, with its pins. */
  lemma SceneEntry(t: Table, r: Table)
    requires t.rows == map[] && r == Run(t, SpawnAll(SceneEntities()))
    ensures SceneStands(r.rows, t.next)
    ensures r.next == t.next + |SceneEntities()|
  {
    SceneStanding();
    EntryTable(t.next, SceneEntities());
    SceneEntryPin(t, r);
  }

  /** The table that entering play builds from an empty one keeps the scene's first pin. */
  lemma SceneEntryPin(t: Table, r: Table)
    requires t.rows == map[] && r == Run(t, SpawnAll(SceneEntities()))
    ensures t.next + 3 in TaggedIds(r.rows, Pin)
  {
    SceneStanding();
    EntryTable(t.next, SceneEntities());
    ScenePin();
  }

  /** Every entity of `before` that has not fallen is still in `after`, unchanged. */
  ghost predicate KeepsStanding(before: map<EntityId, Entity>, after: map<EntityId, Entity>)
  {
    forall id :: id in before && id !in FallenIds(before) ==> id in after && after[id] == before[id]
  }

  /** Every entity of `after` is a standing entity of `before`, unchanged, or `ball` at `newId`. */
  ghost predicate AddsAtMost(before: map<EntityId, Entity>, after: map<EntityId, Entity>, newId: EntityId, ball: Entity)
  {
    forall id :: id in after ==>
      (id in before && id !in FallenIds(before) && after[id] == before[id]) ||
      (id == newId && after[id] == ball)
  }

  /**
   * The first play frame after entry: the update keeps every standing entity of the entered scene
   * and adds at most the ball at the next id, so the table is the scene followed by the ball
   * exactly when one was shot.
   */
  lemma FirstPlayFrame(n: EntityId, scene: seq<Entity>, entered: map<EntityId, Entity>, after: map<EntityId, Entity>,
                       ball: Entity, shot: bool)
    requires HoldsExactly(entered, n, scene)
    requires forall id :: id in entered ==> id !in FallenIds(entered)
    requires AddsAtMost(entered, after, n + |scene|, ball) && KeepsStanding(entered, after)
    requires n + |scene| in after <==> shot
    ensures HoldsExactly(after, n, scene + (if shot then [ball] else []))
  {
    var es := scene + (if shot then [ball] else []);
    forall id | n <= id < n + |es|
      ensures id in after && after[id] == es[id - n]
    {
      if id < n + |scene| {
        assert es[id - n] == scene[id - n];
      }
    }
  }

  /**
   * The entry frame as a whole: play starts on the standing scene at the ids from `n` on, whose
   * pins rule out a return request on that frame, and the update then adds at most the ball at
   * the first id after the scene.
   */
  lemma EntryPlayFrame(n: EntityId, entered: map<EntityId, Entity>, mid: EntityId,
                       after: map<EntityId, Entity>, last: EntityId, ball: Entity, shot: bool)
    requires SceneStands(entered, n) && mid == n + |SceneEntities()|
    requires AddsAtMost(entered, after, mid, ball) && KeepsStanding(entered, after)
    requires mid in after <==> shot
    requires last == mid + (if shot then 1 else 0)
    ensures TaggedIds(entered, Pin) != {}
    ensures last == n + |SceneEntities()| + (if shot then 1 else 0)
    ensures HoldsExactly(after, n, SceneEntities() + (if shot then [ball] else []))
  {
    FirstPlayFrame(n, SceneEntities(), entered, after, ball, shot);
  }

  /**
   * Applying the play systems' buffers to the table they read: the shot, if any, adds the ball
   * at the next id, and the sweep then removes exactly the fallen entities of that table.
   */
  lemma PlayFlush(t: Table, shot: seq<Command>, fallen: seq<Command>, ball: Entity)
    requires forall id :: id in t.rows ==> id < t.next
    requires shot == [] || shot == [Spawn(ball)]
    requires OnlyDespawns(fallen) && DespawnIds(fallen) == FallenIds(t.rows)
    ensures Run(Run(t, shot), fallen).next == t.next + |shot|
    ensures t.next in Run(Run(t, shot), fallen).rows <==> shot != []
    ensures AddsAtMost(t.rows, Run(Run(t, shot), fallen).rows, t.next, ball)
    ensures KeepsStanding(t.rows, Run(Run(t, shot), fallen).rows)
  {
    var mid := Run(t, shot);
    RunDespawns(mid, fallen);
    if shot != [] {
      assert shot == SpawnAll([ball]);
      RunSpawns(t, [ball]);
    }
  }

  /** The engine's world as the game uses it: the state resources, the table and the shoot timer. */
  class App {
    var state: GameState
    var entities: map<EntityId, Entity>
    var nextId: EntityId
    const next: NextState
    const timer: ShootTimer

    /**
     * The invariant of a running game. A requested transition always leads to the other state;
     * the table holds only entities the play controller owns; in the menu it is empty, so
     * nothing leaks out of a play session even though pins carry no `LevelUnload`; and the
     * return to the menu is requested only when no pin is left.
     */
    ghost predicate Valid()
      reads this, next, timer
    {
      && timer.Valid()
      && (forall id :: id in entities ==> id < nextId)
      && (next.pending == None || next.pending == Some(Other(state)))
      && (forall id :: id in entities ==> Owned(entities[id]))
      && (state == MainMenu ==> entities == map[])
      && (next.pending == Some(MainMenu) ==> TaggedIds(entities, Pin) == {})
    }

    /** The world at start-up: the default state, nothing pending, an empty table and a fresh timer. */
    constructor ()
      ensures Valid() && fresh(next) && fresh(timer)
      ensures state == InitialState && next.pending == None
      ensures entities == map[] && nextId == 0 && timer.elapsedMs == 0 && timer.timesFinishedThisTick == 0
    {
      state := InitialState;
      entities := map[];
      nextId := 0;
      next := new NextState();
      timer := new ShootTimer();
    }

    /** Applies a system's command buffer to the table, in order. */
    method Apply(cmds: seq<Command>)
      modifies this`entities, this`nextId
      ensures Table(entities, nextId) == Run(Table(old(entities), old(nextId)), cmds)
    {
      for i := 0 to |cmds|
        invariant Run(Table(entities, nextId), cmds[i..]) == Run(Table(old(entities), old(nextId)), cmds)
      {
        assert cmds[i..][1..] == cmds[i + 1..];
        match cmds[i]
        case Spawn(e) =>
          entities, nextId := entities[nextId := e], nextId + 1;
        case Despawn(id) =>
          entities := entities - {id};
      }
      assert cmds[|cmds|..] == [];
    }

    /** The `OnExit(Playing)` schedule: `cleanup_system::<LevelUnload>` and its flush. */
    method ExitPlaying()
      modifies this`entities, this`nextId
      ensures nextId == old(nextId)
      ensures forall id :: id in entities <==> id in old(entities) && LevelUnload !in old(entities)[id].tags
      ensures forall id :: id in entities ==> entities[id] == old(entities)[id]
    {
      var t := Table(entities, nextId);
      var cmds := CleanupSystem(entities, LevelUnload);
      Apply(cmds);
      TeardownFlush(t, LevelUnload, cmds);
    }

    /** The `OnEnter(Playing)` schedule: `setup` and its flush. */
    method EnterPlaying()
      modifies this`entities, this`nextId
      ensures Table(entities, nextId) == Run(Table(old(entities), old(nextId)), SpawnAll(SceneEntities()))
    {
      var cmds := Setup();
      Apply(cmds);
    }

    /**
     * Commits a pending transition: leaving `Playing` tears down every `LevelUnload` entity,
     * entering `Playing` builds the scene; the table ends up empty in the menu and holding
     * exactly the scene when play starts.
     */
    method ApplyStateTransition()
      requires Valid()
      modifies this, next
      ensures Valid() && next.pending == None
      ensures old(next.pending) == None ==>
        state == old(state) && entities == old(entities) && nextId == old(nextId)
      ensures old(next.pending) != None ==> state == old(next.pending).value == Other(old(state))
      ensures old(next.pending) == Some(MainMenu) ==> entities == map[] && nextId == old(nextId)
      ensures old(next.pending) == Some(Playing) ==>
        Table(entities, nextId) == Run(Table(map[], old(nextId)), SpawnAll(SceneEntities()))
      ensures old(next.pending) == Some(Playing) ==>
        SceneStands(entities, old(nextId)) && nextId == old(nextId) + |SceneEntities()|
    {
      match next.pending
      case None =>
      case Some(MainMenu) =>
        LeavePlaying();
      case Some(Playing) =>
        StartPlaying();
    }

    /**
     * Commits a requested return to the menu: the state becomes `MainMenu`, then `OnExit(Playing)`
     * tears down the `LevelUnload` entities. Since the request was made with no pin left,
     * the table ends up empty.
     */
    method LeavePlaying()
      requires Valid() && next.pending == Some(MainMenu)
      modifies this`state, this`entities, this`nextId, next
      ensures Valid() && state == MainMenu && next.pending == None
      ensures entities == map[] && nextId == old(nextId)
    {
      next.pending := None;
      state := MainMenu;
      ghost var before := entities;
      ExitPlaying();
      assert entities.Keys <= TaggedIds(before, Pin);
    }

    /**
     * Commits a requested start of play: the state becomes `Playing`, then `OnEnter(Playing)`
     * builds the scene in the table, which the menu left empty.
     */
    method StartPlaying()
      requires Valid() && next.pending == Some(Playing)
      modifies this`state, this`entities, this`nextId, next
      ensures Valid() && state == Playing && next.pending == None
      ensures Table(entities, nextId) == Run(Table(map[], old(nextId)), SpawnAll(SceneEntities()))
      ensures SceneStands(entities, old(nextId)) && nextId == old(nextId) + |SceneEntities()|
    {
      next.pending := None;
      state := Playing;
      ghost var t := Table(entities, nextId);
      EnterPlaying();
      SceneOwned();
      SpawnOwned(t, SceneEntities());
      SceneEntry(t, Table(entities, nextId));
    }

    /**
     * The `OnUpdate(Playing)` systems on one frame: `shoot_ball`, `despawn_fallen` and
     * `end_condition` read the table as it stood at the start of the update; their command
     * buffers are then applied. At most the one new ball appears, exactly the fallen balls and
     * pins disappear, and the return to the menu is requested exactly when no pin was left.
     */
    method PlayingUpdate(deltaMs: nat, d: Draw)
      requires Valid() && state == Playing && next.pending == None && DrawInRange(d)
      modifies this`entities, this`nextId, next, timer
      ensures Valid()
      ensures next.pending == Some(MainMenu) <==> TaggedIds(old(entities), Pin) == {}
      ensures next.pending == None || next.pending == Some(MainMenu)
      ensures AddsAtMost(old(entities), entities, old(nextId), BallEntity(d))
      ensures KeepsStanding(old(entities), entities)
      ensures timer.elapsedMs + ShootPeriodMs * timer.timesFinishedThisTick == old(timer.elapsedMs) + deltaMs
      ensures old(nextId) in entities <==> old(timer.elapsedMs) + deltaMs >= ShootPeriodMs
      ensures nextId == old(nextId) + (if old(timer.elapsedMs) + deltaMs >= ShootPeriodMs then 1 else 0)
    {
      var snapshot := Table(entities, nextId);
      var shot := ShootBall(timer, deltaMs, d);
      var fallen := DespawnFallen(snapshot.rows);
      EndCondition(snapshot.rows, next);
      Apply(shot);
      Apply(fallen);
      PlayFlush(snapshot, shot, fallen, BallEntity(d));
    }

    /**
     * The frame that commits a requested return to the menu: the teardown empties the table,
     * then the menu's `update` drains its queue. The timer is not touched.
     */
    method ReturnFrame(messages: seq<Message>)
      requires Valid() && next.pending == Some(MainMenu)
      modifies this`state, this`entities, this`nextId, next
      ensures Valid() && state == MainMenu
      ensures entities == map[] && nextId == old(nextId) && next.pending == Drain(None, messages)
    {
      LeavePlaying();
      Update(messages, next);
    }

    /**
     * The play systems' first run on a freshly built scene at the ids from `n` on: the scene's
     * pins rule out a return request, and the table becomes the scene followed by the ball iff
     * the tick completed a period.
     */
    method FirstUpdate(ghost n: EntityId, deltaMs: nat, d: Draw)
      requires Valid() && state == Playing && next.pending == None && DrawInRange(d)
      requires SceneStands(entities, n) && nextId == n + |SceneEntities()|
      modifies this`entities, this`nextId, next, timer
      ensures Valid() && state == Playing && next.pending == None
      ensures timer.elapsedMs + ShootPeriodMs * timer.timesFinishedThisTick == old(timer.elapsedMs) + deltaMs
      ensures nextId == n + |SceneEntities()| + (if old(timer.elapsedMs) + deltaMs >= ShootPeriodMs then 1 else 0)
      ensures HoldsExactly(entities, n,
        SceneEntities() + (if old(timer.elapsedMs) + deltaMs >= ShootPeriodMs then [BallEntity(d)] else []))
    {
      ghost var shot := timer.elapsedMs + deltaMs >= ShootPeriodMs;
      ghost var entered, mid := entities, nextId;
      PlayingUpdate(deltaMs, d);
      EntryPlayFrame(n, entered, mid, entities, nextId, BallEntity(d), shot);
    }

    /**
     * The frame that commits a requested start of play: `setup` builds the scene, then the play
     * systems run once on it. The table is the scene plus the ball iff the first tick completed
     * a period, and no return is requested since the scene has pins.
     */
    method EntryFrame(deltaMs: nat, d: Draw)
      requires Valid() && next.pending == Some(Playing) && DrawInRange(d)
      modifies this`state, this`entities, this`nextId, next, timer
      ensures Valid() && state == Playing && next.pending == None
      ensures timer.elapsedMs + ShootPeriodMs * timer.timesFinishedThisTick == old(timer.elapsedMs) + deltaMs
      ensures nextId == old(nextId) + |SceneEntities()| + (if old(timer.elapsedMs) + deltaMs >= ShootPeriodMs then 1 else 0)
      ensures HoldsExactly(entities, old(nextId),
        SceneEntities() + (if old(timer.elapsedMs) + deltaMs >= ShootPeriodMs then [BallEntity(d)] else []))
    {
      ghost var n := nextId;
      StartPlaying();
      FirstUpdate(n, deltaMs, d);
    }

    /**
     * One frame: the pending transition is committed, then the current state's update systems
     * run (the menu drains its messages; play shoots, sweeps and checks the end condition), and
     * a state is only ever left for the other one. A frame that returns to the menu leaves an
     * empty table; a frame that starts play leaves the whole scene standing at the ids from
     * `old(nextId)` on, plus the ball if its first tick completed a period, with no return
     * requested.
     */
    method Frame(deltaMs: nat, d: Draw, messages: seq<Message>)
      requires Valid() && DrawInRange(d)
      modifies this, next, timer
      ensures Valid()
      ensures old(next.pending) == None ==> state == old(state)
      ensures old(next.pending) != None ==> state == Other(old(state))
      ensures old(state) == MainMenu && old(next.pending) == None ==>
        entities == old(entities) && nextId == old(nextId) && timer.elapsedMs == old(timer.elapsedMs) &&
        timer.timesFinishedThisTick == old(timer.timesFinishedThisTick) &&
        next.pending == Drain(None, messages)
      ensures old(state) == Playing && old(next.pending) == None ==>
        (next.pending == Some(MainMenu) <==> TaggedIds(old(entities), Pin) == {}) &&
        (next.pending == None || next.pending == Some(MainMenu))
      ensures old(state) == Playing && old(next.pending) == None ==>
        AddsAtMost(old(entities), entities, old(nextId), BallEntity(d)) && KeepsStanding(old(entities), entities)
      ensures old(state) == Playing && old(next.pending) == None ==>
        timer.elapsedMs + ShootPeriodMs * timer.timesFinishedThisTick == old(timer.elapsedMs) + deltaMs &&
        (old(nextId) in entities <==> old(timer.elapsedMs) + deltaMs >= ShootPeriodMs) &&
        nextId == old(nextId) + (if old(timer.elapsedMs) + deltaMs >= ShootPeriodMs then 1 else 0)
      ensures old(next.pending) == Some(MainMenu) ==>
        entities == map[] && nextId == old(nextId) && timer.elapsedMs == old(timer.elapsedMs) &&
        timer.timesFinishedThisTick == old(timer.timesFinishedThisTick) &&
        next.pending == Drain(None, messages)
      ensures old(next.pending) == Some(Playing) ==>
        next.pending == None &&
        timer.elapsedMs + ShootPeriodMs * timer.timesFinishedThisTick == old(timer.elapsedMs) + deltaMs &&
        nextId == old(nextId) + |SceneEntities()| + (if old(timer.elapsedMs) + deltaMs >= ShootPeriodMs then 1 else 0) &&
        HoldsExactly(entities, old(nextId),
          SceneEntities() + (if old(timer.elapsedMs) + deltaMs >= ShootPeriodMs then [BallEntity(d)] else []))
    {
      match next.pending
      case None =>
        if state == MainMenu {
          Update(messages, next);
        } else {
          PlayingUpdate(deltaMs, d);
        }
      case Some(MainMenu) =>
        ReturnFrame(messages);
      case Some(Playing) =>
        EntryFrame(deltaMs, d);
    }
  }
}
