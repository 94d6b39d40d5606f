/**
 * The play controller (src/game.rs): the scene built on entering `Playing`, the timed ball
 * spawner, the sweep of fallen balls and pins, the end condition and the teardown on leaving
 * `Playing`. Systems that use `Commands` return the buffer they queue; the engine applies it
 * (`Ecs.Run`) after the system returns.
 */
module Game {
  import opened Wrappers
  import opened States
  import opened Ecs
  import opened Pins

  // ---------------------------------------------------------------- scene setup

  function GroundEntity(): Entity { Entity(Ground, {LevelUnload}, Vec3(0.0, 0.0, 0.0)) }
  function LeftRailing(): Entity { Entity(Railing, {LevelUnload}, Vec3(-4.5, 1.0, 0.0)) }
  function RightRailing(): Entity { Entity(Railing, {LevelUnload}, Vec3(4.5, 1.0, 0.0)) }
  function LightEntity(): Entity { Entity(PointLight, {LevelUnload}, Vec3(40.0, 30.0, -10.0)) }
  function CameraEntity(): Entity { Entity(Camera, {LevelUnload}, Vec3(0.0, 8.0, -50.0)) }

  /** The ground and the two railings, spawned first. */
  function Lane(): seq<Entity> { [GroundEntity(), LeftRailing(), RightRailing()] }

  /** Everything `setup` spawns, in order: the lane, the pin triangle, the light and the camera. */
  function SceneEntities(): seq<Entity>
  {
    Lane() + PinsAt(Triangle(PinRows)) + [LightEntity(), CameraEntity()]
  }

  /**
   * The scene has 15 entities; the ten at positions 3 to 12 are the pins, tagged `Pin` and not
   * `LevelUnload`, standing at the triangle's pin positions; the other five carry `LevelUnload`
   * and not `Pin`.
   */
  lemma SceneTagging()
    ensures |SceneEntities()| == 15
    ensures forall k :: 0 <= k < 15 ==> (Pin in SceneEntities()[k].tags <==> 3 <= k < 13)
    ensures forall k :: 0 <= k < 15 ==> (LevelUnload in SceneEntities()[k].tags <==> !(3 <= k < 13))
    ensures forall k :: 3 <= k < 13 ==>
      SceneEntities()[k].tags == {Pin} && SceneEntities()[k].pos == PinPosition(Triangle(PinRows)[k - 3])
  {
    TenPins();
  }

  /** The spawn buffer of the scene: 15 spawns, each tagged either `Pin` or `LevelUnload`. */
  lemma SceneCommands()
    ensures |SpawnAll(SceneEntities())| == 15
    ensures forall k :: 0 <= k < 15 ==>
      SpawnAll(SceneEntities())[k].Spawn? &&
      (Pin in SpawnAll(SceneEntities())[k].entity.tags <==> LevelUnload !in SpawnAll(SceneEntities())[k].entity.tags)
  {
    SceneTagging();
  }

  /** One pass of the inner pin loop keeps the loop's account of placed cells and queued spawns. */
  lemma PinPlaced(placed: seq<Cell>, i: nat, c: int)
    requires c <= i && placed + RowFrom(i, c) == Triangle(i + 1)
    ensures (placed + [Cell(i, c)]) + RowFrom(i, c + 2) == Triangle(i + 1)
    ensures SpawnAll(Lane() + PinsAt(placed + [Cell(i, c)])) == SpawnAll(Lane() + PinsAt(placed)) + [Spawn(PinEntity(Cell(i, c)))]
  {
    var x := Cell(i, c);
    assert RowFrom(i, c) == [x] + RowFrom(i, c + 2);
    assert (placed + [x]) + RowFrom(i, c + 2) == placed + ([x] + RowFrom(i, c + 2));
    PinsAtAppend(placed, x);
    var before := Lane() + PinsAt(placed);
    assert Lane() + PinsAt(placed + [x]) == before + [PinEntity(x)];
    SpawnAllAppend(before, PinEntity(x));
  }

  /** Once the pins are queued, the light and the camera complete the scene's buffer. */
  lemma SceneClosed(cmds: seq<Command>)
    requires cmds == SpawnAll(Lane() + PinsAt(Triangle(PinRows)))
    ensures cmds + [Spawn(LightEntity()), Spawn(CameraEntity())] == SpawnAll(SceneEntities())
  {
    var pins := Lane() + PinsAt(Triangle(PinRows));
    SpawnAllAppend(pins, LightEntity());
    SpawnAllAppend(pins + [LightEntity()], CameraEntity());
    assert pins + [LightEntity()] + [CameraEntity()] == SceneEntities();
  }

  /** `setup`: queues the scene's spawns; the pin loop is proved to lay out `Triangle(PinRows)`. */
  method Setup() returns (cmds: seq<Command>)
    ensures cmds == SpawnAll(SceneEntities())
    ensures |cmds| == 15
    ensures forall k :: 0 <= k < |cmds| ==>
      cmds[k].Spawn? && (Pin in cmds[k].entity.tags <==> LevelUnload !in cmds[k].entity.tags)
  {
    cmds := [Spawn(GroundEntity()), Spawn(LeftRailing()), Spawn(RightRailing())];
    assert cmds == SpawnAll(Lane() + PinsAt([]));
    ghost var placed: seq<Cell> := [];
    for i := 0 to PinRows
      invariant placed == Triangle(i)
      invariant cmds == SpawnAll(Lane() + PinsAt(placed))
    {
      var c := -i;
      ghost var visited: nat := 0;
      while c <= i
        invariant -i <= c <= i + 2 && c == 2 * visited - i
        invariant placed + RowFrom(i, c) == Triangle(i + 1)
        invariant cmds == SpawnAll(Lane() + PinsAt(placed))
        decreases i - c + 2
      {
        var pin := Entity(PinBox, {Pin}, Vec3(c as real / 1.5, 2.0, -25.0 - i as real));
        assert pin == PinEntity(Cell(i, c));
        PinPlaced(placed, i, c);
        cmds := cmds + [Spawn(pin)];
        placed := placed + [Cell(i, c)];
        c, visited := c + 2, visited + 1;
      }
    }
    SceneClosed(cmds);
    cmds := cmds + [Spawn(LightEntity()), Spawn(CameraEntity())];
    SceneCommands();
  }

  // ---------------------------------------------------------------- shoot timer and ball

  /** The repeating period of the shoot timer, in milliseconds (`Timer::from_seconds(0.1, Repeating)`). */
  const ShootPeriodMs: nat := 100

  /**
   * The `ShootTimer` resource: a repeating timer. It is created once with the plugin and is
   * never reset, so its phase carries over from one play session to the next.
   */
  class ShootTimer {
    var elapsedMs: nat
    var timesFinishedThisTick: nat

    ghost predicate Valid()
      reads this
    {
      elapsedMs < ShootPeriodMs
    }

    constructor ()
      ensures Valid() && elapsedMs == 0 && timesFinishedThisTick == 0
    {
      elapsedMs, timesFinishedThisTick := 0, 0;
    }

    /** `just_finished`: the last tick completed at least one period. */
    predicate JustFinished()
      reads this
    {
      timesFinishedThisTick > 0
    }

    /**
     * `tick(delta)`: the elapsed time advances by `deltaMs`; every whole period completed is
     * counted and removed, the remainder stays.
     */
    method Tick(deltaMs: nat)
      requires Valid()
      modifies this
      ensures Valid()
      ensures elapsedMs + ShootPeriodMs * timesFinishedThisTick == old(elapsedMs) + deltaMs
      ensures JustFinished() <==> old(elapsedMs) + deltaMs >= ShootPeriodMs
    {
      var total := elapsedMs + deltaMs;
      if total >= ShootPeriodMs {
        timesFinishedThisTick := total / ShootPeriodMs;
        elapsedMs := total % ShootPeriodMs;
      } else {
        timesFinishedThisTick := 0;
        elapsedMs := total;
      }
    }
  }

  /** The random draws of one shot. */
  datatype Draw = Draw(colourIndex: int, radius: real, offsetX: real, curve: real, speed: real)

  /** The ranges the generator draws from (`gen_range` excludes the upper bound). */
  predicate DrawInRange(d: Draw)
  {
    && 0 <= d.colourIndex < 3
    && 0.25 <= d.radius < 0.5
    && -2.0 <= d.offsetX < 2.0
    && -5.0 <= d.curve < 5.0
    && -100.0 <= d.speed < -40.0
  }

  /** The candidate ball colours, indexed by the colour draw. */
  const Colours: seq<Colour> := [Purple, Blue, Pink, Red]

  /**
   * The ball a shot spawns: tagged `Ball` and `LevelUnload`, starting at `(x, 2.5, 58)` with
   * `x` in `[-2, 2)`, moving with velocity `(curve, 0, speed)`, radius in `[0.25, 0.5)`; the
   * draw over `0..3` never reaches the fourth colour, so a ball is never red.
   */
  function BallEntity(d: Draw): (e: Entity)
    requires DrawInRange(d)
    ensures e.tags == {Ball, LevelUnload}
    ensures e.kind.Sphere? && e.kind.velocity.y == 0.0
    ensures e.kind.colour in {Purple, Blue, Pink} && e.kind.colour != Red
    ensures e.pos.y == 2.5 && e.pos.z == 58.0 && -2.0 <= e.pos.x < 2.0
    ensures 0.25 <= e.kind.radius < 0.5
    ensures -5.0 <= e.kind.velocity.x < 5.0 && -100.0 <= e.kind.velocity.z < -40.0
  {
    Entity(Sphere(d.radius, Colours[d.colourIndex], Vec3(d.curve, 0.0, d.speed)),
           {Ball, LevelUnload},
           Vec3(d.offsetX, 2.5, 58.0))
  }

  /**
   * `shoot_ball`: ticks the timer and, when it just finished, queues one ball; however many
   * periods the tick completed, at most one ball is queued.
   */
  method ShootBall(timer: ShootTimer, deltaMs: nat, d: Draw) returns (cmds: seq<Command>)
    requires timer.Valid() && DrawInRange(d)
    modifies timer
    ensures timer.Valid()
    ensures timer.elapsedMs + ShootPeriodMs * timer.timesFinishedThisTick == old(timer.elapsedMs) + deltaMs
    ensures |cmds| <= 1
    ensures cmds != [] <==> old(timer.elapsedMs) + deltaMs >= ShootPeriodMs
    ensures cmds == if timer.JustFinished() then [Spawn(BallEntity(d))] else []
  {
    timer.Tick(deltaMs);
    if timer.JustFinished() {
      var colour := Colours[d.colourIndex];
      cmds := [Spawn(Entity(Sphere(d.radius, colour, Vec3(d.curve, 0.0, d.speed)),
                            {Ball, LevelUnload},
                            Vec3(d.offsetX, 2.5, 58.0)))];
    } else {
      cmds := [];
    }
  }

  // ---------------------------------------------------------------- sweep of fallen bodies

  /** The height at or below which a ball or pin counts as fallen. */
  const FallThreshold: real := -5.0

  /** The entities the sweep's query matches: `Or<(With<Ball>, With<Pin>)>`. */
  function BallOrPinIds(rows: map<EntityId, Entity>): set<EntityId>
  {
    set id | id in rows && (Ball in rows[id].tags || Pin in rows[id].tags)
  }

  /** The balls and pins at or below the threshold. */
  function FallenIds(rows: map<EntityId, Entity>): set<EntityId>
  {
    set id | id in rows && (Ball in rows[id].tags || Pin in rows[id].tags) && rows[id].pos.y <= FallThreshold
  }

  /** Every entity of `es` stands above the fall threshold. */
  predicate AllStanding(es: seq<Entity>)
  {
    forall k :: 0 <= k < |es| ==> es[k].pos.y > FallThreshold
  }

  /** Nothing `setup` spawns stands at or below the fall threshold. */
  lemma SceneStanding()
    ensures AllStanding(SceneEntities())
  {
    SceneTagging();
  }

  /** The scene's first pin sits at position 3, after the lane. */
  lemma ScenePin()
    ensures |SceneEntities()| == 15 && Pin in SceneEntities()[3].tags
  {
    SceneTagging();
  }

  /** `despawn_fallen`: queues one despawn for each fallen ball or pin and nothing else. */
  method DespawnFallen(rows: map<EntityId, Entity>) returns (cmds: seq<Command>)
    ensures OnlyDespawns(cmds)
    ensures DespawnIds(cmds) == FallenIds(rows)
    ensures forall j, k :: 0 <= j < k < |cmds| ==> cmds[j].id != cmds[k].id
  {
    cmds := [];
    var todo := BallOrPinIds(rows);
    while todo != {}
      invariant todo <= BallOrPinIds(rows)
      invariant OnlyDespawns(cmds)
      invariant DespawnIds(cmds) == FallenIds(rows) - todo
      invariant forall k :: 0 <= k < |cmds| ==> cmds[k].id !in todo
      invariant forall j, k :: 0 <= j < k < |cmds| ==> cmds[j].id != cmds[k].id
      decreases todo
    {
      var id :| id in todo;
      if rows[id].pos.y <= FallThreshold {
        DespawnIdsAppend(cmds, id);
        cmds := cmds + [Despawn(id)];
      }
      todo := todo - {id};
    }
  }

  /**
   * Flushing the sweep removes exactly the fallen balls and pins, leaves every other entity as
   * it was, and leaves nothing for a second sweep to remove.
   */
  lemma SweepFlush(t: Table, cmds: seq<Command>)
    requires OnlyDespawns(cmds) && DespawnIds(cmds) == FallenIds(t.rows)
    ensures Run(t, cmds).next == t.next
    ensures forall id :: id in Run(t, cmds).rows <==> id in t.rows && id !in FallenIds(t.rows)
    ensures forall id :: id in Run(t, cmds).rows ==> Run(t, cmds).rows[id] == t.rows[id]
    ensures FallenIds(Run(t, cmds).rows) == {}
  {
    RunDespawns(t, cmds);
  }

  // ---------------------------------------------------------------- end condition

  /** `end_condition`: with no pin left, requests the return to the main menu. */
  method EndCondition(rows: map<EntityId, Entity>, next: NextState)
    modifies next
    ensures TaggedIds(rows, Pin) == {} ==> next.pending == Some(MainMenu)
    ensures TaggedIds(rows, Pin) != {} ==> next.pending == old(next.pending)
  {
    var pins := |TaggedIds(rows, Pin)|;
    if pins == 0 {
      next.Set(MainMenu);
    }
  }

  // ---------------------------------------------------------------- teardown

  /** `cleanup_system::<T>`: queues a despawn for every entity carrying `tag`. */
  method CleanupSystem(rows: map<EntityId, Entity>, tag: Tag) returns (cmds: seq<Command>)
    ensures OnlyDespawns(cmds)
    ensures DespawnIds(cmds) == TaggedIds(rows, tag)
    ensures forall j, k :: 0 <= j < k < |cmds| ==> cmds[j].id != cmds[k].id
  {
    cmds := [];
    var todo := TaggedIds(rows, tag);
    while todo != {}
      invariant todo <= TaggedIds(rows, tag)
      invariant OnlyDespawns(cmds)
      invariant DespawnIds(cmds) == TaggedIds(rows, tag) - todo
      invariant forall k :: 0 <= k < |cmds| ==> cmds[k].id !in todo
      invariant forall j, k :: 0 <= j < k < |cmds| ==> cmds[j].id != cmds[k].id
      decreases todo
    {
      var e :| e in todo;
      DespawnIdsAppend(cmds, e);
      cmds := cmds + [Despawn(e)];
      todo := todo - {e};
    }
  }

  /**
   * Flushing the teardown removes every entity carrying the tag and no other entity, so none
   * carrying it remains.
   */
  lemma TeardownFlush(t: Table, tag: Tag, cmds: seq<Command>)
    requires OnlyDespawns(cmds) && DespawnIds(cmds) == TaggedIds(t.rows, tag)
    ensures Run(t, cmds).next == t.next
    ensures forall id :: id in Run(t, cmds).rows <==> id in t.rows && tag !in t.rows[id].tags
    ensures forall id :: id in Run(t, cmds).rows ==> Run(t, cmds).rows[id] == t.rows[id]
    ensures TaggedIds(Run(t, cmds).rows, tag) == {}
  {
    RunDespawns(t, cmds);
  }
}
