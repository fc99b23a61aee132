/** The Game object and the loops of the main program that drive it, as
    imperative code over the sprite group. Each method is proved to leave
    exactly the state that the matching function of GameLogic describes. */
module GameLoop {
  import opened Geometry
  import opened Sprites
  import opened SpriteGroup
  import GameLogic

  /** Sprite.move for one sprite, running the loops of Shrapnel.move and
      move_polygon; the result is what the sprite leaves in the group. */
  method MoveSprite(h: Host, e: Entity) returns (f: Fate)
    requires !e.Island?
    ensures f == Move(h, e)
  {
    match e
    case Shrapnel(id, friendly, start, contents, iter) =>
      if !(iter > 10) {
        var newContents := AdvanceFragments(contents);
        f := Stays(Shrapnel(id, friendly, start, newContents, iter + 1));
      } else {
        f := Removed;
      }
    case User(id, b) =>
      var t := NextHeading(b);
      var hull := MoveBoatHull(b.hull, Displacement(h, b.movementDir, t));
      f := Stays(User(id, b.(curTurn := t, hull := hull)));
    case Enemy(id, b, target, tag) =>
      var hull := MoveBoatHull(b.hull, Point(0.0, 0.25));
      f := Stays(Enemy(id, b.(hull := hull), target, tag));
    case SinkSpot(_, _, _) =>
      f := SinkMove(e);
    case Shell(_, _, _, _, _) =>
      f := ShellMove(e);
  }

  /** Polygon(move_polygon(get_list_from_polygon(hull), off)). */
  method MoveBoatHull(hull: Polygon, off: Point) returns (r: Polygon)
    ensures r == MoveHull(hull, off)
  {
    var coords := MovePolygon(Ring(hull), off);
    assert MoveHull(hull, off) == FromRing(coords);
    r := FromRing(coords);
  }

  /** get_position / get_polygon_center(get_list_from_polygon(hull)). */
  method HullCenter(hull: Polygon) returns (c: Point)
    ensures c == Center(hull)
  {
    c := GetPolygonCenter(Ring(hull));
  }

  /** The island loop of Game.scroll_map: every island moves by -dy. */
  method ScrollIslands(sprites: seq<Entity>, dy: int) returns (r: seq<Entity>)
    ensures r == GameLogic.ScrollIslands(sprites, dy)
  {
    r := sprites;
    var i := 0;
    while i < |r|
      invariant 0 <= i <= |r| == |sprites|
      invariant forall j :: 0 <= j < i ==> r[j] == GameLogic.Scrolled(sprites[j], dy)
      invariant forall j :: i <= j < |r| ==> r[j] == sprites[j]
    {
      if r[i].Island? {
        r := r[i := r[i].(top := r[i].top - dy)];
      }
      i := i + 1;
    }
    assert r == GameLogic.ScrollIslands(sprites, dy);
  }

  class Game {
    var allSprites: seq<Entity>
    var user: nat
    var nextId: nat
    var draws: nat
    var userScore: int
    var dy: int
    var progress: int
    var level: int

    /** The fields, as the value the GameLogic functions work on. */
    function State(): GameLogic.State
      reads this
    {
      GameLogic.State(allSprites, user, nextId, draws, userScore, dy, progress, level)
    }

    ghost predicate Valid()
      reads this
    {
      GameLogic.Inv(State())
    }

    /** Game.__init__ together with the set-up in main. */
    constructor ()
      ensures State() == GameLogic.Init() && Valid()
    {
      allSprites := [User(0, NewBoat(Point(400.0, 495.0), 1, UserHealth)), Island(1, 200, 200)];
      user, nextId, draws := 0, 2, 0;
      userScore, dy, progress, level := 0, 0, 0, 0;
      GameLogic.InitInv();
    }

    method HandleKeyDown(key: string)
      requires Valid()
      modifies this
      ensures State() == GameLogic.KeyDown(old(State()), key) && Valid()
    {
      ghost var s := State();
      GameLogic.KeyDownFacts(s, key);
      GameLogic.KeptInv(s, GameLogic.KeyDown(s, key).(dy := s.dy));
      match Find(allSprites, user)
      case Some(User(_, b)) =>
        if key == "w" {
          var b1 := StartMove(b, 1);
          allSprites := Replace(allSprites, User(user, b1));
          GameLogic.SetUserFacts(s, b1);
          var c := HullCenter(b1.hull);
          if c.y < ScreenHeight / 2.0 {
            dy := dy - 1;
          }
        } else if key == "s" {
          allSprites := Replace(allSprites, User(user, StartMove(b, -1)));
        } else if key == "a" {
          allSprites := Replace(allSprites, User(user, StartTurn(b, -1)));
        } else if key == "d" {
          allSprites := Replace(allSprites, User(user, StartTurn(b, 1)));
        }
      case _ =>
    }

    method HandleKeyUp(key: string)
      requires Valid()
      modifies this
      ensures State() == GameLogic.KeyUp(old(State()), key) && Valid()
    {
      ghost var s := State();
      GameLogic.KeyUpFacts(s, key);
      GameLogic.KeptInv(s, GameLogic.KeyUp(s, key));
      match Find(allSprites, user)
      case Some(User(_, b)) =>
        if key == "w" {
          allSprites := Replace(allSprites, User(user, EndMove(b, 1)));
        } else if key == "s" {
          allSprites := Replace(allSprites, User(user, EndMove(b, -1)));
        } else if (key == "a" || key == "d") && b.turnBy != 0 {
          allSprites := Replace(allSprites, User(user, EndTurn(b)));
        }
      case _ =>
    }

    /** User.mouse_fire through Boat.fire and start_reload. */
    method MouseFire(h: Host, mouse: Point)
      requires Valid()
      modifies this
      ensures State() == GameLogic.MouseFire(h, old(State()), mouse) && Valid()
    {
      ghost var s := State();
      GameLogic.MouseFireFacts(h, s, mouse);
      GameLogic.KeptInv(s, GameLogic.MouseFire(h, s, mouse));
      match Find(allSprites, user)
      case Some(User(_, b)) =>
        var shell := SpawnShell(h, nextId, true, b.turEnd, mouse);
        allSprites := Add(allSprites, shell);
        nextId := nextId + 1;
        allSprites := Replace(allSprites, User(user, b.(reloading := true)));
      case _ =>
    }

    /** The turret end that Boat.draw records for the sprite `id`. */
    method SetTurretEnd(id: nat, p: Point)
      requires Valid()
      modifies this
      ensures State() == GameLogic.SetTurretEnd(old(State()), id, p) && Valid()
    {
      ghost var s := State();
      GameLogic.SetTurretEndFacts(s, id, p);
      GameLogic.KeptInv(s, GameLogic.SetTurretEnd(s, id, p));
      match Find(allSprites, id)
      case Some(User(i, b)) =>
        allSprites := Replace(allSprites, User(i, b.(turEnd := p)));
      case Some(Enemy(i, b, t, tag)) =>
        allSprites := Replace(allSprites, Enemy(i, b.(turEnd := p), t, tag));
      case _ =>
    }

    /** The ENEMY_RELOAD branch of the event loop. */
    method EnemyReload(tag: int)
      requires Valid()
      modifies this
      ensures State() == GameLogic.EnemyReload(old(State()), tag) && Valid()
    {
      ghost var s := State();
      GameLogic.EnemyReloadFacts(s, tag);
      GameLogic.KeptInv(s, GameLogic.EnemyReload(s, tag));
      var sprites := allSprites;
      var i := 0;
      while i < |sprites|
        invariant 0 <= i <= |sprites| == |allSprites|
        invariant forall j :: 0 <= j < i ==> sprites[j] == GameLogic.Reloaded(allSprites[j], tag)
        invariant forall j :: i <= j < |sprites| ==> sprites[j] == allSprites[j]
      {
        match sprites[i] {
          case Enemy(id, b, t, g) =>
            if g == tag {
              sprites := sprites[i := Enemy(id, StopReload(b), t, g)];
            }
          case _ =>
        }
        i := i + 1;
      }
      assert sprites == GameLogic.ReloadEach(allSprites, tag);
      allSprites := sprites;
    }

    /** Game.scroll_map. */
    method ScrollMap()
      requires Valid()
      modifies this
      ensures State() == GameLogic.ScrollMap(old(State())) && Valid()
    {
      ghost var s := State();
      if dy != 0 {
        progress := progress - dy;
        allSprites := ScrollIslands(allSprites, dy);
      }
      if progress >= 100 && level == 0 {
        allSprites := Add(allSprites, Island(nextId, 0, 0));
        nextId := nextId + 1;
        level := level + 1;
      }
      assert State() == GameLogic.ScrollMap(s);
      GameLogic.ScrollMapFacts(s);
    }

    /** Shell.hit_target: the shrapnel is added and filled, the shell leaves.
        This and the methods down to ShellRound are steps of HandleShells;
        what they keep is stated on the functions they compute. */
    method HitTarget(h: Host, shell: Entity)
      requires shell.Shell?
      modifies this
      ensures State() == GameLogic.HitTarget(h, old(State()), shell)
    {
      var contents := SpawnFragments(h, shell.pos, shell.dir, draws);
      allSprites := Add(allSprites, Shrapnel(nextId, shell.friendly, shell.pos, contents, 0));
      nextId := nextId + 1;
      draws := draws + BurstDraws(h, draws);
      allSprites := Remove(allSprites, shell.id);
    }

    /** Boat.de_spawn and sink for a sunk enemy, and its 5 points. */
    method Sink(id: nat, b: Boat)
      modifies this
      ensures var s := old(State());
              var s2 := GameLogic.Spawn(s, SinkSpot(s.nextId, Center(b.hull), SinkRadius));
              State() == GameLogic.Despawn(s2, id).(score := s2.score + 5)
    {
      var c := HullCenter(b.hull);
      allSprites := Add(allSprites, SinkSpot(nextId, c, SinkRadius));
      nextId := nextId + 1;
      allSprites := Remove(allSprites, id);
      userScore := userScore + 5;
    }

    /** The body of the inner loop of handle_shells. */
    method Resolve(h: Host, shell: Entity, tid: nat)
      requires shell.Shell?
      modifies this
      ensures State() == GameLogic.Resolve(h, old(State()), shell, tid)
    {
      match Find(allSprites, tid) {
        case Some(e) =>
          if e.Enemy? {
            HitEnemy(h, shell, e);
          } else if e.User? {
            if !shell.friendly && h.within(shell.pos, e.boat.hull) {
              HitTarget(h, shell);
              allSprites := Replace(allSprites, User(e.id, TakeDamage(e.boat).boat));
            }
          }
        case None =>
      }
    }

    /** Shell.hit_target on an enemy, take_damage, and sink when it dies. */
    method HitEnemy(h: Host, shell: Entity, e: Entity)
      requires shell.Shell? && e.Enemy?
      modifies this
      ensures State() == GameLogic.HitEnemy(h, old(State()), shell, e)
    {
      if shell.friendly && h.within(shell.pos, e.boat.hull) {
        HitTarget(h, shell);
        var hit := TakeDamage(e.boat);
        if hit.died {
          Sink(e.id, hit.boat);
        } else {
          allSprites := Replace(allSprites, Enemy(e.id, hit.boat, e.target, e.tag));
        }
      }
    }


    /** One round of the outer loop of handle_shells: a shell against every
        sprite of a fresh snapshot of the group. */
    method ShellRound(h: Host, id: nat)
      modifies this
      ensures State() == GameLogic.ShellStep(h, old(State()), id)
    {
      match Find(allSprites, id)
      case Some(e) =>
        if e.Shell? {
          ghost var s0 := State();
          var targets := GameLogic.Ids(allSprites);
          var j := 0;
          while j < |targets|
            invariant 0 <= j <= |targets|
            invariant GameLogic.ShellAgainst(h, State(), e, targets[j..]) == GameLogic.ShellAgainst(h, s0, e, targets)
          {
            assert targets[j..][1..] == targets[j + 1..];
            Resolve(h, e, targets[j]);
            j := j + 1;
          }
        }
      case None =>
    }

    /** Game.handle_shells. */
    method HandleShells(h: Host)
      requires Valid()
      modifies this
      ensures State() == GameLogic.HandleShells(h, old(State())) && Valid()
    {
      ghost var s0 := State();
      GameLogic.HandleShellsFacts(h, s0);
      GameLogic.KeptInv(s0, GameLogic.HandleShells(h, s0));
      var ids := GameLogic.Ids(allSprites);
      var k := 0;
      while k < |ids|
        invariant 0 <= k <= |ids|
        invariant GameLogic.ShellsFrom(h, State(), ids[k..]) == GameLogic.ShellsFrom(h, s0, ids)
      {
        assert ids[k..][1..] == ids[k + 1..];
        ShellRound(h, ids[k]);
        k := k + 1;
      }
    }

    /** Enemy.update and auto_fire for the enemy `id`, a step of MoveAll;
        GameLogic.EnemyUpdateFires states what it does. */
    method EnemyUpdate(h: Host, id: nat)
      modifies this
      ensures State() == GameLogic.EnemyUpdate(h, old(State()), id)
    {
      match Find(allSprites, id)
      case Some(Enemy(i, b, _, tag)) =>
        var target := GameLogic.UserPosition(State());
        var c := HullCenter(b.hull);
        if InRange(c, target) && !b.reloading {
          var shell := SpawnShell(h, nextId, false, b.turEnd, target);
          allSprites := Add(allSprites, shell);
          nextId := nextId + 1;
          allSprites := Replace(allSprites, Enemy(i, b.(reloading := true), target, tag));
        } else {
          allSprites := Replace(allSprites, Enemy(i, b, target, tag));
        }
      case _ =>
    }

    /** The loop at the end of Game.update. */
    method MoveAll(h: Host)
      requires Valid()
      modifies this
      ensures State() == GameLogic.MovePass(h, old(State())) && Valid()
    {
      ghost var s0 := State();
      GameLogic.MovePassFacts(h, s0);
      GameLogic.KeptInv(s0, GameLogic.MovePass(h, s0));
      var ids := GameLogic.Ids(allSprites);
      var k := 0;
      while k < |ids|
        invariant 0 <= k <= |ids|
        invariant GameLogic.MovesFrom(h, State(), ids[k..]) == GameLogic.MovesFrom(h, s0, ids)
      {
        assert ids[k..][1..] == ids[k + 1..];
        var id := ids[k];
        match Find(allSprites, id) {
          case Some(e) =>
            if !e.Island? {
              var f := MoveSprite(h, e);
              match f {
                case Removed => allSprites := Remove(allSprites, id);
                case Stays(e1) => allSprites := Replace(allSprites, e1);
              }
            }
            if e.Enemy? {
              EnemyUpdate(h, id);
            }
          case None =>
        }
        k := k + 1;
      }
    }

    /** Game.update (the dashboard's copy of the health is left out). */
    method Update(h: Host)
      requires Valid()
      modifies this
      ensures State() == GameLogic.Update(h, old(State())) && Valid()
    {
      ghost var s := State();
      GameLogic.UpdateFacts(h, s);
      match Find(allSprites, user) {
        case Some(User(_, b)) =>
          var c := HullCenter(b.hull);
          if c.y < ScreenHeight / 2.0 && b.movementDir == -1 {
            dy := dy - 1;
          }
        case _ =>
      }
      assert State() == GameLogic.Reverse(s);
      ScrollMap();
      HandleShells(h);
      MoveAll(h);
    }

    /** all_sprites = order_all_sprites(all_sprites). */
    method Reorder()
      requires Valid()
      modifies this
      ensures State() == GameLogic.Reorder(old(State())) && Valid()
    {
      ghost var s := State();
      GameLogic.ReorderFacts(s, user);
      GameLogic.KeptInv(s, GameLogic.Reorder(s));
      allSprites := OrderAllSprites(allSprites);
    }

    /** The main loop after its events: G1.update, then the reorder. */
    method Tick(h: Host)
      requires Valid()
      modifies this
      ensures State() == GameLogic.Tick(h, old(State())) && Valid()
    {
      Update(h);
      Reorder();
    }
  }
}
