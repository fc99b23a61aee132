/** What one frame of the game does to the whole world, stated as functions
    of the world's state: the keyboard and mouse handlers, the island
    scroll, shell resolution, the move loop, the enemies' reload events, and
    Game.update, with the invariants each of them keeps. */
module GameLogic {
  import opened Geometry
  import opened Sprites
  import opened SpriteGroup

  /** The sprite group together with the fields of the Game object: the
      user's identity, the next fresh identity, how many random draws have
      been taken, and user_score, dy, progress, level. */
  datatype State = State(sprites: seq<Entity>, user: nat, nextId: nat, draws: nat,
                         score: int, dy: int, progress: int, level: int)

  /** Identities are distinct and below nextId, and the user is in the group. */
  ghost predicate Wf(s: State) {
    Unique(s.sprites) && Below(s.sprites, s.nextId) &&
    Find(s.sprites, s.user).Some? && Find(s.sprites, s.user).value.User?
  }

  /** The user's boat (there is always one in a well-formed state). */
  function UserBoat(s: State): Option<Boat> {
    match Find(s.sprites, s.user)
    case Some(User(_, b)) => Some(b)
    case _ => None
  }

  /** User.get_position: the centre of the user's hull. */
  function UserPosition(s: State): Point {
    match UserBoat(s)
    case Some(b) => Center(b.hull)
    case None => Origin
  }

  // ------------------------------------------------- group-level operations

  /** all_sprites.add of a new sprite, which takes the next identity. */
  function Spawn(s: State, e: Entity): State {
    s.(sprites := Add(s.sprites, e), nextId := s.nextId + 1)
  }

  /** all_sprites.remove. */
  function Despawn(s: State, id: nat): State {
    s.(sprites := Remove(s.sprites, id))
  }

  /** A member's fields updated in place. */
  function SetSprite(s: State, e: Entity): State {
    s.(sprites := Replace(s.sprites, e))
  }

  lemma SpawnFacts(s: State, e: Entity)
    requires Wf(s) && e.id == s.nextId
    ensures var r := Spawn(s, e);
            Wf(r) && r.user == s.user && r.sprites == s.sprites + [e] &&
            Count(r.sprites, IslandKind) == Count(s.sprites, IslandKind) + (if KindOf(e) == IslandKind then 1 else 0) &&
            Count(r.sprites, EnemyKind) == Count(s.sprites, EnemyKind) + (if KindOf(e) == EnemyKind then 1 else 0)
  {
    AddKeeps(s.sprites, e, s.nextId);
    FindAppend(s.sprites, e, s.user);
    OfKindAppend(s.sprites, e, IslandKind);
    OfKindAppend(s.sprites, e, EnemyKind);
  }

  lemma DespawnFacts(s: State, id: nat)
    requires Wf(s) && Find(s.sprites, id).Some? && id != s.user
    ensures var r := Despawn(s, id);
            Wf(r) && r.user == s.user && r.nextId == s.nextId && Find(r.sprites, id).None? &&
            Count(r.sprites, IslandKind) == Count(s.sprites, IslandKind) - (if KindOf(Find(s.sprites, id).value) == IslandKind then 1 else 0) &&
            Count(r.sprites, EnemyKind) == Count(s.sprites, EnemyKind) - (if KindOf(Find(s.sprites, id).value) == EnemyKind then 1 else 0)
  {
    RemoveKeeps(s.sprites, id, s.nextId);
    FindRemove(s.sprites, id, s.user);
    FindRemove(s.sprites, id, id);
    CountRemove(s.sprites, id, IslandKind);
    CountRemove(s.sprites, id, EnemyKind);
  }

  lemma SetSpriteFacts(s: State, e: Entity)
    requires Wf(s) && Find(s.sprites, e.id).Some? && KindOf(e) == KindOf(Find(s.sprites, e.id).value)
    ensures var r := SetSprite(s, e);
            Wf(r) && r.user == s.user && r.nextId == s.nextId && Find(r.sprites, e.id) == Some(e) &&
            Count(r.sprites, IslandKind) == Count(s.sprites, IslandKind) &&
            Count(r.sprites, EnemyKind) == Count(s.sprites, EnemyKind)
  {
    ReplaceKeeps(s.sprites, e, s.nextId);
    FindReplace(s.sprites, e, s.user);
    FindReplace(s.sprites, e, e.id);
    CountReplace(s.sprites, e, IslandKind);
    CountReplace(s.sprites, e, EnemyKind);
  }

  /** The user sprite with a new boat. */
  function SetUser(s: State, b: Boat): State {
    SetSprite(s, User(s.user, b))
  }

  lemma SetUserFacts(s: State, b: Boat)
    requires Wf(s)
    ensures var r := SetUser(s, b);
            Wf(r) && UserBoat(r) == Some(b) && r.user == s.user && r.nextId == s.nextId &&
            Count(r.sprites, IslandKind) == Count(s.sprites, IslandKind) &&
            Count(r.sprites, EnemyKind) == Count(s.sprites, EnemyKind)
  {
    SetSpriteFacts(s, User(s.user, b));
  }

  /** Setting the user's boat leaves every other sprite as it was. */
  lemma SetUserOthers(s: State, b: Boat)
    ensures forall j :: j != s.user ==> Find(SetUser(s, b).sprites, j) == Find(s.sprites, j)
  {
    forall j | j != s.user
      ensures Find(SetUser(s, b).sprites, j) == Find(s.sprites, j)
    {
      FindReplaceOther(s.sprites, User(s.user, b), j);
    }
  }

  /** A sprite's identity is below the next fresh one, and nothing has that. */
  lemma FreshId(sp: seq<Entity>, n: nat, j: nat)
    requires Below(sp, n)
    ensures Find(sp, n).None?
    ensures Find(sp, j).Some? ==> j < n
  {
    FindNone(sp, n);
    FindIn(sp, j);
  }

  // ---------------------------------------------------------------- input

  /** Game.handle_key_down: 'w' moves forwards (and scrolls a step when the
      user is in the upper half), 's' backwards, 'a' and 'd' turn. */
  function KeyDown(s: State, key: string): State {
    match UserBoat(s)
    case None => s
    case Some(b) =>
      if key == "w" then
        var s1 := SetUser(s, StartMove(b, 1));
        if UserPosition(s1).y < ScreenHeight / 2.0 then s1.(dy := s1.dy - 1) else s1
      else if key == "s" then SetUser(s, StartMove(b, -1))
      else if key == "a" then SetUser(s, StartTurn(b, -1))
      else if key == "d" then SetUser(s, StartTurn(b, 1))
      else s
  }

  /** Game.handle_key_up: a 'w' or 's' release ends that direction only;
      an 'a' or 'd' release ends whatever turn is under way. */
  function KeyUp(s: State, key: string): State {
    match UserBoat(s)
    case None => s
    case Some(b) =>
      if key == "w" then SetUser(s, EndMove(b, 1))
      else if key == "s" then SetUser(s, EndMove(b, -1))
      else if (key == "a" || key == "d") && b.turnBy != 0 then SetUser(s, EndTurn(b))
      else s
  }

  /** A key press changes only the user's controls and, for a 'w' press,
      lowers dy by at most one; the group keeps its shape. */
  lemma KeyDownFacts(s: State, key: string)
    requires Wf(s)
    ensures var d := KeyDown(s, key);
            Kept(s, d.(dy := s.dy)) && s.dy - 1 <= d.dy <= s.dy && d.score == s.score
  {
    var b := UserBoat(s).value;
    if key == "w" {
      SetUserFacts(s, StartMove(b, 1));
    } else if key == "s" {
      SetUserFacts(s, StartMove(b, -1));
    } else if key == "a" {
      SetUserFacts(s, StartTurn(b, -1));
    } else if key == "d" {
      SetUserFacts(s, StartTurn(b, 1));
    }
  }

  /** A key release changes only the user's controls. */
  lemma KeyUpFacts(s: State, key: string)
    requires Wf(s)
    ensures var u := KeyUp(s, key);
            Kept(s, u) && u.score == s.score
  {
    var b := UserBoat(s).value;
    if key == "w" {
      SetUserFacts(s, EndMove(b, 1));
    } else if key == "s" {
      SetUserFacts(s, EndMove(b, -1));
    } else if (key == "a" || key == "d") && b.turnBy != 0 {
      SetUserFacts(s, EndTurn(b));
    }
  }

  /** What each key press does to the user: 'w' and 's' set the direction
      of motion, 'a' and 'd' the turn, and any other key changes nothing;
      dy falls by one exactly on a 'w' press with the user's centre in the
      upper half of the screen; no other sprite is touched. */
  lemma KeyDownEffect(s: State, key: string)
    requires Wf(s)
    ensures var d, b := KeyDown(s, key), UserBoat(s).value;
            (key == "w" ==> UserBoat(d) == Some(StartMove(b, 1))) &&
            (key == "s" ==> UserBoat(d) == Some(StartMove(b, -1))) &&
            (key == "a" ==> UserBoat(d) == Some(StartTurn(b, -1))) &&
            (key == "d" ==> UserBoat(d) == Some(StartTurn(b, 1))) &&
            (key != "w" && key != "s" && key != "a" && key != "d" ==> d == s) &&
            (d.dy == s.dy - 1 <==> key == "w" && Center(b.hull).y < ScreenHeight / 2.0) &&
            (forall j :: j != s.user ==> Find(d.sprites, j) == Find(s.sprites, j))
  {
    var b := UserBoat(s).value;
    if key == "w" || key == "s" || key == "a" || key == "d" {
      var nb := if key == "w" then StartMove(b, 1) else if key == "s" then StartMove(b, -1)
                else if key == "a" then StartTurn(b, -1) else StartTurn(b, 1);
      SetUserFacts(s, nb);
      SetUserOthers(s, nb);
    }
  }

  /** What each key release does to the user: 'w' and 's' end that
      direction of motion, 'a' and 'd' end any turn, and any other key (or
      a turn release with no turn under way) changes nothing; dy is never
      touched, nor any other sprite. */
  lemma KeyUpEffect(s: State, key: string)
    requires Wf(s)
    ensures var u, b := KeyUp(s, key), UserBoat(s).value;
            (key == "w" ==> UserBoat(u) == Some(EndMove(b, 1))) &&
            (key == "s" ==> UserBoat(u) == Some(EndMove(b, -1))) &&
            (key == "a" || key == "d" ==> UserBoat(u) == Some(EndTurn(b))) &&
            ((key == "a" || key == "d") && b.turnBy == 0 ==> u == s) &&
            (key != "w" && key != "s" && key != "a" && key != "d" ==> u == s) &&
            u.dy == s.dy &&
            (forall j :: j != s.user ==> Find(u.sprites, j) == Find(s.sprites, j))
  {
    var b := UserBoat(s).value;
    if key == "w" || key == "s" || ((key == "a" || key == "d") && b.turnBy != 0) {
      var nb := if key == "w" then EndMove(b, 1) else if key == "s" then EndMove(b, -1) else EndTurn(b);
      SetUserFacts(s, nb);
      SetUserOthers(s, nb);
    }
  }

  /** Releasing 'w' (or 's') stops the user exactly when it was moving that
      way or already still, and otherwise changes nothing; only the
      direction of motion is ever touched. */
  lemma KeyUpMove(s: State, key: string)
    requires Wf(s) && (key == "w" || key == "s")
    ensures var u := KeyUp(s, key);
            var released := if key == "w" then 1 else -1;
            Wf(u) && UserBoat(u).Some? &&
            var b, b1 := UserBoat(s).value, UserBoat(u).value;
            (b1.movementDir == 0 <==> b.movementDir == released || b.movementDir == 0) &&
            (b.movementDir != released ==> b1 == b) &&
            b1.(movementDir := b.movementDir) == b
  {
    var b := UserBoat(s).value;
    SetUserFacts(s, EndMove(b, if key == "w" then 1 else -1));
  }

  /** Releasing either turn key ends whatever turn is under way (a right
      turn on an 'a' release included) and touches nothing else. */
  lemma KeyUpTurn(s: State, key: string)
    requires Wf(s) && (key == "a" || key == "d")
    ensures var u := KeyUp(s, key);
            Wf(u) && UserBoat(u).Some? &&
            var b, b1 := UserBoat(s).value, UserBoat(u).value;
            b1.turnBy == 0 && b1.(turnBy := b.turnBy) == b
  {
    var b := UserBoat(s).value;
    SetUserFacts(s, EndTurn(b));
  }

  /** Pressing 'w', then 's', then releasing 'w' leaves the user reversing:
      the stale release does not stop it. */
  lemma StaleReleaseKeepsReversing(s: State)
    requires Wf(s)
    ensures var r := KeyUp(KeyDown(KeyDown(s, "w"), "s"), "w");
            UserBoat(r).Some? && UserBoat(r).value.movementDir == -1
  {
    var b := UserBoat(s).value;
    SetUserFacts(s, StartMove(b, 1));
    var s1 := KeyDown(s, "w");
    assert Wf(s1) by {
      KeyDownFacts(s, "w");
    }
    var b1 := UserBoat(s1).value;
    SetUserFacts(s1, StartMove(b1, -1));
    var s2 := KeyDown(s1, "s");
    KeyUpMove(s2, "w");
  }

  /** User.mouse_fire: a friendly shell from the user's turret end towards
      the mouse; no reload check. */
  function MouseFire(h: Host, s: State, mouse: Point): State {
    match UserBoat(s)
    case None => s
    case Some(b) =>
      var (nb, shell) := Fire(h, b, true, mouse, s.nextId);
      SetUser(Spawn(s, shell), nb)
  }

  lemma MouseFireFacts(h: Host, s: State, mouse: Point)
    requires Wf(s)
    ensures var r := MouseFire(h, s, mouse);
            Kept(s, r) && r.score == s.score && r.nextId == s.nextId + 1 &&
            Find(r.sprites, s.nextId) == Some(SpawnShell(h, s.nextId, true, UserBoat(s).value.turEnd, mouse)) &&
            UserBoat(r) == Some(UserBoat(s).value.(reloading := true)) &&
            Count(r.sprites, ShellKind) == Count(s.sprites, ShellKind) + 1
  {
    var b := UserBoat(s).value;
    var (nb, shell) := Fire(h, b, true, mouse, s.nextId);
    SpawnFacts(s, shell);
    var s1 := Spawn(s, shell);
    FindAppend(s.sprites, shell, shell.id);
    OfKindAppend(s.sprites, shell, ShellKind);
    SetUserFacts(s1, nb);
    FindReplace(s1.sprites, User(s.user, nb), shell.id);
    CountReplace(s1.sprites, User(s.user, nb), ShellKind);
  }

  /** set_tur_end_pos, with the turret end worked out by the caller. */
  function SetTurretEnd(s: State, id: nat, p: Point): State {
    match Find(s.sprites, id)
    case Some(User(i, b)) => SetSprite(s, User(i, b.(turEnd := p)))
    case Some(Enemy(i, b, t, tag)) => SetSprite(s, Enemy(i, b.(turEnd := p), t, tag))
    case _ => s
  }

  /** stop_reload on a sprite when it is an enemy whose id field is `tag`. */
  function Reloaded(e: Entity, tag: int): Entity {
    match e
    case Enemy(id, b, t, g) => if g == tag then Enemy(id, StopReload(b), t, g) else e
    case _ => e
  }

  /** The ENEMY_RELOAD event: every enemy whose id field matches stops
      reloading. */
  function ReloadEach(sprites: seq<Entity>, tag: int): (r: seq<Entity>)
    ensures |r| == |sprites| && forall i :: 0 <= i < |sprites| ==> r[i] == Reloaded(sprites[i], tag)
  {
    if sprites == [] then [] else [Reloaded(sprites[0], tag)] + ReloadEach(sprites[1..], tag)
  }

  // --------------------------------------------------------------- scroll

  /** Island.move(0, -dy) on a sprite when it is an island. */
  function Scrolled(e: Entity, dy: int): Entity {
    if e.Island? then e.(top := e.top - dy) else e
  }

  /** Every island moved by -dy, everything else as it was. */
  function ScrollIslands(sprites: seq<Entity>, dy: int): (r: seq<Entity>)
    ensures |r| == |sprites| && forall i :: 0 <= i < |sprites| ==> r[i] == Scrolled(sprites[i], dy)
  {
    if sprites == [] then [] else [Scrolled(sprites[0], dy)] + ScrollIslands(sprites[1..], dy)
  }

  /** Game.scroll_map. */
  function ScrollMap(s: State): State {
    var s1 := if s.dy != 0 then s.(progress := s.progress - s.dy, sprites := ScrollIslands(s.sprites, s.dy)) else s;
    if s1.progress >= 100 && s1.level == 0 then
      Spawn(s1, Island(s1.nextId, 0, 0)).(level := s1.level + 1)
    else s1
  }

  /** Mapping sprites without touching identities or classes preserves
      well-formedness and the counts of islands and enemies. */
  lemma SameShape(s: State, sprites: seq<Entity>)
    requires Wf(s) && |sprites| == |s.sprites|
    requires forall i :: 0 <= i < |sprites| ==> sprites[i].id == s.sprites[i].id && KindOf(sprites[i]) == KindOf(s.sprites[i])
    ensures Wf(s.(sprites := sprites))
    ensures Count(sprites, IslandKind) == Count(s.sprites, IslandKind)
    ensures Count(sprites, EnemyKind) == Count(s.sprites, EnemyKind)
  {
    FindIn(s.sprites, s.user);
    var i :| 0 <= i < |s.sprites| && s.sprites[i] == Find(s.sprites, s.user).value;
    FindUnique(s.sprites, i);
    assert Unique(sprites);
    FindUnique(sprites, i);
    SameKindsSameCount(sprites, s.sprites, IslandKind);
    SameKindsSameCount(sprites, s.sprites, EnemyKind);
  }

  /** The level flag tracks whether progress has reached 100. */
  ghost predicate LevelTracks(s: State) {
    s.level == if s.progress >= 100 then 1 else 0
  }

  /** scroll_map moves progress by -dy, so with dy never positive progress
      never falls; the second island appears once, exactly when the level
      goes from 0 to 1, and nothing else is added or removed. */
  lemma ScrollMapFacts(s: State)
    requires Wf(s) && s.dy <= 0 && LevelTracks(s)
    ensures var r := ScrollMap(s);
            Wf(r) && LevelTracks(r) && r.progress == s.progress - s.dy >= s.progress &&
            r.dy == s.dy && r.score == s.score && r.user == s.user && r.nextId >= s.nextId &&
            Count(r.sprites, IslandKind) == Count(s.sprites, IslandKind) + r.level - s.level &&
            Count(r.sprites, EnemyKind) == Count(s.sprites, EnemyKind) &&
            (s.level == 1 ==> r.level == 1) &&
            r.sprites == (if s.dy != 0 then ScrollIslands(s.sprites, s.dy) else s.sprites) +
                         (if r.level > s.level then [Island(s.nextId, 0, 0)] else [])
  {
    var s1 := if s.dy != 0 then s.(progress := s.progress - s.dy, sprites := ScrollIslands(s.sprites, s.dy)) else s;
    SameShape(s, s1.sprites);
    assert Wf(s1);
    if s1.progress >= 100 && s1.level == 0 {
      SpawnFacts(s1, Island(s1.nextId, 0, 0));
    }
  }

  // ---------------------------------------------------------------- shells

  /** Shell.hit_target: a burst where the shell is, then the shell leaves. */
  function HitTarget(h: Host, s: State, shell: Entity): State
    requires shell.Shell?
  {
    var burst := Shrapnel(s.nextId, shell.friendly, shell.pos, Burst(h, shell.pos, shell.dir, s.draws), 0);
    var s1 := Spawn(s, burst).(draws := s.draws + BurstDraws(h, s.draws));
    Despawn(s1, shell.id)
  }

  /** The inner step of handle_shells: the shell against one sprite. */
  function Resolve(h: Host, s: State, shell: Entity, tid: nat): State
    requires shell.Shell?
  {
    match Find(s.sprites, tid)
    case Some(e) =>
      if e.Enemy? then HitEnemy(h, s, shell, e)
      else if e.User? then HitUser(h, s, shell, e)
      else s
    case None => s
  }

  /** A friendly shell inside an enemy's hull bursts and damages it; an
      enemy that dies sinks (a sink spot at its centre), leaves the group
      and scores 5. */
  function HitEnemy(h: Host, s: State, shell: Entity, e: Entity): State
    requires shell.Shell? && e.Enemy?
  {
    if shell.friendly && h.within(shell.pos, e.boat.hull) then
      var s1 := HitTarget(h, s, shell);
      var hit := TakeDamage(e.boat);
      if hit.died then
        var s2 := Spawn(s1, SinkSpot(s1.nextId, Center(hit.boat.hull), SinkRadius));
        Despawn(s2, e.id).(score := s2.score + 5)
      else SetSprite(s1, Enemy(e.id, hit.boat, e.target, e.tag))
    else s
  }

  /** A hostile shell inside the user's hull bursts and damages the user. */
  function HitUser(h: Host, s: State, shell: Entity, e: Entity): State
    requires shell.Shell? && e.User?
  {
    if !shell.friendly && h.within(shell.pos, e.boat.hull) then
      SetSprite(HitTarget(h, s, shell), User(e.id, TakeDamage(e.boat).boat))
    else s
  }

  /** The inner loop: the shell against each sprite of the snapshot. */
  function ShellAgainst(h: Host, s: State, shell: Entity, tids: seq<nat>): State
    requires shell.Shell?
    decreases |tids|
  {
    if tids == [] then s else ShellAgainst(h, Resolve(h, s, shell, tids[0]), shell, tids[1..])
  }

  /** The identities of the group, in order: the snapshot a for loop walks. */
  function Ids(sprites: seq<Entity>): (r: seq<nat>)
    ensures |r| == |sprites| && forall i :: 0 <= i < |sprites| ==> r[i] == sprites[i].id
  {
    if sprites == [] then [] else [sprites[0].id] + Ids(sprites[1..])
  }

  /** The outer step: a shell (looked up live) against the current group. */
  function ShellStep(h: Host, s: State, id: nat): State {
    match Find(s.sprites, id)
    case Some(e) => if e.Shell? then ShellAgainst(h, s, e, Ids(s.sprites)) else s
    case None => s
  }

  function ShellsFrom(h: Host, s: State, ids: seq<nat>): State
    decreases |ids|
  {
    if ids == [] then s else ShellsFrom(h, ShellStep(h, s, ids[0]), ids[1..])
  }

  /** Game.handle_shells. */
  function HandleShells(h: Host, s: State): State {
    ShellsFrom(h, s, Ids(s.sprites))
  }

  /** What a part of a frame keeps: well-formedness, the user's identity,
      the scroll fields, the islands, and the score, which rises by exactly
      5 for every enemy that left the group. */
  ghost predicate Kept(a: State, b: State) {
    Wf(b) && b.user == a.user && b.nextId >= a.nextId &&
    b.dy == a.dy && b.progress == a.progress && b.level == a.level &&
    Count(b.sprites, IslandKind) == Count(a.sprites, IslandKind) &&
    Count(b.sprites, EnemyKind) <= Count(a.sprites, EnemyKind) &&
    b.score - a.score == 5 * (Count(a.sprites, EnemyKind) - Count(b.sprites, EnemyKind))
  }

  lemma KeptTrans(a: State, b: State, c: State)
    requires Kept(a, b) && Kept(b, c)
    ensures Kept(a, c)
  {
  }

  /** The identity `id` holds no sprite, or a shell. */
  ghost predicate ShellSlot(s: State, id: nat) {
    Find(s.sprites, id).None? || Find(s.sprites, id).value.Shell?
  }

  lemma HitTargetFacts(h: Host, s: State, shell: Entity)
    requires Wf(s) && shell.Shell? && shell.id < s.nextId && ShellSlot(s, shell.id)
    ensures var r := HitTarget(h, s, shell);
            Kept(s, r) && r.score == s.score && Find(r.sprites, shell.id).None? &&
            OfKind(r.sprites, EnemyKind) == OfKind(s.sprites, EnemyKind) && r.nextId == s.nextId + 1 &&
            Find(r.sprites, s.nextId) == Some(Shrapnel(s.nextId, shell.friendly, shell.pos, Burst(h, shell.pos, shell.dir, s.draws), 0))
  {
    var burst := Shrapnel(s.nextId, shell.friendly, shell.pos, Burst(h, shell.pos, shell.dir, s.draws), 0);
    SpawnFacts(s, burst);
    OfKindAppend(s.sprites, burst, EnemyKind);
    var s1 := Spawn(s, burst).(draws := s.draws + BurstDraws(h, s.draws));
    assert Wf(s1);
    FindAppend(s.sprites, burst, shell.id);
    FreshId(s.sprites, s.nextId, s.nextId);
    FindAppend(s.sprites, burst, s.nextId);
    FindRemove(s1.sprites, shell.id, s.nextId);
    if Find(s1.sprites, shell.id).Some? {
      DespawnFacts(s1, shell.id);
    } else {
      FindRemove(s1.sprites, shell.id, shell.id);
    }
    OfKindRemove(s1.sprites, shell.id, EnemyKind);
  }

  /** hit_target leaves every other sprite that was there in place. */
  lemma HitTargetFind(h: Host, s: State, shell: Entity, j: nat)
    requires shell.Shell? && j != shell.id && Find(s.sprites, j).Some?
    ensures Find(HitTarget(h, s, shell).sprites, j) == Find(s.sprites, j)
  {
    var burst := Shrapnel(s.nextId, shell.friendly, shell.pos, Burst(h, shell.pos, shell.dir, s.draws), 0);
    FindAppend(s.sprites, burst, j);
    FindRemove(Spawn(s, burst).sprites, shell.id, j);
  }

  /** A shell against an enemy: only a friendly shell inside the hull hits;
      the enemy loses 10 health, and when that kills it a sink spot takes
      its place and the score rises by 5. The user is never touched. */
  lemma HitEnemyFacts(h: Host, s: State, shell: Entity, e: Entity)
    requires Wf(s) && shell.Shell? && shell.id < s.nextId && ShellSlot(s, shell.id)
    requires e.Enemy? && Find(s.sprites, e.id) == Some(e)
    ensures var r := HitEnemy(h, s, shell, e);
            Kept(s, r) && shell.id < r.nextId && ShellSlot(r, shell.id) &&
            Find(r.sprites, s.user) == Find(s.sprites, s.user) &&
            (!shell.friendly ==> r == s)
  {
    if shell.friendly && h.within(shell.pos, e.boat.hull) {
      if e.boat.health <= 10 {
        EnemySunk(h, s, shell, e);
      } else {
        EnemyDamaged(h, s, shell, e);
      }
    }
  }

  /** What a shell does to an enemy. Unless it is friendly and inside the
      hull nothing happens. Otherwise the shell leaves and its burst takes
      the next identity; an enemy with 10 health or less then leaves, a
      sink spot at its centre takes the identity after, one enemy is gone
      and 5 points are scored; a healthier enemy stays with 10 health less
      and the score is unchanged. */
  lemma HitEnemyOutcome(h: Host, s: State, shell: Entity, e: Entity)
    requires Wf(s) && shell.Shell? && shell.id < s.nextId && ShellSlot(s, shell.id)
    requires e.Enemy? && Find(s.sprites, e.id) == Some(e)
    ensures var r := HitEnemy(h, s, shell, e);
            var hits := shell.friendly && h.within(shell.pos, e.boat.hull);
            (!hits ==> r == s) &&
            (hits ==> Find(r.sprites, shell.id).None? &&
                      Find(r.sprites, s.nextId) == Some(Shrapnel(s.nextId, shell.friendly, shell.pos, Burst(h, shell.pos, shell.dir, s.draws), 0))) &&
            (hits && e.boat.health <= 10 ==>
               Find(r.sprites, e.id).None? && r.nextId == s.nextId + 2 &&
               Find(r.sprites, s.nextId + 1) == Some(SinkSpot(s.nextId + 1, Center(e.boat.hull), SinkRadius)) &&
               r.score == s.score + 5 && Count(r.sprites, EnemyKind) == Count(s.sprites, EnemyKind) - 1) &&
            (hits && e.boat.health > 10 ==>
               Find(r.sprites, e.id) == Some(Enemy(e.id, e.boat.(health := e.boat.health - 10), e.target, e.tag)) &&
               r.nextId == s.nextId + 1 && r.score == s.score && Count(r.sprites, EnemyKind) == Count(s.sprites, EnemyKind))
  {
    if shell.friendly && h.within(shell.pos, e.boat.hull) {
      if e.boat.health <= 10 {
        EnemySunk(h, s, shell, e);
      } else {
        EnemyDamaged(h, s, shell, e);
      }
    }
  }

  /** A friendly shell inside the hull of an enemy with 10 health or less
      sinks it: the shell bursts (the burst under the next identity), a
      sink spot at the enemy's centre takes the identity after, the enemy
      goes (one enemy fewer) and 5 points are scored. */
  lemma EnemySunk(h: Host, s: State, shell: Entity, e: Entity)
    requires Wf(s) && shell.Shell? && shell.id < s.nextId && ShellSlot(s, shell.id)
    requires e.Enemy? && Find(s.sprites, e.id) == Some(e)
    requires shell.friendly && h.within(shell.pos, e.boat.hull) && e.boat.health <= 10
    ensures var r := HitEnemy(h, s, shell, e);
            Kept(s, r) && shell.id < r.nextId && Find(r.sprites, shell.id).None? &&
            Find(r.sprites, s.user) == Find(s.sprites, s.user) &&
            Find(r.sprites, s.nextId) == Some(Shrapnel(s.nextId, shell.friendly, shell.pos, Burst(h, shell.pos, shell.dir, s.draws), 0)) &&
            Find(r.sprites, e.id).None? && r.nextId == s.nextId + 2 &&
            Find(r.sprites, s.nextId + 1) == Some(SinkSpot(s.nextId + 1, Center(e.boat.hull), SinkRadius)) &&
            r.score == s.score + 5 && Count(r.sprites, EnemyKind) == Count(s.sprites, EnemyKind) - 1
  {
    assert e.id != s.user && e.id != shell.id;
    FreshId(s.sprites, s.nextId, e.id);
    HitTargetFacts(h, s, shell);
    HitTargetFind(h, s, shell, e.id);
    HitTargetFind(h, s, shell, s.user);
    var s1 := HitTarget(h, s, shell);
    var nb := TakeDamage(e.boat).boat;
    var spot := SinkSpot(s1.nextId, Center(nb.hull), SinkRadius);
    var s2 := Spawn(s1, spot);
    var r := Despawn(s2, e.id).(score := s2.score + 5);
    assert HitEnemy(h, s, shell, e) == r;
    SinkFacts(s1, e.id, nb, shell.id);
    KeptTrans(s, s1, r);
    FreshId(s1.sprites, s1.nextId, e.id);
    FindAppend(s1.sprites, spot, s.nextId);
    FindRemove(s2.sprites, e.id, s.nextId);
  }

  /** A friendly shell inside the hull of an enemy with more than 10 health
      damages it: the shell bursts (the burst under the next identity), the
      enemy stays with 10 health less, and the score is untouched. */
  lemma EnemyDamaged(h: Host, s: State, shell: Entity, e: Entity)
    requires Wf(s) && shell.Shell? && shell.id < s.nextId && ShellSlot(s, shell.id)
    requires e.Enemy? && Find(s.sprites, e.id) == Some(e)
    requires shell.friendly && h.within(shell.pos, e.boat.hull) && e.boat.health > 10
    ensures var r := HitEnemy(h, s, shell, e);
            Kept(s, r) && shell.id < r.nextId && Find(r.sprites, shell.id).None? &&
            Find(r.sprites, s.user) == Find(s.sprites, s.user) &&
            Find(r.sprites, s.nextId) == Some(Shrapnel(s.nextId, shell.friendly, shell.pos, Burst(h, shell.pos, shell.dir, s.draws), 0)) &&
            Find(r.sprites, e.id) == Some(Enemy(e.id, e.boat.(health := e.boat.health - 10), e.target, e.tag)) &&
            r.nextId == s.nextId + 1 && r.score == s.score && Count(r.sprites, EnemyKind) == Count(s.sprites, EnemyKind)
  {
    assert e.id != s.user && e.id != shell.id;
    FreshId(s.sprites, s.nextId, e.id);
    HitTargetFacts(h, s, shell);
    HitTargetFind(h, s, shell, e.id);
    HitTargetFind(h, s, shell, s.user);
    var s1 := HitTarget(h, s, shell);
    var ne := Enemy(e.id, TakeDamage(e.boat).boat, e.target, e.tag);
    assert HitEnemy(h, s, shell, e) == SetSprite(s1, ne);
    SetSpriteFind(s1, ne, s.user, shell.id);
    FindReplace(s1.sprites, ne, e.id);
    FindReplaceOther(s1.sprites, ne, s.nextId);
    KeptTrans(s, s1, SetSprite(s1, ne));
  }


  /** A killed enemy leaves the group, a sink spot at its centre takes the
      next identity, and the score rises by 5. */
  lemma SinkFacts(s: State, tid: nat, b: Boat, gone: nat)
    requires Wf(s) && Find(s.sprites, tid).Some? && Find(s.sprites, tid).value.Enemy?
    requires Find(s.sprites, gone).None? && gone < s.nextId
    ensures var s2 := Spawn(s, SinkSpot(s.nextId, Center(b.hull), SinkRadius));
            var r := Despawn(s2, tid).(score := s2.score + 5);
            Kept(s, r) && Find(r.sprites, s.user) == Find(s.sprites, s.user) && Find(r.sprites, gone).None? &&
            Find(r.sprites, tid).None? && r.nextId == s.nextId + 1 &&
            Find(r.sprites, s.nextId) == Some(SinkSpot(s.nextId, Center(b.hull), SinkRadius)) &&
            r.score == s.score + 5 && Count(r.sprites, EnemyKind) == Count(s.sprites, EnemyKind) - 1
  {
    var spot := SinkSpot(s.nextId, Center(b.hull), SinkRadius);
    AddKeeps(s.sprites, spot, s.nextId);
    SinkSeq(s.sprites, s.nextId, spot, tid, s.user, gone);
  }

  lemma SinkSeq(sp: seq<Entity>, n: nat, spot: Entity, tid: nat, u: nat, gone: nat)
    requires Unique(sp) && Below(sp, n) && spot.id == n && spot.SinkSpot?
    requires Find(sp, tid).Some? && Find(sp, tid).value.Enemy? && Find(sp, u).Some? && Find(sp, u).value.User?
    requires Find(sp, gone).None? && gone < n
    ensures var r := Remove(sp + [spot], tid);
            Unique(r) && Below(r, n + 1) && Find(r, u) == Find(sp, u) && Find(r, gone).None? &&
            Find(r, tid).None? && Find(r, n) == Some(spot) &&
            Count(r, IslandKind) == Count(sp, IslandKind) && Count(r, EnemyKind) == Count(sp, EnemyKind) - 1
  {
    var sp2 := sp + [spot];
    AddKeeps(sp, spot, n);
    FreshId(sp, n, tid);
    FindAppend(sp, spot, n);
    FindRemove(sp2, tid, n);
    FindRemove(sp2, tid, tid);
    FindAppend(sp, spot, tid);
    FindAppend(sp, spot, u);
    FindAppend(sp, spot, gone);
    RemoveKeeps(sp2, tid, n + 1);
    FindRemove(sp2, tid, u);
    FindRemove(sp2, tid, gone);
    CountRemove(sp2, tid, IslandKind);
    CountRemove(sp2, tid, EnemyKind);
    OfKindAppend(sp, spot, IslandKind);
    OfKindAppend(sp, spot, EnemyKind);
  }

  /** Updating one sprite in place leaves the others where they were. */
  lemma SetSpriteFind(s: State, e: Entity, j: nat, k: nat)
    requires Wf(s) && Find(s.sprites, e.id).Some? && KindOf(e) == KindOf(Find(s.sprites, e.id).value)
    requires j != e.id && k != e.id
    ensures var r := SetSprite(s, e);
            Kept(s, r) && Find(r.sprites, j) == Find(s.sprites, j) && Find(r.sprites, k) == Find(s.sprites, k)
  {
    SetSpriteFacts(s, e);
    FindReplace(s.sprites, e, j);
    FindReplace(s.sprites, e, k);
  }

  /** A shell against a user: only a hostile shell inside the hull hits,
      and the user loses 10 health but is never removed; no enemy and not
      the score is touched. */
  lemma HitUserFacts(h: Host, s: State, shell: Entity, e: Entity)
    requires Wf(s) && shell.Shell? && shell.id < s.nextId && ShellSlot(s, shell.id)
    requires e.User? && Find(s.sprites, e.id) == Some(e)
    ensures var r := HitUser(h, s, shell, e);
            Kept(s, r) && shell.id < r.nextId && ShellSlot(r, shell.id) &&
            OfKind(r.sprites, EnemyKind) == OfKind(s.sprites, EnemyKind) && r.score == s.score &&
            (shell.friendly || !h.within(shell.pos, e.boat.hull) ==> r == s) &&
            (!shell.friendly && h.within(shell.pos, e.boat.hull) ==>
               Find(r.sprites, e.id) == Some(User(e.id, e.boat.(health := e.boat.health - 10))) &&
               Find(r.sprites, shell.id).None? && r.nextId == s.nextId + 1 &&
               Find(r.sprites, s.nextId) == Some(Shrapnel(s.nextId, false, shell.pos, Burst(h, shell.pos, shell.dir, s.draws), 0)))
  {
    if !shell.friendly && h.within(shell.pos, e.boat.hull) {
      assert e.id != shell.id;
      FreshId(s.sprites, s.nextId, e.id);
      HitTargetFacts(h, s, shell);
      HitTargetFind(h, s, shell, e.id);
      var s1 := HitTarget(h, s, shell);
      var e1 := User(e.id, TakeDamage(e.boat).boat);
      SetSpriteFind(s1, e1, shell.id, s.nextId);
      FindReplace(s1.sprites, e1, e.id);
      OfKindReplace(s1.sprites, e1, EnemyKind);
      KeptTrans(s, s1, SetSprite(s1, e1));
    }
  }

  /** One shell-against-sprite step keeps what a frame keeps; with a
      friendly shell it leaves the user's sprite alone, with a hostile one
      it leaves every enemy and the score alone. */
  lemma ResolveFacts(h: Host, s: State, shell: Entity, tid: nat)
    requires Wf(s) && shell.Shell? && shell.id < s.nextId && ShellSlot(s, shell.id)
    ensures var r := Resolve(h, s, shell, tid);
            Kept(s, r) && shell.id < r.nextId && ShellSlot(r, shell.id) &&
            (shell.friendly ==> Find(r.sprites, s.user) == Find(s.sprites, s.user)) &&
            (!shell.friendly ==> OfKind(r.sprites, EnemyKind) == OfKind(s.sprites, EnemyKind) && r.score == s.score)
  {
    var f := Find(s.sprites, tid);
    if f.Some? {
      if f.value.Enemy? {
        HitEnemyFacts(h, s, shell, f.value);
      } else if f.value.User? {
        HitUserFacts(h, s, shell, f.value);
      }
    }
  }

  lemma {:induction false} ShellAgainstFacts(h: Host, s: State, shell: Entity, tids: seq<nat>)
    requires Wf(s) && shell.Shell? && shell.id < s.nextId && ShellSlot(s, shell.id)
    ensures var r := ShellAgainst(h, s, shell, tids);
            Kept(s, r) &&
            (shell.friendly ==> Find(r.sprites, s.user) == Find(s.sprites, s.user)) &&
            (!shell.friendly ==> OfKind(r.sprites, EnemyKind) == OfKind(s.sprites, EnemyKind) && r.score == s.score)
    decreases |tids|
  {
    if tids != [] {
      var s1 := Resolve(h, s, shell, tids[0]);
      ResolveFacts(h, s, shell, tids[0]);
      ShellAgainstFacts(h, s1, shell, tids[1..]);
      KeptTrans(s, s1, ShellAgainst(h, s1, shell, tids[1..]));
    }
  }

  /** Every shell in the group was fired by the same side. */
  ghost predicate AllShells(s: State, friendly: bool) {
    forall i :: 0 <= i < |s.sprites| && s.sprites[i].Shell? ==> s.sprites[i].friendly == friendly
  }

  /** The shells of the group after a step are shells that were there before. */
  ghost predicate NoNewShells(a: State, b: State) {
    forall i :: 0 <= i < |b.sprites| && b.sprites[i].Shell? ==> b.sprites[i] in a.sprites
  }

  lemma NoNewShellsTrans(a: State, b: State, c: State)
    requires NoNewShells(a, b) && NoNewShells(b, c)
    ensures NoNewShells(a, c)
  {
  }

  lemma SpawnNoShell(s: State, e: Entity)
    requires !e.Shell?
    ensures NoNewShells(s, Spawn(s, e))
  {
    var r := Spawn(s, e).sprites;
    forall i | 0 <= i < |r| && r[i].Shell? ensures r[i] in s.sprites {
      assert i < |s.sprites| && r[i] == s.sprites[i];
    }
  }

  lemma DespawnNoShell(s: State, id: nat)
    ensures NoNewShells(s, Despawn(s, id))
  {
    RemoveMembers(s.sprites, id);
  }

  lemma SetSpriteNoShell(s: State, e: Entity)
    requires !e.Shell?
    ensures NoNewShells(s, SetSprite(s, e))
  {
    var r := SetSprite(s, e).sprites;
    forall i | 0 <= i < |r| && r[i].Shell? ensures r[i] in s.sprites {
      assert r[i] == s.sprites[i];
    }
  }

  lemma HitTargetNoShell(h: Host, s: State, shell: Entity)
    requires shell.Shell?
    ensures NoNewShells(s, HitTarget(h, s, shell))
  {
    var burst := Shrapnel(s.nextId, shell.friendly, shell.pos, Burst(h, shell.pos, shell.dir, s.draws), 0);
    var s1 := Spawn(s, burst).(draws := s.draws + BurstDraws(h, s.draws));
    SpawnNoShell(s, burst);
    DespawnNoShell(s1, shell.id);
  }

  lemma ResolveNoNewShells(h: Host, s: State, shell: Entity, tid: nat)
    requires shell.Shell?
    ensures NoNewShells(s, Resolve(h, s, shell, tid))
  {
    var f := Find(s.sprites, tid);
    if f.Some? && f.value.Enemy? {
      HitEnemyNoNewShells(h, s, shell, f.value);
    } else if f.Some? && f.value.User? {
      var e := f.value;
      if !shell.friendly && h.within(shell.pos, e.boat.hull) {
        var s1 := HitTarget(h, s, shell);
        HitTargetNoShell(h, s, shell);
        SetSpriteNoShell(s1, User(e.id, TakeDamage(e.boat).boat));
        NoNewShellsTrans(s, s1, SetSprite(s1, User(e.id, TakeDamage(e.boat).boat)));
      }
    }
  }

  lemma HitEnemyNoNewShells(h: Host, s: State, shell: Entity, e: Entity)
    requires shell.Shell? && e.Enemy?
    ensures NoNewShells(s, HitEnemy(h, s, shell, e))
  {
    if shell.friendly && h.within(shell.pos, e.boat.hull) {
      var s1 := HitTarget(h, s, shell);
      HitTargetNoShell(h, s, shell);
      var hit := TakeDamage(e.boat);
      if hit.died {
        var spot := SinkSpot(s1.nextId, Center(hit.boat.hull), SinkRadius);
        var s2 := Spawn(s1, spot);
        SpawnNoShell(s1, spot);
        DespawnNoShell(s2, e.id);
        NoNewShellsTrans(s1, s2, Despawn(s2, e.id));
        NoNewShellsTrans(s, s1, Despawn(s2, e.id));
      } else {
        SetSpriteNoShell(s1, Enemy(e.id, hit.boat, e.target, e.tag));
        NoNewShellsTrans(s, s1, SetSprite(s1, Enemy(e.id, hit.boat, e.target, e.tag)));
      }
    }
  }

  lemma {:induction false} ShellAgainstNoNewShells(h: Host, s: State, shell: Entity, tids: seq<nat>)
    requires shell.Shell?
    ensures NoNewShells(s, ShellAgainst(h, s, shell, tids))
    decreases |tids|
  {
    if tids != [] {
      var s1 := Resolve(h, s, shell, tids[0]);
      ResolveNoNewShells(h, s, shell, tids[0]);
      ShellAgainstNoNewShells(h, s1, shell, tids[1..]);
    }
  }

  /** One outer step of handle_shells, with the side conditions carried
      along: shells only ever leave the group. */
  lemma ShellStepFacts(h: Host, s: State, id: nat, side: bool)
    requires Wf(s)
    ensures var r := ShellStep(h, s, id);
            Kept(s, r) &&
            (AllShells(s, side) ==> AllShells(r, side)) &&
            (AllShells(s, true) ==> Find(r.sprites, s.user) == Find(s.sprites, s.user)) &&
            (AllShells(s, false) ==> OfKind(r.sprites, EnemyKind) == OfKind(s.sprites, EnemyKind) && r.score == s.score)
  {
    var f := Find(s.sprites, id);
    if f.Some? && f.value.Shell? {
      var e := f.value;
      FindIn(s.sprites, id);
      ShellAgainstFacts(h, s, e, Ids(s.sprites));
      ShellAgainstNoNewShells(h, s, e, Ids(s.sprites));
    }
  }

  lemma {:induction false} ShellsFromFacts(h: Host, s: State, ids: seq<nat>, side: bool)
    requires Wf(s)
    ensures var r := ShellsFrom(h, s, ids);
            Kept(s, r) &&
            (AllShells(s, true) && side ==> Find(r.sprites, s.user) == Find(s.sprites, s.user)) &&
            (AllShells(s, false) && !side ==> OfKind(r.sprites, EnemyKind) == OfKind(s.sprites, EnemyKind) && r.score == s.score)
    decreases |ids|
  {
    if ids != [] {
      var s1 := ShellStep(h, s, ids[0]);
      ShellStepFacts(h, s, ids[0], side);
      ShellsFromFacts(h, s1, ids[1..], side);
      KeptTrans(s, s1, ShellsFrom(h, s1, ids[1..]));
    }
  }

  /** handle_shells keeps what a frame keeps: the group stays well formed,
      the user is never removed, and user_score rises by exactly 5 per enemy
      that left the group. When every shell is friendly the user's sprite
      is untouched; when every shell is hostile no enemy is touched and the
      score stays. */
  lemma HandleShellsFacts(h: Host, s: State)
    requires Wf(s)
    ensures var r := HandleShells(h, s);
            Kept(s, r) &&
            (AllShells(s, true) ==> Find(r.sprites, s.user) == Find(s.sprites, s.user)) &&
            (AllShells(s, false) ==> OfKind(r.sprites, EnemyKind) == OfKind(s.sprites, EnemyKind) && r.score == s.score)
  {
    ShellsFromFacts(h, s, Ids(s.sprites), true);
    ShellsFromFacts(h, s, Ids(s.sprites), false);
  }

  // ------------------------------------------------------------ move loop

  /** Enemy.update then auto_fire: aim at where the user is now and fire a
      hostile shell when in range and not reloading. */
  function EnemyUpdate(h: Host, s: State, id: nat): State {
    match Find(s.sprites, id)
    case Some(Enemy(i, b, _, tag)) =>
      var target := UserPosition(s);
      if InRange(Center(b.hull), target) && !b.reloading then
        var (nb, shell) := Fire(h, b, false, target, s.nextId);
        SetSprite(Spawn(s, shell), Enemy(i, nb, target, tag))
      else SetSprite(s, Enemy(i, b, target, tag))
    case _ => s
  }

  /** One pass of the loop in Game.update: every sprite but an island moves
      (and may leave), and an enemy then updates. */
  function MoveStep(h: Host, s: State, id: nat): State {
    match Find(s.sprites, id)
    case None => s
    case Some(e) =>
      var s1 := if e.Island? then s
                else match Move(h, e)
                     case Removed => Despawn(s, id)
                     case Stays(e1) => SetSprite(s, e1);
      if e.Enemy? then EnemyUpdate(h, s1, id) else s1
  }

  function MovesFrom(h: Host, s: State, ids: seq<nat>): State
    decreases |ids|
  {
    if ids == [] then s else MovesFrom(h, MoveStep(h, s, ids[0]), ids[1..])
  }

  /** The loop of Game.update over a snapshot of the group. */
  function MovePass(h: Host, s: State): State {
    MovesFrom(h, s, Ids(s.sprites))
  }

  lemma EnemyUpdateFacts(h: Host, s: State, id: nat)
    requires Wf(s)
    ensures var r := EnemyUpdate(h, s, id);
            Kept(s, r) && r.score == s.score && Count(r.sprites, EnemyKind) == Count(s.sprites, EnemyKind)
  {
    var f := Find(s.sprites, id);
    if f.Some? && f.value.Enemy? {
      var e := f.value;
      var target := UserPosition(s);
      if InRange(Center(e.boat.hull), target) && !e.boat.reloading {
        var (nb, shell) := Fire(h, e.boat, false, target, s.nextId);
        var s1 := Spawn(s, shell);
        SpawnKept(s, shell);
        FindAppend(s.sprites, shell, id);
        SetSpriteKept(s1, Enemy(e.id, nb, target, e.tag));
        KeptTrans(s, s1, SetSprite(s1, Enemy(e.id, nb, target, e.tag)));
      } else {
        SetSpriteKept(s, Enemy(e.id, e.boat, target, e.tag));
      }
    }
  }

  /** The enemy `id` always takes the user's current position as its
      target; it fires exactly when that position is in range and it is not
      reloading, and then a hostile shell from its turret end towards the
      user appears under the next identity and the enemy starts reloading.
      No other sprite changes. */
  lemma EnemyUpdateFires(h: Host, s: State, id: nat)
    requires Wf(s) && Find(s.sprites, id).Some? && Find(s.sprites, id).value.Enemy?
    ensures var e, p, r := Find(s.sprites, id).value, UserPosition(s), EnemyUpdate(h, s, id);
            var fires := InRange(Center(e.boat.hull), p) && !e.boat.reloading;
            (Count(r.sprites, ShellKind) == Count(s.sprites, ShellKind) + 1 <==> fires) &&
            (!fires ==> Count(r.sprites, ShellKind) == Count(s.sprites, ShellKind) && r.nextId == s.nextId &&
                        Find(r.sprites, s.nextId).None?) &&
            (fires ==> r.nextId == s.nextId + 1 &&
                       Find(r.sprites, s.nextId) == Some(SpawnShell(h, s.nextId, false, e.boat.turEnd, p))) &&
            Find(r.sprites, id) == Some(Enemy(id, if fires then e.boat.(reloading := true) else e.boat, p, e.tag)) &&
            (forall j :: j != id && j != s.nextId ==> Find(r.sprites, j) == Find(s.sprites, j))
  {
    var e := Find(s.sprites, id).value;
    var p := UserPosition(s);
    FreshId(s.sprites, s.nextId, id);
    if InRange(Center(e.boat.hull), p) && !e.boat.reloading {
      var (nb, shell) := Fire(h, e.boat, false, p, s.nextId);
      var s1 := Spawn(s, shell);
      var ne := Enemy(id, nb, p, e.tag);
      SpawnFacts(s, shell);
      OfKindAppend(s.sprites, shell, ShellKind);
      FindAppend(s.sprites, shell, id);
      FindAppend(s.sprites, shell, s.nextId);
      CountReplace(s1.sprites, ne, ShellKind);
      FindReplace(s1.sprites, ne, id);
      FindReplace(s1.sprites, ne, s.nextId);
      forall j | j != id && j != s.nextId
        ensures Find(SetSprite(s1, ne).sprites, j) == Find(s.sprites, j)
      {
        FindAppend(s.sprites, shell, j);
        FindReplaceOther(s1.sprites, ne, j);
      }
    } else {
      var ne := Enemy(id, e.boat, p, e.tag);
      CountReplace(s.sprites, ne, ShellKind);
      FindReplace(s.sprites, ne, id);
      FindReplace(s.sprites, ne, s.nextId);
      forall j | j != id
        ensures Find(SetSprite(s, ne).sprites, j) == Find(s.sprites, j)
      {
        FindReplaceOther(s.sprites, ne, j);
      }
    }
  }

  /** Adding a sprite that is neither an island nor an enemy keeps Kept. */
  lemma SpawnKept(s: State, e: Entity)
    requires Wf(s) && e.id == s.nextId && KindOf(e) != IslandKind && KindOf(e) != EnemyKind
    ensures Kept(s, Spawn(s, e)) && Spawn(s, e).score == s.score
  {
    SpawnFacts(s, e);
  }

  /** Replacing a sprite by one of its kind keeps Kept. */
  lemma SetSpriteKept(s: State, e: Entity)
    requires Wf(s) && Find(s.sprites, e.id).Some? && KindOf(e) == KindOf(Find(s.sprites, e.id).value)
    ensures Kept(s, SetSprite(s, e)) && SetSprite(s, e).score == s.score &&
            Count(SetSprite(s, e).sprites, EnemyKind) == Count(s.sprites, EnemyKind)
  {
    SetSpriteFacts(s, e);
  }


  /** A sprite's own move keeps what a frame keeps and never touches the
      score nor removes an enemy or the user. */
  lemma MoveOnlyFacts(h: Host, s: State, id: nat)
    requires Wf(s) && Find(s.sprites, id).Some? && !Find(s.sprites, id).value.Island?
    ensures var r := match Move(h, Find(s.sprites, id).value)
                     case Removed => Despawn(s, id)
                     case Stays(e1) => SetSprite(s, e1);
            Kept(s, r) && r.score == s.score && Count(r.sprites, EnemyKind) == Count(s.sprites, EnemyKind)
  {
    var e := Find(s.sprites, id).value;
    match Move(h, e)
    case Removed =>
      assert id != s.user;
      DespawnFacts(s, id);
    case Stays(e1) =>
      SetSpriteFacts(s, e1);
  }

  lemma MoveStepFacts(h: Host, s: State, id: nat)
    requires Wf(s)
    ensures var r := MoveStep(h, s, id);
            Kept(s, r) && r.score == s.score && Count(r.sprites, EnemyKind) == Count(s.sprites, EnemyKind)
  {
    match Find(s.sprites, id)
    case None =>
    case Some(e) =>
      var s1 := if e.Island? then s
                else match Move(h, e)
                     case Removed => Despawn(s, id)
                     case Stays(e1) => SetSprite(s, e1);
      if !e.Island? {
        MoveOnlyFacts(h, s, id);
      }
      if e.Enemy? {
        EnemyUpdateFacts(h, s1, id);
        KeptTrans(s, s1, EnemyUpdate(h, s1, id));
      }
  }

  lemma {:induction false} MovesFromFacts(h: Host, s: State, ids: seq<nat>)
    requires Wf(s)
    ensures var r := MovesFrom(h, s, ids);
            Kept(s, r) && r.score == s.score && Count(r.sprites, EnemyKind) == Count(s.sprites, EnemyKind)
    decreases |ids|
  {
    if ids != [] {
      var s1 := MoveStep(h, s, ids[0]);
      MoveStepFacts(h, s, ids[0]);
      MovesFromFacts(h, s1, ids[1..]);
      KeptTrans(s, s1, MovesFrom(h, s1, ids[1..]));
    }
  }

  /** The move loop keeps the group well formed and the user in it; it
      neither scores nor removes an enemy. */
  lemma MovePassFacts(h: Host, s: State)
    requires Wf(s)
    ensures var r := MovePass(h, s);
            Kept(s, r) && r.score == s.score && Count(r.sprites, EnemyKind) == Count(s.sprites, EnemyKind)
  {
    MovesFromFacts(h, s, Ids(s.sprites));
  }

  // ---------------------------------------------------------- reload event

  /** The ENEMY_RELOAD handler of the main loop. */
  function EnemyReload(s: State, tag: int): State {
    s.(sprites := ReloadEach(s.sprites, tag))
  }

  /** The reload event keeps what a frame keeps; afterwards no enemy with
      that id field is reloading, and every other sprite is as it was. */
  lemma EnemyReloadFacts(s: State, tag: int)
    requires Wf(s)
    ensures var r := EnemyReload(s, tag);
            Kept(s, r) && r.score == s.score && |r.sprites| == |s.sprites| &&
            (forall i :: 0 <= i < |r.sprites| && r.sprites[i].Enemy? && r.sprites[i].tag == tag ==> !r.sprites[i].boat.reloading) &&
            (forall i :: 0 <= i < |s.sprites| && !(s.sprites[i].Enemy? && s.sprites[i].tag == tag) ==> r.sprites[i] == s.sprites[i])
  {
    SameShape(s, ReloadEach(s.sprites, tag));
  }

  /** set_tur_end_pos keeps what a frame keeps. */
  lemma SetTurretEndFacts(s: State, id: nat, p: Point)
    requires Wf(s)
    ensures var r := SetTurretEnd(s, id, p);
            Kept(s, r) && r.score == s.score
  {
    match Find(s.sprites, id)
    case Some(User(i, b)) => SetSpriteFacts(s, User(i, b.(turEnd := p)));
    case Some(Enemy(i, b, t, tag)) => SetSpriteFacts(s, Enemy(i, b.(turEnd := p), t, tag));
    case _ =>
  }

  // ----------------------------------------------------------------- frame

  /** Game.update: reversing in the upper half lowers dy, then the map
      scrolls, shells are resolved and every sprite moves. */
  function Update(h: Host, s: State): State {
    MovePass(h, HandleShells(h, ScrollMap(Reverse(s))))
  }

  /** The first step of Game.update: a user reversing in the upper half of
      the screen lowers dy by one; nothing else changes. */
  function Reverse(s: State): (r: State)
    ensures r == s.(dy := r.dy) && s.dy - 1 <= r.dy <= s.dy
  {
    match UserBoat(s)
    case Some(b) => if Center(b.hull).y < ScreenHeight / 2.0 && b.movementDir == -1 then s.(dy := s.dy - 1) else s
    case None => s
  }

  /** all_sprites = order_all_sprites(all_sprites), after every update. */
  function Reorder(s: State): State {
    s.(sprites := OrderAll(s.sprites))
  }

  /** Reordering for drawing keeps every sprite once, every lookup, and
      what a frame keeps. */
  lemma ReorderFacts(s: State, id: nat)
    requires Wf(s)
    ensures var r := Reorder(s);
            Kept(s, r) && r.score == s.score && multiset(r.sprites) == multiset(s.sprites) &&
            Find(r.sprites, id) == Find(s.sprites, id)
  {
    var r := OrderAll(s.sprites);
    OrderAllPermutes(s.sprites);
    PermKeeps(r, s.sprites, s.nextId);
    PermFind(r, s.sprites, id);
    PermFind(r, s.sprites, s.user);
    OrderAllStable(s.sprites, IslandKind);
    OrderAllStable(s.sprites, EnemyKind);
  }

  /** What holds between frames: a well-formed group, dy never positive,
      the level flag tracking progress, and one island per level plus the
      first. */
  ghost predicate Inv(s: State) {
    Wf(s) && s.dy <= 0 && LevelTracks(s) && Count(s.sprites, IslandKind) == 1 + s.level
  }

  /** The game as main sets it up: the user at (400, 495) facing up with 150
      health and the island at (200, 200); no enemy. */
  function Init(): (s: State)
    ensures s.score == 0 && s.progress == 0 && s.level == 0 && s.dy == 0
  {
    State([User(0, NewBoat(Point(400.0, 495.0), 1, UserHealth)), Island(1, 200, 200)], 0, 2, 0, 0, 0, 0, 0)
  }

  lemma InitInv()
    ensures Inv(Init()) && Count(Init().sprites, EnemyKind) == 0
  {
    var s := Init();
    assert Find(s.sprites, 0) == Some(s.sprites[0]);
  }

  /** A frame keeps the invariant and the user; progress never falls; the
      score never falls and rises by exactly 5 per enemy sunk. */
  lemma UpdateFacts(h: Host, s: State)
    requires Inv(s)
    ensures var r := Update(h, s);
            Inv(r) && r.user == s.user && r.progress >= s.progress && r.score >= s.score &&
            r.score - s.score == 5 * (Count(s.sprites, EnemyKind) - Count(r.sprites, EnemyKind))
  {
    var s0 := Reverse(s);
    assert Wf(s0) && s0.dy <= 0 && LevelTracks(s0);
    ScrollMapFacts(s0);
    var s1 := ScrollMap(s0);
    assert Inv(s1) && s1.score == s.score && Count(s1.sprites, EnemyKind) == Count(s.sprites, EnemyKind);
    HandleShellsFacts(h, s1);
    var s2 := HandleShells(h, s1);
    MovePassFacts(h, s2);
    var s3 := MovePass(h, s2);
    KeptTrans(s1, s2, s3);
    KeptInv(s1, s3);
    assert Update(h, s) == s3;
  }

  /** Whatever keeps what a frame keeps keeps the invariant. */
  lemma KeptInv(a: State, b: State)
    requires Inv(a) && Kept(a, b)
    ensures Inv(b)
  {
  }

  /** Every input handler keeps the invariant and the score. */
  lemma InputInv(h: Host, s: State, key: string, mouse: Point, tag: int, id: nat, p: Point)
    requires Inv(s)
    ensures Inv(KeyDown(s, key)) && Inv(KeyUp(s, key)) && Inv(MouseFire(h, s, mouse)) &&
            Inv(EnemyReload(s, tag)) && Inv(SetTurretEnd(s, id, p))
  {
    KeyDownFacts(s, key);
    KeptInv(s, KeyDown(s, key).(dy := s.dy));
    KeyUpFacts(s, key);
    KeptInv(s, KeyUp(s, key));
    MouseFireFacts(h, s, mouse);
    KeptInv(s, MouseFire(h, s, mouse));
    EnemyReloadFacts(s, tag);
    KeptInv(s, EnemyReload(s, tag));
    SetTurretEndFacts(s, id, p);
    KeptInv(s, SetTurretEnd(s, id, p));
  }

  /** One pass of the main loop after the events: update, then reorder. */
  function Tick(h: Host, s: State): State {
    Reorder(Update(h, s))
  }

  /** A tick keeps the invariant and the user's sprite identity; progress
      and score never fall, and the score rises by 5 per enemy sunk. */
  lemma TickFacts(h: Host, s: State)
    requires Inv(s)
    ensures var r := Tick(h, s);
            Inv(r) && r.user == s.user && r.progress >= s.progress && r.score >= s.score &&
            r.score - s.score == 5 * (Count(s.sprites, EnemyKind) - Count(r.sprites, EnemyKind))
  {
    UpdateFacts(h, s);
    var u := Update(h, s);
    ReorderFacts(u, u.user);
    KeptInv(u, Reorder(u));
  }
}
