/** The sprites of the game and what each one does on its own: the shell in
    flight, the shrapnel burst, the sink spot, the boats; their per-frame
    moves, their lifetimes, damage, firing and the user's controls. */
module Sprites {
  import opened Geometry

  const ScreenWidth := 800.0
  const ScreenHeight := 600.0
  const FiringSpeed := 5.0

  /** Every foreign service the game calls, given as plain functions:
      shapely's point-in-polygon test, math.sqrt, sine and cosine of an angle
      in degrees, and the random generator, whose k-th draw is
      `randint(k)` (for random.randint(5, 7)) or `random(k)` (random.random()). */
  datatype Host = Host(
    within: (Point, seq<Point>) -> bool,
    sqrt: real -> real,
    sinDeg: real -> real,
    cosDeg: real -> real,
    randint: nat -> int,
    random: nat -> real)

  /** The random draws keep to the ranges Python's random module promises. */
  ghost predicate Fair(h: Host) {
    (forall k :: 5 <= h.randint(k) <= 7) && (forall k :: 0.0 <= h.random(k) < 1.0)
  }

  /** One piece of a shrapnel burst. */
  datatype Fragment = Fragment(pos: Point, dir: Point)

  /** The state shared by both kinds of boat. */
  datatype Boat = Boat(hull: Polygon, curTurn: real, turnBy: int, movementDir: int,
                       turEnd: Point, reloading: bool, health: int)

  /** A sprite of the group. The `id` stands for the object's identity. */
  datatype Entity =
    | Island(id: nat, left: int, top: int)
    | SinkSpot(id: nat, pos: Point, radius: real)
    | Shell(id: nat, friendly: bool, pos: Point, dir: Point, iter: nat)
    | Shrapnel(id: nat, friendly: bool, start: Point, contents: seq<Fragment>, iter: nat)
    | User(id: nat, boat: Boat)
    | Enemy(id: nat, boat: Boat, target: Point, tag: int)

  /** The class of a sprite, as `__class__.__name__` reports it. */
  datatype Kind = IslandKind | SinkSpotKind | UserKind | EnemyKind | ShellKind | ShrapnelKind

  function KindOf(e: Entity): Kind {
    match e
    case Island(_, _, _) => IslandKind
    case SinkSpot(_, _, _) => SinkSpotKind
    case Shell(_, _, _, _, _) => ShellKind
    case Shrapnel(_, _, _, _, _) => ShrapnelKind
    case User(_, _) => UserKind
    case Enemy(_, _, _, _) => EnemyKind
  }

  /** is_friendly: islands and the user are, sink spots and enemies are not,
      shells and shrapnel carry the side of the boat that fired them. */
  function IsFriendly(e: Entity): bool {
    match e
    case Island(_, _, _) => true
    case SinkSpot(_, _, _) => false
    case Shell(_, f, _, _, _) => f
    case Shrapnel(_, f, _, _, _) => f
    case User(_, _) => true
    case Enemy(_, _, _, _) => false
  }

  /** What a move call leaves of a sprite: its new value, or nothing when it
      took itself out of the group. */
  datatype Fate = Stays(e: Entity) | Removed

  function Scale(p: Point, k: real): Point { Point(p.x * k, p.y * k) }

  // ---------------------------------------------------------------- shells

  /** The speed on the iter-th move: firing speed minus iter/300 of it. */
  function ShellSpeed(iter: nat): (v: real)
    ensures v <= 4.0 <==> iter >= 60
    ensures iter <= 60 ==> 4.0 <= v <= FiringSpeed
  {
    FiringSpeed - iter as real / 300.0 * FiringSpeed
  }

  /** clamp_to_screen: on or beyond an edge of the 800x600 screen. */
  predicate OffScreen(p: Point) {
    p.x >= ScreenWidth || p.x <= 0.0 || p.y >= ScreenHeight || p.y <= 0.0
  }

  /** get_vector_length: the length of `d`, by the host's square root. */
  function VectorLength(h: Host, d: Point): real {
    h.sqrt(d.x * d.x + d.y * d.y)
  }

  /** Shell.spawn: a shell at the turret end heading for the target. Its
      direction is the difference scaled down by its length, or the raw
      difference when the length is zero. */
  function SpawnShell(h: Host, id: nat, friendly: bool, from: Point, to: Point): (e: Entity)
    ensures e.Shell? && e.id == id && e.friendly == friendly && e.pos == from && e.iter == 0
    ensures var d, n := Point(to.x - from.x, to.y - from.y), VectorLength(h, Point(to.x - from.x, to.y - from.y));
            (n != 0.0 ==> e.dir.x * n == d.x && e.dir.y * n == d.y) && (n == 0.0 ==> e.dir == d)
  {
    var d := Point(to.x - from.x, to.y - from.y);
    Shell(id, friendly, from, Normalize(d, VectorLength(h, d)), 0)
  }

  /** Shell.move: count the move, leave the group when the speed has fallen
      to 4 or the shell was already at a screen edge, else fly on. */
  function ShellMove(e: Entity): (r: Fate)
    requires e.Shell?
    ensures r.Removed? <==> e.iter + 1 >= 60 || OffScreen(e.pos)
    ensures r.Stays? ==> r.e == e.(iter := e.iter + 1, pos := Plus(e.pos, Scale(e.dir, ShellSpeed(e.iter + 1))))
    ensures r.Stays? ==> 4.0 < ShellSpeed(r.e.iter) <= FiringSpeed
  {
    var it := e.iter + 1;
    var speed := ShellSpeed(it);
    if speed <= 4.0 || OffScreen(e.pos) then Removed
    else Stays(e.(iter := it, pos := Plus(e.pos, Scale(e.dir, speed))))
  }

  // -------------------------------------------------------------- shrapnel

  /** The direction component opposite in sign to the shell's component `c`,
      from a draw `u` in [0, 1). */
  function Scatter(c: real, u: real): real { if c < 0.0 then u else -u }

  /** Shrapnel.spawn: `n` fragments at `start`; fragment i takes draws
      k + 2i (x) and k + 2i + 1 (y). */
  function Fragments(h: Host, start: Point, shellDir: Point, k: nat, n: nat): (r: seq<Fragment>)
    ensures |r| == n
    ensures forall i :: 0 <= i < n ==> r[i].pos == start
    ensures forall i :: 0 <= i < n ==>
              r[i].dir == Point(Scatter(shellDir.x, h.random(k + 2 * i)), Scatter(shellDir.y, h.random(k + 2 * i + 1)))
    decreases n
  {
    if n == 0 then []
    else Fragments(h, start, shellDir, k, n - 1)
         + [Fragment(start, Point(Scatter(shellDir.x, h.random(k + 2 * (n - 1))),
                                  Scatter(shellDir.y, h.random(k + 2 * (n - 1) + 1))))]
  }

  /** The fragment count drawn at `k`, and the fragments drawn after it. */
  function Burst(h: Host, start: Point, shellDir: Point, k: nat): seq<Fragment> {
    var n := h.randint(k);
    if n <= 0 then [] else Fragments(h, start, shellDir, k + 1, n)
  }

  /** How many draws a burst takes from the generator. */
  function BurstDraws(h: Host, k: nat): nat {
    var n := h.randint(k);
    if n <= 0 then 1 else 1 + 2 * n
  }

  /** With a fair generator a burst holds 5 to 7 fragments, all at the
      shell's position, each direction component in [0, 1) where the shell's
      is negative and in (-1, 0] where it is not. */
  lemma BurstShape(h: Host, start: Point, shellDir: Point, k: nat)
    requires Fair(h)
    ensures var b := Burst(h, start, shellDir, k);
            5 <= |b| <= 7 &&
            forall i :: 0 <= i < |b| ==>
              b[i].pos == start &&
              (shellDir.x < 0.0 ==> 0.0 <= b[i].dir.x < 1.0) &&
              (shellDir.x >= 0.0 ==> -1.0 < b[i].dir.x <= 0.0) &&
              (shellDir.y < 0.0 ==> 0.0 <= b[i].dir.y < 1.0) &&
              (shellDir.y >= 0.0 ==> -1.0 < b[i].dir.y <= 0.0)
  {
    var n := h.randint(k);
    assert 5 <= n <= 7;
    var b := Fragments(h, start, shellDir, k + 1, n);
    forall i | 0 <= i < |b|
      ensures (shellDir.x < 0.0 ==> 0.0 <= b[i].dir.x < 1.0) && (shellDir.x >= 0.0 ==> -1.0 < b[i].dir.x <= 0.0)
      ensures (shellDir.y < 0.0 ==> 0.0 <= b[i].dir.y < 1.0) && (shellDir.y >= 0.0 ==> -1.0 < b[i].dir.y <= 0.0)
    {
      var ux, uy := h.random(k + 1 + 2 * i), h.random(k + 1 + 2 * i + 1);
      assert 0.0 <= ux < 1.0 && 0.0 <= uy < 1.0;
    }
  }

  /** The loop of Shrapnel.spawn: append one fragment per round. */
  method SpawnFragments(h: Host, start: Point, shellDir: Point, k: nat) returns (contents: seq<Fragment>)
    ensures contents == Burst(h, start, shellDir, k)
  {
    contents := [];
    var count := h.randint(k);
    var x: nat := 0;
    while x < count
      invariant x <= if count > 0 then count else 0
      invariant contents == Fragments(h, start, shellDir, k + 1, x)
    {
      var d := Point(Scatter(shellDir.x, h.random(k + 1 + 2 * x)), Scatter(shellDir.y, h.random(k + 1 + 2 * x + 1)));
      contents := contents + [Fragment(start, d)];
      x := x + 1;
    }
  }

  /** Every fragment one step along its direction. */
  function Advance(fs: seq<Fragment>): (r: seq<Fragment>)
    ensures |r| == |fs|
    ensures forall i :: 0 <= i < |fs| ==> r[i] == Fragment(Plus(fs[i].pos, fs[i].dir), fs[i].dir)
  {
    if fs == [] then []
    else Advance(fs[..|fs| - 1]) + [Fragment(Plus(fs[|fs| - 1].pos, fs[|fs| - 1].dir), fs[|fs| - 1].dir)]
  }

  /** The loop of Shrapnel.move that builds the new contents. */
  method AdvanceFragments(contents: seq<Fragment>) returns (newContents: seq<Fragment>)
    ensures newContents == Advance(contents)
  {
    newContents := [];
    var i := 0;
    while i < |contents|
      invariant 0 <= i <= |contents|
      invariant newContents == Advance(contents[..i])
    {
      assert contents[..i + 1][..i] == contents[..i];
      var x := contents[i];
      newContents := newContents + [Fragment(Plus(x.pos, x.dir), x.dir)];
      i := i + 1;
    }
    assert contents[..|contents|] == contents;
  }

  /** Shrapnel.move: advance and count while iter is at most 10, else leave. */
  function ShrapnelMove(e: Entity): (r: Fate)
    requires e.Shrapnel?
    ensures r.Removed? <==> e.iter > 10
    ensures r.Stays? ==> r.e == e.(contents := Advance(e.contents), iter := e.iter + 1)
  {
    if !(e.iter > 10) then Stays(e.(contents := Advance(e.contents), iter := e.iter + 1))
    else Removed
  }

  // ------------------------------------------------------------ sink spots

  const SinkRadius := 15.0

  /** Sink_Spot.move: shrink by 0.1 while above 10, by 0.2 after; leave the
      group once the radius is no longer positive. */
  function SinkMove(e: Entity): (r: Fate)
    requires e.SinkSpot?
    ensures var nr := e.radius - (if e.radius > 10.0 then 0.1 else 0.2);
            (r.Removed? <==> nr <= 0.0) && (r.Stays? ==> r.e == e.(radius := nr))
  {
    var nr := e.radius - (if e.radius > 10.0 then 0.1 else 0.2);
    if nr <= 0.0 then Removed else Stays(e.(radius := nr))
  }

  // ----------------------------------------------------------------- boats

  const BoatLength := 50.0
  const BoatWidth := 15.0
  const SternLength := 13.0

  /** Boat.create_hull: a five-vertex outline with the bow at one end; facing
      1 puts the bow up the screen, facing -1 down. */
  function CreateHull(c: Point, facing: int): (hull: Polygon)
    requires facing == 1 || facing == -1
    ensures |hull| == 5
    ensures forall i :: 0 <= i < 5 ==>
              c.x - BoatWidth / 2.0 <= hull[i].x <= c.x + BoatWidth / 2.0 &&
              c.y - BoatLength / 2.0 <= hull[i].y <= c.y + BoatLength / 2.0
    ensures hull[0] == Point(c.x, c.y - facing as real * BoatLength / 2.0)
  {
    var half, w := BoatLength / 2.0, BoatWidth / 2.0;
    if facing == 1 then
      [Point(c.x, c.y - half), Point(c.x - w, c.y - half + SternLength), Point(c.x - w, c.y + half),
       Point(c.x + w, c.y + half), Point(c.x + w, c.y - half + SternLength)]
    else
      [Point(c.x, c.y + half), Point(c.x + w, c.y + half - SternLength), Point(c.x + w, c.y - half),
       Point(c.x - w, c.y - half), Point(c.x - w, c.y + half - SternLength)]
  }

  /** get_list_from_polygon: the exterior ring, closed by repeating the
      first vertex. */
  function Ring(hull: Polygon): seq<Point> { hull + [hull[0]] }

  /** Polygon(coords): a ring whose last vertex repeats its first is stored
      without the repetition. */
  function FromRing(coords: seq<Point>): seq<Point> {
    if |coords| >= 2 && coords[0] == coords[|coords| - 1] then coords[..|coords| - 1] else coords
  }

  /** get_polygon_center(get_list_from_polygon(hull)): the mean of the closed
      ring, which counts the first vertex twice. */
  function Center(hull: Polygon): Point {
    Centroid(Ring(hull))
  }

  /** A closed ring translated is the translated hull, closed. */
  lemma RingTranslate(hull: Polygon, off: Point)
    ensures Translate(Ring(hull), off) == Ring(Translate(hull, off))
  {
    var a, b := Translate(Ring(hull), off), Ring(Translate(hull, off));
    forall i | 0 <= i < |a| ensures a[i] == b[i] {
      TranslateAt(Ring(hull), off, i);
      if i < |hull| {
        TranslateAt(hull, off, i);
      } else {
        TranslateAt(hull, off, 0);
      }
    }
  }

  /** Polygon(move_polygon(get_list_from_polygon(hull), off)): the hull with
      every vertex offset, and its centre moved by exactly the offset. */
  function MoveHull(hull: Polygon, off: Point): (r: Polygon)
    ensures r == Translate(hull, off)
    ensures Center(r) == Plus(Center(hull), off)
  {
    RingTranslate(hull, off);
    var moved := Translate(Ring(hull), off);
    var t := Translate(hull, off);
    assert moved == t + [t[0]];
    assert FromRing(moved) == t;
    CentroidTranslate(Ring(hull), off);
    FromRing(moved)
  }

  /** The centre of a fresh hull sits 4 units towards the bow from the
      requested centre, because the bow vertex is counted twice. */
  lemma CreateHullCenter(c: Point, facing: int)
    requires facing == 1 || facing == -1
    ensures Center(CreateHull(c, facing)) == Point(c.x, c.y - 4.0 * facing as real)
  {
    var p := CreateHull(c, facing);
    assert [] + [p[0]] == [p[0]];
    assert [p[0]] + [p[1]] == [p[0], p[1]];
    assert [p[0], p[1]] + [p[2]] == [p[0], p[1], p[2]];
    assert [p[0], p[1], p[2]] + [p[3]] == [p[0], p[1], p[2], p[3]];
    assert [p[0], p[1], p[2], p[3]] + [p[4]] == [p[0], p[1], p[2], p[3], p[4]];
    assert [p[0], p[1], p[2], p[3], p[4]] + [p[0]] == [p[0], p[1], p[2], p[3], p[4], p[0]];
    SumSnoc([], p[0]);
    SumSnoc([p[0]], p[1]);
    SumSnoc([p[0], p[1]], p[2]);
    SumSnoc([p[0], p[1], p[2]], p[3]);
    SumSnoc([p[0], p[1], p[2], p[3]], p[4]);
    SumSnoc([p[0], p[1], p[2], p[3], p[4]], p[0]);
    assert Ring(p) == [p[0], p[1], p[2], p[3], p[4], p[0]];
    assert SumX(Ring(p)) == 6.0 * c.x;
    assert SumY(Ring(p)) == 6.0 * c.y - 24.0 * facing as real;
  }

  /** A new boat: hull built around `c`, no turn, no motion, not reloading. */
  function NewBoat(c: Point, facing: int, health: int): (b: Boat)
    requires facing == 1 || facing == -1
    ensures b.hull == CreateHull(c, facing) && b.health == health
    ensures b.curTurn == 0.0 && b.turnBy == 0 && b.movementDir == 0 && !b.reloading
  {
    Boat(CreateHull(c, facing), 0.0, 0, 0, Origin, false, health)
  }

  const EnemyHealth := 50
  const UserHealth := 150

  /** The result of take_damage: the damaged boat and whether it is dead. */
  datatype Hit = Hit(boat: Boat, died: bool)

  /** Boat.take_damage: lose exactly 10 health, dead once it is not positive. */
  function TakeDamage(b: Boat): (r: Hit)
    ensures r.boat == b.(health := b.health - 10)
    ensures r.died <==> b.health <= 10
  {
    var nb := b.(health := b.health - 10);
    Hit(nb, nb.health <= 0)
  }

  /** The boat after `n` hits. */
  function Damaged(b: Boat, n: nat): Boat
    decreases n
  {
    if n == 0 then b else TakeDamage(Damaged(b, n - 1)).boat
  }

  /** Hit number n + 1 is reported fatal exactly when 10 (n + 1) reaches the
      starting health, and nothing but the health changes. */
  lemma {:induction false} DamagedHealth(b: Boat, n: nat)
    ensures Damaged(b, n) == b.(health := b.health - 10 * n)
    ensures TakeDamage(Damaged(b, n)).died <==> b.health <= 10 * (n + 1)
  {
    if n > 0 {
      DamagedHealth(b, n - 1);
    }
  }

  /** An enemy (50 health) survives four hits and dies on the fifth. */
  lemma FifthHitKillsEnemy(b: Boat)
    requires b.health == EnemyHealth
    ensures forall n :: 0 <= n < 4 ==> !TakeDamage(Damaged(b, n)).died
    ensures TakeDamage(Damaged(b, 4)).died
  {
    forall n | 0 <= n < 4 ensures !TakeDamage(Damaged(b, n)).died {
      DamagedHealth(b, n);
    }
    DamagedHealth(b, 4);
  }

  /** The user (150 health) survives fourteen hits and dies on the fifteenth. */
  lemma FifteenthHitKillsUser(b: Boat)
    requires b.health == UserHealth
    ensures forall n :: 0 <= n < 14 ==> !TakeDamage(Damaged(b, n)).died
    ensures TakeDamage(Damaged(b, 14)).died
  {
    forall n | 0 <= n < 14 ensures !TakeDamage(Damaged(b, n)).died {
      DamagedHealth(b, n);
    }
    DamagedHealth(b, 14);
  }

  /** Boat.fire: a new shell from the turret end towards `target`, and the
      boat starts reloading. */
  function Fire(h: Host, b: Boat, friendly: bool, target: Point, id: nat): (r: (Boat, Entity))
    ensures r.0 == b.(reloading := true)
    ensures r.1 == SpawnShell(h, id, friendly, b.turEnd, target)
  {
    (b.(reloading := true), SpawnShell(h, id, friendly, b.turEnd, target))
  }

  /** Boat.stop_reload. */
  function StopReload(b: Boat): (r: Boat)
    ensures !r.reloading && r == b.(reloading := false)
  {
    b.(reloading := false)
  }

  /** Boat.move (the enemy's): drift down the screen by a quarter unit. */
  function Drift(b: Boat): (r: Boat)
    ensures r == b.(hull := Translate(b.hull, Point(0.0, 0.25)))
    ensures Center(r.hull) == Point(Center(b.hull).x, Center(b.hull).y + 0.25)
  {
    b.(hull := MoveHull(b.hull, Point(0.0, 0.25)))
  }

  /** Enemy.auto_fire's range test. round(d) < 300 holds exactly for
      d < 299.5 (299.5 rounds to even, 300), so it is the squared distance
      compared with 299.5 squared. */
  predicate InRange(from: Point, to: Point) {
    var dx, dy := to.x - from.x, to.y - from.y;
    dx * dx + dy * dy < 299.5 * 299.5
  }

  /** For the length d of the offset (d >= 0 with d * d the squared
      distance), in range means exactly d < 299.5, the lengths that Python's
      round takes below 300. */
  lemma InRangeDistance(from: Point, to: Point, d: real)
    requires d >= 0.0
    requires d * d == (to.x - from.x) * (to.x - from.x) + (to.y - from.y) * (to.y - from.y)
    ensures InRange(from, to) <==> d < 299.5
  {
    if d < 299.5 {
      assert d * d <= d * 299.5 < 299.5 * 299.5;
    } else {
      assert d * d >= 299.5 * d >= 299.5 * 299.5;
    }
  }

  // --------------------------------------------------------- user controls

  function StartMove(b: Boat, direction: int): (r: Boat)
    ensures r == b.(movementDir := direction)
  {
    b.(movementDir := direction)
  }

  /** User.end_move: only a release of the current direction stops the boat. */
  function EndMove(b: Boat, direction: int): (r: Boat)
    ensures direction == b.movementDir ==> r == b.(movementDir := 0)
    ensures direction != b.movementDir ==> r == b
  {
    if direction == b.movementDir then b.(movementDir := 0) else b
  }

  function StartTurn(b: Boat, rotation: int): (r: Boat)
    ensures r == b.(turnBy := rotation)
  {
    b.(turnBy := rotation)
  }

  /** User.end_turn: no direction check at all. */
  function EndTurn(b: Boat): (r: Boat)
    ensures r == b.(turnBy := 0)
  {
    b.(turnBy := 0)
  }

  /** end_move stops the boat exactly when the released direction is the one
      it is moving in (or it was already still), and touches nothing else;
      a later start_move wins whatever came before. */
  lemma EndMoveOnlyOnMatch(b: Boat, d: int, e: int)
    ensures EndMove(b, d).movementDir == 0 <==> d == b.movementDir || b.movementDir == 0
    ensures EndMove(b, d) == b.(movementDir := EndMove(b, d).movementDir)
    ensures StartMove(EndMove(b, d), e).movementDir == e
  {
  }

  /** The heading after one User.move: a turn advances by the full turn rate
      when moving forwards and by half of it otherwise. */
  function NextHeading(b: Boat): (t: real)
    ensures b.turnBy == 0 ==> t == b.curTurn
    ensures b.movementDir > 0 ==> t == b.curTurn + b.turnBy as real
    ensures b.movementDir <= 0 ==> t == b.curTurn + b.turnBy as real / 2.0
  {
    if b.turnBy != 0 then b.curTurn + b.turnBy as real / (if b.movementDir > 0 then 1.0 else 2.0)
    else b.curTurn
  }

  /** The displacement of one User.move along heading `t`. */
  function Displacement(h: Host, dir: int, t: real): Point {
    var div := if dir > 0 then 2.0 else 4.0;
    Point(dir as real * 2.0 * h.sinDeg(t) / div, -(dir as real) * 2.0 * h.cosDeg(t) / div)
  }

  lemma DisplacementByDirection(h: Host, t: real)
    ensures Displacement(h, 1, t) == Point(h.sinDeg(t), -h.cosDeg(t))
    ensures Displacement(h, -1, t) == Point(-h.sinDeg(t) / 2.0, h.cosDeg(t) / 2.0)
    ensures Displacement(h, 0, t) == Origin
  {
  }

  /** User.move: turn, then step along the heading, a full unit per frame
      forwards and half a unit backwards. */
  function UserMove(h: Host, b: Boat): (r: Boat)
    ensures r.curTurn == NextHeading(b)
    ensures r == b.(curTurn := r.curTurn, hull := r.hull)
    ensures b.movementDir == 1 ==>
              r.hull == Translate(b.hull, Point(h.sinDeg(r.curTurn), -h.cosDeg(r.curTurn)))
    ensures b.movementDir == -1 ==>
              r.hull == Translate(b.hull, Point(-h.sinDeg(r.curTurn) / 2.0, h.cosDeg(r.curTurn) / 2.0))
    ensures b.movementDir == 0 ==> r.hull == Translate(b.hull, Origin)
    ensures Center(r.hull) == Plus(Center(b.hull), Displacement(h, b.movementDir, r.curTurn))
  {
    var t := NextHeading(b);
    DisplacementByDirection(h, t);
    b.(curTurn := t, hull := MoveHull(b.hull, Displacement(h, b.movementDir, t)))
  }

  /** Translating by the zero offset changes nothing: a still user only turns. */
  lemma {:induction false} TranslateOrigin(ps: seq<Point>)
    ensures Translate(ps, Origin) == ps
  {
    if ps != [] {
      TranslateOrigin(ps[..|ps| - 1]);
      assert ps[..|ps| - 1] + [ps[|ps| - 1]] == ps;
    }
  }

  // ------------------------------------------------ the move of any sprite

  /** sprite.move(all_sprites) as the frame loop calls it (never on islands). */
  function Move(h: Host, e: Entity): (r: Fate)
    requires !e.Island?
    ensures r.Stays? ==> r.e.id == e.id && KindOf(r.e) == KindOf(e) && IsFriendly(r.e) == IsFriendly(e) && !r.e.Island?
    ensures (e.User? || e.Enemy?) ==> r.Stays?
  {
    match e
    case SinkSpot(_, _, _) => SinkMove(e)
    case Shell(_, _, _, _, _) => ShellMove(e)
    case Shrapnel(_, _, _, _, _) => ShrapnelMove(e)
    case User(id, b) => Stays(User(id, UserMove(h, b)))
    case Enemy(id, b, t, tag) => Stays(Enemy(id, Drift(b), t, tag))
  }

  /** One frame of the move loop for one sprite: islands are skipped (they
      only scroll), a removed sprite stays removed. */
  function Frame(h: Host, f: Fate): (r: Fate)
    ensures f.Removed? ==> r.Removed?
    ensures f.Stays? && f.e.Island? ==> r == f
    ensures r.Stays? ==> f.Stays? && r.e.id == f.e.id && KindOf(r.e) == KindOf(f.e)
  {
    match f
    case Removed => Removed
    case Stays(e) => if e.Island? then f else Move(h, e)
  }

  /** `n` consecutive frames. */
  function Run(h: Host, f: Fate, n: nat): Fate
    decreases n
  {
    if n == 0 then f else Run(h, Frame(h, f), n - 1)
  }

  /** Over any number of frames a survivor keeps its identity and class. */
  lemma {:induction false} RunKeeps(h: Host, f: Fate, n: nat)
    ensures var r := Run(h, f, n);
            r.Stays? ==> f.Stays? && r.e.id == f.e.id && KindOf(r.e) == KindOf(f.e)
    decreases n
  {
    if n > 0 {
      RunKeeps(h, Frame(h, f), n - 1);
    }
  }

  /** Running a + b frames is running a, then b more. */
  lemma {:induction false} RunSplit(h: Host, f: Fate, a: nat, b: nat)
    ensures Run(h, f, a + b) == Run(h, Run(h, f, a), b)
    decreases a
  {
    if a > 0 {
      var g := Frame(h, f);
      assert Run(h, f, a + b) == Run(h, g, (a - 1) + b);
      RunSplit(h, g, a - 1, b);
      assert Run(h, f, a) == Run(h, g, a - 1);
    }
  }

  /** Once removed, a sprite stays removed. */
  lemma {:induction false} RunRemoved(h: Host, n: nat)
    ensures Run(h, Removed, n) == Removed
    decreases n
  {
    if n > 0 {
      RunRemoved(h, n - 1);
    }
  }

  /** A shell in flight counts its moves; it cannot outlast its 60th move. */
  lemma {:induction false} ShellRun(h: Host, e: Entity, n: nat)
    requires e.Shell?
    ensures Run(h, Stays(e), n).Stays? ==>
              Run(h, Stays(e), n).e.Shell? && Run(h, Stays(e), n).e.iter == e.iter + n
    ensures n >= 1 && e.iter + n >= 60 ==> Run(h, Stays(e), n).Removed?
    decreases n
  {
    if n > 0 {
      var f := ShellMove(e);
      assert Frame(h, Stays(e)) == f;
      match f
      case Removed => RunRemoved(h, n - 1);
      case Stays(e1) => ShellRun(h, e1, n - 1);
    }
  }

  /** A fired shell (iter 0) is gone after 60 frames at the latest. */
  lemma ShellGoneBy60(h: Host, e: Entity)
    requires e.Shell? && e.iter == 0
    ensures Run(h, Stays(e), 60).Removed?
  {
    ShellRun(h, e, 60);
  }

  /** One step then k steps is k + 1 steps. */
  lemma ScaleStep(p: Point, d: Point, k: real)
    ensures Plus(Plus(p, d), Scale(d, k)) == Plus(p, Scale(d, k + 1.0))
  {
    Distrib(k, d.x);
    Distrib(k, d.y);
  }

  /** `n` steps of every fragment. */
  function AdvanceN(fs: seq<Fragment>, n: nat): seq<Fragment>
    decreases n
  {
    if n == 0 then fs else AdvanceN(Advance(fs), n - 1)
  }

  /** After n steps every fragment is n times its direction from where it was. */
  lemma {:induction false} AdvanceNAt(fs: seq<Fragment>, n: nat)
    ensures |AdvanceN(fs, n)| == |fs|
    ensures forall i :: 0 <= i < |fs| ==>
              AdvanceN(fs, n)[i] == Fragment(Plus(fs[i].pos, Scale(fs[i].dir, n as real)), fs[i].dir)
    decreases n
  {
    if n > 0 {
      var a := Advance(fs);
      AdvanceNAt(a, n - 1);
      forall i | 0 <= i < |fs|
        ensures AdvanceN(fs, n)[i] == Fragment(Plus(fs[i].pos, Scale(fs[i].dir, n as real)), fs[i].dir)
      {
        var p, d := fs[i].pos, fs[i].dir;
        assert a[i] == Fragment(Plus(p, d), d);
        assert n as real == (n - 1) as real + 1.0;
        ScaleStep(p, d, (n - 1) as real);
      }
    }
  }

  /** A burst with iter + n at most 11 is still in the group after n moves,
      every fragment advanced n times. */
  lemma {:induction false} ShrapnelRun(h: Host, e: Entity, n: nat)
    requires e.Shrapnel? && e.iter + n <= 11
    ensures Run(h, Stays(e), n) == Stays(e.(contents := AdvanceN(e.contents, n), iter := e.iter + n))
    decreases n
  {
    if n > 0 {
      var e1 := e.(contents := Advance(e.contents), iter := e.iter + 1);
      assert Frame(h, Stays(e)) == Stays(e1);
      ShrapnelRun(h, e1, n - 1);
    }
  }

  /** A fresh burst lives through 11 moves and leaves on the 12th. */
  lemma ShrapnelLifetime(h: Host, e: Entity)
    requires e.Shrapnel? && e.iter == 0
    ensures Run(h, Stays(e), 11) == Stays(e.(contents := AdvanceN(e.contents, 11), iter := 11))
    ensures Run(h, Stays(e), 12).Removed?
  {
    ShrapnelRun(h, e, 11);
    RunSplit(h, Stays(e), 11, 1);
    var e11 := e.(contents := AdvanceN(e.contents, 11), iter := 11);
    assert Frame(h, Stays(e11)) == Removed;
  }

  /** Above 10 the radius falls by a tenth per move. */
  lemma {:induction false} SinkShrinkFast(h: Host, e: Entity, m: nat, k: nat)
    requires e.SinkSpot? && e.radius == 10.0 + m as real / 10.0 && k <= m
    ensures Run(h, Stays(e), k) == Stays(e.(radius := 10.0 + (m - k) as real / 10.0))
    decreases k
  {
    if k > 0 {
      var e1 := e.(radius := 10.0 + (m - 1) as real / 10.0);
      assert Frame(h, Stays(e)) == Stays(e1);
      SinkShrinkFast(h, e1, m - 1, k - 1);
    }
  }

  /** At 10 or below it falls by a fifth per move and leaves when it reaches 0. */
  lemma {:induction false} SinkShrinkSlow(h: Host, e: Entity, j: nat, k: nat)
    requires e.SinkSpot? && e.radius == j as real / 5.0 && j <= 50 && 1 <= k <= j
    ensures k < j ==> Run(h, Stays(e), k) == Stays(e.(radius := (j - k) as real / 5.0))
    ensures k == j ==> Run(h, Stays(e), k) == Removed
    decreases k
  {
    var e1 := e.(radius := (j - 1) as real / 5.0);
    if j == 1 {
      assert Frame(h, Stays(e)) == Removed;
    } else {
      assert Frame(h, Stays(e)) == Stays(e1);
      if k > 1 {
        SinkShrinkSlow(h, e1, j - 1, k - 1);
      }
    }
  }

  /** A new sink spot (radius 15) is drawn for 99 frames and leaves on its
      100th move. */
  lemma SinkLifetime(h: Host, e: Entity)
    requires e.SinkSpot? && e.radius == SinkRadius
    ensures Run(h, Stays(e), 99).Stays? && Run(h, Stays(e), 99).e.SinkSpot? && Run(h, Stays(e), 99).e.radius == 0.2
    ensures Run(h, Stays(e), 100).Removed?
  {
    SinkShrinkFast(h, e, 50, 50);
    var e50 := e.(radius := 10.0);
    RunSplit(h, Stays(e), 50, 49);
    RunSplit(h, Stays(e), 50, 50);
    SinkShrinkSlow(h, e50, 50, 49);
    SinkShrinkSlow(h, e50, 50, 50);
  }
}
