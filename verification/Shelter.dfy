/**
 * The shelter simulation without its drawing. Distances are compared by their squares, the
 * heading is an arbitrary unit vector and the crater terrain is an input.
 */
module Shelter {
  import opened Wrappers

  const HALF_PI: real := 1.5707963267948966

  datatype World = World(
    time: real, x: real, z: real, standing: bool, room: bool, doorOpen: bool, doorAngle: real,
    survived: bool, dead: bool, deathTime: real, aftermath: bool)

  datatype Heading = Heading(ux: real, uz: real)

  /** `live` stands for the page being visible, started and not paused. */
  datatype Event =
    | Frame(dt: real, heading: Option<Heading>, fast: bool)
    | Stance(live: bool)
    | Door(live: bool, ground: real)
    | Restart

  function Start(): World {
    World(0.0, 0.0, 0.0, false, false, false, 0.0, false, false, 0.0, false)
  }

  function Sq(a: real): real { a * a }

  function Abs(a: real): real { if a < 0.0 then -a else a }

  function Mul(a: real, b: real): real { a * b }

  function Dot(a: real, b: real, c: real, d: real): real { a * c + b * d }

  /** One coordinate after a step of length s in the direction u. */
  function Step(from: real, u: real, s: real): real { from + u * s }

  function Mix(a: real, b: real, t: real): real { a + (b - a) * t }

  /** The squared distance to the flash at (0, 48). */
  function FlashSq(x: real, z: real): real { Sq(x) + Sq(48.0 - z) }

  predicate OnStairs(x: real, z: real) {
    Abs(x) < 0.78 && z < -2.0 && z >= -5.05
  }

  function FloorAt(w: World, ground: real): real {
    if w.room then -2.6
    else if OnStairs(w.x, w.z) then -2.6 * (-w.z - 2.0) / 3.05
    else if w.aftermath then ground
    else 0.0
  }

  predicate NearDoor(w: World, ground: real) {
    Sq(w.x) + Sq(w.z + 5.05) < Sq(1.5) && FloorAt(w, ground) < -0.9
  }

  predicate Ready(w: World, live: bool) {
    live && !w.dead && w.time >= 8.5
  }

  predicate DoorPassable(w: World) {
    w.doorOpen && w.doorAngle >= 1.3
  }

  /** moveTo: a step is taken whole or not at all. */
  function Moved(w: World, x: real, z: real): World {
    var there := w.(x := x, z := z);
    if w.room then
      if Abs(x) > 2.40 || z < -9.4 then w
      else if z > -5.05 then
        if !DoorPassable(w) || Abs(x) > 0.66 then w else there.(room := false)
      else there
    else if (FloorAt(w, 0.0) < -0.05 && !w.aftermath) || OnStairs(w.x, w.z) then
      if z < -2.0 && Abs(x) > 0.66 then w
      else if z < -5.05 then
        if !DoorPassable(w) || Abs(x) > 0.66 then w else there.(room := true)
      else there
    else if Abs(x) < 0.78 && z < -2.25 && z >= -5.05 then w
    else there
  }

  /** The wave front, at 5.8 per second from t = 11, has reached the player. */
  predicate WaveReached(w: World) {
    w.time >= 11.0 && Sq((w.time - 11.0) * 5.8) >= FlashSq(w.x, w.z)
  }

  predicate Sheltered(w: World) {
    w.room && !w.doorOpen && w.doorAngle <= 0.04
  }

  /** What the wave does to a player it has reached. */
  function Struck(w: World): World {
    if !WaveReached(w) then w
    else if w.time >= 28.0 && w.survived then w.(aftermath := true)
    else if Sheltered(w) then w.(survived := true)
    else w.(dead := true, deathTime := w.time)
  }

  function Swing(w: World, dt: real): World {
    var t := if dt * 9.0 < 1.0 then dt * 9.0 else 1.0;
    w.(time := w.time + dt, doorAngle := Mix(w.doorAngle, if w.doorOpen then HALF_PI else 0.0, t))
  }

  function Speed(fast: bool): real { if fast then 3.3 else 2.5 }

  /** How far this frame's step goes. */
  function Length(dt: real, fast: bool): real { Speed(fast) * dt }

  function Walked(w: World, dt: real, heading: Option<Heading>, fast: bool): World {
    if heading.None? || !Ready(w, true) then w
    else
      Moved(w.(standing := true), Step(w.x, heading.value.ux, Length(dt, fast)), Step(w.z, heading.value.uz, Length(dt, fast)))
  }

  function Advanced(w: World, dt: real, heading: Option<Heading>, fast: bool): World {
    var swung := Swing(w, dt);
    if w.dead then
      if swung.time - swung.deathTime > 6.0 then Start() else swung
    else Struck(Walked(swung, dt, heading, fast))
  }

  function StanceToggled(w: World, live: bool): World {
    if !Ready(w, live) || (w.standing && (w.aftermath || Sq(w.x) + Sq(w.z) >= Sq(1.4))) then w
    else if w.standing then w.(standing := false, x := 0.0, z := 0.0)
    else w.(standing := true)
  }

  function DoorToggled(w: World, live: bool, ground: real): World {
    if !Ready(w, live) || !NearDoor(w, ground) then w else w.(doorOpen := !w.doorOpen)
  }

  /** Frames last at most .08 seconds and headings are unit vectors. */
  predicate ValidEvent(e: Event) {
    e.Frame? ==> 0.0 <= e.dt <= 0.08 && (e.heading.Some? ==> Sq(e.heading.value.ux) + Sq(e.heading.value.uz) == 1.0)
  }

  function Next(w: World, e: Event): World {
    match e
    case Frame(dt, heading, fast) => Advanced(w, dt, heading, fast)
    case Stance(live) => StanceToggled(w, live)
    case Door(live, ground) => DoorToggled(w, live, ground)
    case Restart => Start()
  }

  function Play(w: World, events: seq<Event>): World
    decreases |events|
  {
    if events == [] then w else Play(Next(w, events[0]), events[1..])
  }

  // ---------- plane geometry by squares ----------

  lemma SquareOrder(a: real, b: real)
    requires 0.0 <= a && 0.0 <= b
    ensures a <= b <==> Sq(a) <= Sq(b)
  {
    hide Sq;
    if a < b { SquareLess(a, b); }
    if b < a { SquareLess(b, a); }
  }

  lemma SquareLess(a: real, b: real)
    requires 0.0 <= a < b
    ensures Sq(a) < Sq(b)
  {
    hide Sq, Mul;
    var gap := b - a;
    Difference(a, b, gap);
    Product(b, gap);
    Product(a, gap);
  }

  lemma Product(p: real, q: real)
    requires 0.0 <= p && 0.0 <= q
    ensures 0.0 <= Mul(p, q) && (0.0 < p && 0.0 < q ==> 0.0 < Mul(p, q))
  {
  }

  lemma Difference(a: real, b: real, gap: real)
    requires b == a + gap
    ensures Sq(b) - Sq(a) == Mul(b, gap) + Mul(a, gap)
  {
  }

  lemma Scaled(a: real, c: real, k: real)
    requires a <= c && 0.0 <= k
    ensures Mul(a, k) <= Mul(c, k) && Mul(k, a) <= Mul(k, c) && (0.0 <= a ==> 0.0 <= Mul(a, k))
  {
    var gap := c - a;
    assert 0.0 <= gap * k;
    assert c * k == (a + gap) * k == a * k + gap * k;
  }

  /** Cauchy-Schwarz in the plane. */
  lemma DotBound(a: real, b: real, c: real, d: real)
    ensures Sq(Dot(a, b, c, d)) <= Mul(Sq(a) + Sq(b), Sq(c) + Sq(d))
  {
    Lagrange(a, b, c, d);
    NotNegative(Dot(a, b, d, -c));
    hide Sq, Mul, Dot;
  }

  lemma NotNegative(a: real)
    ensures 0.0 <= Sq(a)
  {
  }

  lemma Lagrange(a: real, b: real, c: real, d: real)
    ensures Mul(Sq(a) + Sq(b), Sq(c) + Sq(d)) == Sq(Dot(a, b, c, d)) + Sq(Dot(a, b, d, -c))
  {
    assert (a * a + b * b) * (c * c + d * d) == a * a * c * c + a * a * d * d + b * b * c * c + b * b * d * d;
    assert (a * c + b * d) * (a * c + b * d) == a * a * c * c + 2.0 * a * c * b * d + b * b * d * d;
    assert (a * d - b * c) * (a * d - b * c) == a * a * d * d - 2.0 * a * c * b * d + b * b * c * c;
    assert a * d + b * -c == a * d - b * c;
  }

  /** The projection on a unit vector is at most the length. */
  lemma Projection(px: real, pz: real, ux: real, uz: real, r: real)
    requires Sq(px) + Sq(pz) <= Sq(r) && r >= 0.0 && Sq(ux) + Sq(uz) == 1.0
    ensures Dot(px, pz, ux, uz) <= r
  {
    hide Sq, Dot, Mul;
    DotBound(px, pz, ux, uz);
    TimesOne(Sq(px) + Sq(pz));
    if Dot(px, pz, ux, uz) > r { SquareOrder(Dot(px, pz, ux, uz), r); }
  }

  lemma TimesOne(a: real)
    ensures Mul(a, 1.0) == a
  {
  }

  /** The triangle inequality for a step of length s. */
  lemma StepBound(px: real, pz: real, ux: real, uz: real, r: real, s: real)
    requires Sq(px) + Sq(pz) <= Sq(r) && r >= 0.0 && s >= 0.0 && Sq(ux) + Sq(uz) == 1.0
    ensures Sq(Step(px, ux, s)) + Sq(Step(pz, uz, s)) <= Sq(r + s)
  {
    hide Sq, Dot, Mul, Step;
    Projection(px, pz, ux, uz, r);
    Scaled(Dot(px, pz, ux, uz), r, s);
    StepSquare(px, ux, s);
    StepSquare(pz, uz, s);
    StepSquare(r, 1.0, s);
    UnitSteps(px, pz, ux, uz, s);
    StepOne(r, s);
  }

  lemma StepSquare(p: real, u: real, s: real)
    ensures Sq(Step(p, u, s)) == Sq(p) + 2.0 * Mul(s, Mul(p, u)) + Mul(Sq(u), Sq(s))
  {
    var us := u * s;
    assert (p + us) * (p + us) == p * p + 2.0 * (p * us) + us * us;
    assert p * us == s * (p * u);
    assert us * us == (u * u) * (s * s);
  }

  lemma UnitSteps(px: real, pz: real, ux: real, uz: real, s: real)
    requires Sq(ux) + Sq(uz) == 1.0
    ensures Mul(s, Mul(px, ux)) + Mul(s, Mul(pz, uz)) == Mul(s, Dot(px, pz, ux, uz))
    ensures Mul(Sq(ux), Sq(s)) + Mul(Sq(uz), Sq(s)) == Sq(s)
  {
    var a, b, q := Sq(ux), Sq(uz), Sq(s);
    hide Sq;
    assert a * q + b * q == (a + b) * q;
  }

  lemma StepOne(r: real, s: real)
    ensures Step(r, 1.0, s) == r + s && Mul(r, 1.0) == r && Mul(Sq(1.0), Sq(s)) == Sq(s)
  {
  }

  lemma StepBack(p: real, u: real, s: real)
    ensures Step(Step(p, u, s), -u, s) == p
  {
  }

  lemma StepShift(p: real, u: real, s: real, d: real)
    ensures Step(p, u, s) - d == Step(p - d, u, s)
  {
  }

  lemma Opposite(ux: real, uz: real)
    ensures Sq(-ux) + Sq(-uz) == Sq(ux) + Sq(uz)
  {
  }

  // ---------- what every event keeps ----------

  /** How far from the flash a player can be: nobody moves before t = 8.42, or faster than 3.3. */
  function Reach(time: real): real {
    if time <= 8.42 then 48.0 else 48.0 + 3.3 * (time - 8.42)
  }

  predicate InReach(w: World) {
    FlashSq(w.x, w.z) <= Sq(Reach(w.time))
  }

  predicate RoomBounds(w: World) {
    w.room ==> Abs(w.x) <= 2.40 && -9.4 <= w.z <= -5.05
  }

  predicate Basics(w: World) {
    && 0.0 <= w.time && 0.0 <= w.doorAngle <= HALF_PI && RoomBounds(w)
    && (!w.standing ==> w.x == 0.0 && w.z == 0.0)
    && (w.aftermath ==> w.survived)
  }

  /** A survivor was struck in the room; the wave stays behind it until the aftermath. */
  predicate SurvivorInside(w: World) {
    w.survived && !w.dead && !w.aftermath ==> WaveReached(w) && w.room && w.time < 28.0
  }

  /** Whoever the wave has not spared is ahead of it, or has just sat down on the chair. */
  predicate AheadOfWave(w: World) {
    !w.survived && !w.dead ==> !WaveReached(w) || (w.x == 0.0 && w.z == 0.0)
  }

  predicate Inv(w: World) {
    Basics(w) && InReach(w) && SurvivorInside(w) && AheadOfWave(w)
  }

  /** The promise at the end of every frame. */
  predicate Safe(w: World) {
    w.survived && !w.dead ==> w.aftermath || (Sheltered(w) && w.time < 28.0)
  }

  lemma UnitPart(a: real, b: real)
    requires Sq(a) + Sq(b) == 1.0
    ensures -1.0 <= a <= 1.0
  {
    NotNegative(b);
    assert Sq(Abs(a)) == Sq(a) && Sq(1.0) == 1.0;
    hide Sq;
    SquareOrder(Abs(a), 1.0);
  }

  /** A unit step of length s moves a coordinate back by at most s. */
  lemma StepAtMost(p: real, u: real, s: real)
    requires -1.0 <= u && 0.0 <= s
    ensures p - s <= Step(p, u, s)
  {
    Scaled(-1.0, u, s);
    assert Mul(u, s) == u * s && Mul(-1.0, s) == -s;
  }

  /** A short step keeps to the walls, and changes rooms only through an open door. */
  lemma MovedKeeps(w: World, x: real, z: real)
    requires RoomBounds(w) && w.z - 0.264 <= z
    ensures var v := Moved(w, x, z);
            && RoomBounds(v) && v == w.(x := v.x, z := v.z, room := v.room)
            && ((v.x == w.x && v.z == w.z) || (v.x == x && v.z == z))
            && (v.room != w.room ==> DoorPassable(w) && (v.room ==> OnStairs(w.x, w.z)))
  {
  }

  /** The step that a frame takes: its direction and length, whether or not it was blocked. */
  lemma WalkedKeeps(w: World, dt: real, heading: Option<Heading>, fast: bool)
    requires ValidEvent(Frame(dt, heading, fast)) && RoomBounds(w)
    ensures var v := Walked(w, dt, heading, fast);
            && RoomBounds(v) && v == w.(x := v.x, z := v.z, room := v.room, standing := v.standing)
            && (w.standing ==> v.standing) && (v.standing || v == w)
            && ((v.x == w.x && v.z == w.z) || Stepped(w, v, dt, heading, fast))
            && (v.room != w.room ==> DoorPassable(w) && Ready(w, true) && (v.room ==> OnStairs(w.x, w.z)))
  {
    if heading.Some? && Ready(w, true) {
      StepShort(w.z, heading.value, dt, fast);
      RoomSame(w);
      hide Moved, Sq, DoorPassable, OnStairs, RoomBounds, Step, Length;
      MovedKeeps(w.(standing := true), Step(w.x, heading.value.ux, Length(dt, fast)), Step(w.z, heading.value.uz, Length(dt, fast)));
    }
  }

  lemma StepShort(z: real, heading: Heading, dt: real, fast: bool)
    requires 0.0 <= dt <= 0.08 && Sq(heading.ux) + Sq(heading.uz) == 1.0
    ensures z - 0.264 <= Step(z, heading.uz, Length(dt, fast))
  {
    hide Sq, Step, Length;
    StepLength(dt, fast);
    UnitPart(heading.uz, heading.ux);
    StepAtMost(z, heading.uz, Length(dt, fast));
  }

  lemma StepLength(dt: real, fast: bool)
    requires 0.0 <= dt <= 0.08
    ensures 0.0 <= Length(dt, fast) <= 3.3 * dt <= 0.264
  {
  }

  lemma RoomSame(w: World)
    requires RoomBounds(w)
    ensures RoomBounds(w.(standing := true)) && DoorPassable(w.(standing := true)) == DoorPassable(w)
  {
  }

  predicate Stepped(w: World, v: World, dt: real, heading: Option<Heading>, fast: bool) {
    && heading.Some? && w.time >= 8.5
    && v.x == Step(w.x, heading.value.ux, Length(dt, fast)) && v.z == Step(w.z, heading.value.uz, Length(dt, fast))
  }

  /** One step of a frame moves the distance to the flash by at most 3.3 dt. */
  lemma FlashStep(w: World, v: World, dt: real, heading: Option<Heading>, fast: bool, r: real)
    requires ValidEvent(Frame(dt, heading, fast)) && 0.0 <= r
    requires (v.x == w.x && v.z == w.z) || Stepped(w, v, dt, heading, fast)
    ensures FlashSq(w.x, w.z) <= Sq(r) ==> FlashSq(v.x, v.z) <= Sq(r + 3.3 * dt)
    ensures FlashSq(v.x, v.z) <= Sq(r) ==> FlashSq(w.x, w.z) <= Sq(r + 3.3 * dt)
  {
    hide Sq, FlashSq, Step, Length;
    SquareOrder(r, r + 3.3 * dt);
    FlipFlash(w.x, w.z);
    FlipFlash(v.x, v.z);
    if !(v.x == w.x && v.z == w.z) {
      var ux, uz, s := heading.value.ux, heading.value.uz, Length(dt, fast);
      StepLength(dt, fast);
      SquareOrder(r + s, r + 3.3 * dt);
      StepShift(w.z, uz, s, 48.0);
      FlashOneStep(w.x, w.z - 48.0, ux, uz, r, s);
    }
  }

  lemma FlipFlash(x: real, z: real)
    ensures FlashSq(x, z) == Sq(x) + Sq(z - 48.0)
  {
  }

  lemma FlashOneStep(px: real, pz: real, ux: real, uz: real, r: real, s: real)
    requires Sq(ux) + Sq(uz) == 1.0 && r >= 0.0 && s >= 0.0
    ensures var qx, qz := Step(px, ux, s), Step(pz, uz, s);
            && (Sq(px) + Sq(pz) <= Sq(r) ==> Sq(qx) + Sq(qz) <= Sq(r + s))
            && (Sq(qx) + Sq(qz) <= Sq(r) ==> Sq(px) + Sq(pz) <= Sq(r + s))
  {
    hide Sq, Step;
    var qx, qz := Step(px, ux, s), Step(pz, uz, s);
    Opposite(ux, uz);
    StepBack(px, ux, s);
    StepBack(pz, uz, s);
    if Sq(px) + Sq(pz) <= Sq(r) { StepBound(px, pz, ux, uz, r, s); }
    if Sq(qx) + Sq(qz) <= Sq(r) { StepBound(qx, qz, -ux, -uz, r, s); }
  }

  /** The wave outruns the player: once it has passed, it has passed for good. */
  lemma WavePermanent(w: World, dt: real, heading: Option<Heading>, fast: bool)
    requires ValidEvent(Frame(dt, heading, fast)) && RoomBounds(w) && WaveReached(w)
    ensures WaveReached(Walked(Swing(w, dt), dt, heading, fast))
  {
    hide Sq, FlashSq, Step, Length, Moved, Walked;
    var a := Swing(w, dt);
    var v := Walked(a, dt, heading, fast);
    WalkedKeeps(a, dt, heading, fast);
    var r := (w.time - 11.0) * 5.8;
    FlashStep(a, v, dt, heading, fast, r);
    SquareOrder(r + 3.3 * dt, (v.time - 11.0) * 5.8);
  }

  /** Nobody who has not been struck by t = 27.92 can be in the room: the wave passed it long before. */
  lemma TooLateForRoom(w: World, dt: real, heading: Option<Heading>, fast: bool)
    requires ValidEvent(Frame(dt, heading, fast)) && Basics(w) && AheadOfWave(w) && !w.survived && !w.dead
    requires w.time + dt >= 28.0
    ensures !Walked(Swing(w, dt), dt, heading, fast).room
  {
    hide Sq, FlashSq, Step, Length, Moved, Walked;
    var a := Swing(w, dt);
    var v := Walked(a, dt, heading, fast);
    WalkedKeeps(a, dt, heading, fast);
    if v.room {
      RoomNear(v);
      FlashStep(a, v, dt, heading, fast, 58.0);
      SquareOrder(58.0 + 3.3 * dt, (w.time - 11.0) * 5.8);
    }
  }

  lemma RoomNear(w: World)
    requires w.room && RoomBounds(w)
    ensures FlashSq(w.x, w.z) <= Sq(58.0)
  {
    var d := 48.0 - w.z;
    assert w.x * w.x <= 2.4 * 2.4 by { SquareOrder(Abs(w.x), 2.4); }
    assert d * d <= 57.4 * 57.4 by { SquareOrder(d, 57.4); }
  }

  lemma ReachGrows(w: World, dt: real, heading: Option<Heading>, fast: bool)
    requires ValidEvent(Frame(dt, heading, fast)) && RoomBounds(w) && InReach(w) && 0.0 <= w.time
    ensures InReach(Walked(Swing(w, dt), dt, heading, fast))
  {
    hide Sq, FlashSq, Step, Length, Moved, Walked;
    var a := Swing(w, dt);
    var v := Walked(a, dt, heading, fast);
    WalkedKeeps(a, dt, heading, fast);
    FlashStep(a, v, dt, heading, fast, Reach(w.time));
    SquareOrder(Reach(w.time), Reach(v.time));
  }

  lemma SwingKeeps(w: World, dt: real)
    requires Basics(w) && 0.0 <= dt <= 0.08
    ensures Basics(Swing(w, dt))
  {
    var t := if dt * 9.0 < 1.0 then dt * 9.0 else 1.0;
    var target := if w.doorOpen then HALF_PI else 0.0;
    MixBetween(w.doorAngle, target, t, HALF_PI);
  }

  lemma MixBetween(a: real, b: real, t: real, top: real)
    requires 0.0 <= a <= top && 0.0 <= b <= top && 0.0 <= t <= 1.0
    ensures 0.0 <= Mix(a, b, t) <= top
  {
    hide Mix, Mul;
    var u := 1.0 - t;
    Scaled(a, top, u);
    Scaled(b, top, t);
    MixParts(a, b, t, u);
    MixParts(top, top, t, u);
  }

  lemma MixParts(a: real, b: real, t: real, u: real)
    requires u == 1.0 - t
    ensures Mix(a, b, t) == Mul(a, u) + Mul(b, t) && (a == b ==> Mix(a, b, t) == a)
  {
    assert (b - a) * t == b * t - a * t;
    assert a * u == a * 1.0 - a * t;
  }

  /** A frame of a living player keeps the invariant and ends safe. */
  lemma FrameKeeps(w: World, dt: real, heading: Option<Heading>, fast: bool)
    requires ValidEvent(Frame(dt, heading, fast)) && Inv(w) && !w.dead
    ensures Inv(Advanced(w, dt, heading, fast)) && Safe(Advanced(w, dt, heading, fast))
  {
    hide Sq, FlashSq, Step, Length, Moved, Walked, InReach, WaveReached;
    var a := Swing(w, dt);
    var v := Walked(a, dt, heading, fast);
    SwingKeeps(w, dt);
    WalkedKeeps(a, dt, heading, fast);
    ReachGrows(w, dt, heading, fast);
    if w.survived && !w.aftermath { WavePermanent(w, dt, heading, fast); }
    if !w.survived && v.time >= 28.0 { TooLateForRoom(w, dt, heading, fast); }
    StruckKeeps(v, w);
  }

  /** What the strike makes of a walked world that came from `w`. */
  lemma StruckKeeps(v: World, w: World)
    requires Basics(v) && InReach(v) && !v.dead && v.survived == w.survived && v.aftermath == w.aftermath
    requires w.survived && !w.aftermath ==> WaveReached(v)
    requires !w.survived && v.time >= 28.0 ==> !v.room
    ensures Inv(Struck(v)) && Safe(Struck(v))
  {
    hide Sq, FlashSq;
  }

  lemma DeadKeeps(w: World, dt: real)
    requires Inv(w) && w.dead && 0.0 <= dt <= 0.08
    ensures Inv(Swing(w, dt))
  {
    hide Sq, FlashSq;
    SwingKeeps(w, dt);
    SquareOrder(Reach(w.time), Reach(w.time + dt));
  }

  lemma StartKeeps()
    ensures Inv(Start()) && Safe(Start())
  {
    assert Sq(48.0) <= Sq(48.0);
  }

  lemma StanceKeeps(w: World, live: bool)
    requires Inv(w)
    ensures Inv(StanceToggled(w, live))
  {
    hide FlashSq;
    if w.standing && w.room {
      RoomFarFromChair(w);
    }
    assert FlashSq(0.0, 0.0) == Sq(48.0) by { ChairFlash(); }
    SquareOrder(48.0, Reach(w.time));
    hide Sq;
  }

  lemma ChairFlash()
    ensures FlashSq(0.0, 0.0) == Sq(48.0)
  {
  }

  lemma RoomFarFromChair(w: World)
    requires w.room && RoomBounds(w)
    ensures Sq(w.x) + Sq(w.z) >= Sq(1.4)
  {
    SquareOrder(1.4, -w.z);
    assert w.x * w.x >= 0.0;
    assert Sq(-w.z) == Sq(w.z);
  }

  lemma DoorKeeps(w: World, live: bool, ground: real)
    requires Inv(w)
    ensures Inv(DoorToggled(w, live, ground))
  {
    hide Sq, FlashSq, NearDoor;
  }

  /** Every event keeps the invariant, and every frame ends safe. */
  lemma NextKeeps(w: World, e: Event)
    requires Inv(w) && ValidEvent(e)
    ensures Inv(Next(w, e)) && (e.Frame? ==> Safe(Next(w, e)))
  {
    hide Inv, Safe, Struck, Walked;
    StartKeeps();
    match e {
      case Frame(dt, heading, fast) =>
        if w.dead {
          DeadKeeps(w, dt);
          DeadSafe(Swing(w, dt));
        } else {
          FrameKeeps(w, dt, heading, fast);
        }
      case Stance(live) => StanceKeeps(w, live);
      case Door(live, ground) => DoorKeeps(w, live, ground);
      case Restart =>
    }
  }

  lemma DeadSafe(w: World)
    requires w.dead
    ensures Safe(w)
  {
  }

  lemma {:induction false} PlayKeeps(w: World, events: seq<Event>)
    requires Inv(w) && forall e <- events :: ValidEvent(e)
    ensures Inv(Play(w, events))
    decreases |events|
  {
    hide Inv, Next, ValidEvent;
    if events != [] {
      assert events[0] in events;
      NextKeeps(w, events[0]);
      PlayKeeps(Next(w, events[0]), events[1..]);
    }
  }

  /**
   * In every run, at the end of every frame: a survivor who is not dead stands in the aftermath,
   * or in the room behind a closed door before t = 28.
   */
  lemma SurvivorIsSheltered(events: seq<Event>, dt: real, heading: Option<Heading>, fast: bool)
    requires (forall e <- events :: ValidEvent(e)) && ValidEvent(Frame(dt, heading, fast))
    ensures var w := Advanced(Play(Start(), events), dt, heading, fast);
            w.survived && !w.dead ==> w.aftermath || (w.room && !w.doorOpen && w.doorAngle <= 0.04 && w.time < 28.0)
  {
    hide Inv, Play, Advanced;
    StartKeeps();
    PlayKeeps(Start(), events);
    NextKeeps(Play(Start(), events), Frame(dt, heading, fast));
  }

  /** In every run, any frame that ends at t >= 33.7 leaves the player dead, or a survivor in the aftermath. */
  lemma NobodyEscapesTheWave(events: seq<Event>, dt: real, heading: Option<Heading>, fast: bool)
    requires (forall e <- events :: ValidEvent(e)) && ValidEvent(Frame(dt, heading, fast))
    ensures var w := Advanced(Play(Start(), events), dt, heading, fast);
            w.time >= 33.7 ==> w.dead || (w.survived && w.aftermath)
  {
    hide Inv, Play, Sq, FlashSq, Walked, WaveReached, InReach;
    StartKeeps();
    PlayKeeps(Start(), events);
    var w := Play(Start(), events);
    InvParts(w);
    SurvivorIsSheltered(events, dt, heading, fast);
    if !w.dead {
      WalkedKeeps(Swing(w, dt), dt, heading, fast);
      ReachGrows(w, dt, heading, fast);
      if w.time + dt >= 33.7 { CaughtByThen(Walked(Swing(w, dt), dt, heading, fast)); }
    }
  }

  lemma InvParts(w: World)
    requires Inv(w)
    ensures RoomBounds(w) && InReach(w) && 0.0 <= w.time
  {
  }

  lemma CaughtByThen(w: World)
    requires InReach(w) && w.time >= 33.7
    ensures WaveReached(w)
  {
    hide Sq, FlashSq;
    SquareOrder(Reach(w.time), (w.time - 11.0) * 5.8);
  }

  /** In every run the room's walls hold, and an event moves the player through the door only if it stands open. */
  lemma DoorAndWalls(events: seq<Event>, e: Event)
    requires (forall f <- events :: ValidEvent(f)) && ValidEvent(e)
    ensures var w := Play(Start(), events);
            && (w.room ==> Abs(w.x) <= 2.40 && -9.4 <= w.z <= -5.05)
            && (Next(w, e).room != w.room ==>
                  e.Restart? || (e.Frame? && w.dead && Next(w, e) == Start()) || (e.Frame? && DoorPassable(Swing(w, e.dt))))
  {
    hide Inv, Play, Sq, FlashSq, Walked, Swing, Moved, NearDoor;
    StartKeeps();
    PlayKeeps(Start(), events);
    var w := Play(Start(), events);
    InvParts(w);
    if e.Frame? {
      SwingRoom(w, e.dt);
      WalkedKeeps(Swing(w, e.dt), e.dt, e.heading, e.fast);
    }
  }

  lemma SwingRoom(w: World, dt: real)
    requires RoomBounds(w)
    ensures RoomBounds(Swing(w, dt)) && Swing(w, dt).room == w.room
  {
  }
}
