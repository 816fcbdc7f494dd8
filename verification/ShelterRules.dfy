/** The rules of the simulation in plain numbers: who dies, who survives, which steps are taken. */
module ShelterRules {
  import opened Wrappers
  import opened Shelter

  // ---------- the fate of a player ----------

  /**
   * A living player dies in a frame exactly if the wave, at 5.8 per second from t = 11, has come
   * as far as the player stands after the step, and the player is neither in the room behind a
   * door that is shut to .04, nor a survivor from t = 28 on. Reached behind that door before
   * t = 28 the player survives; a survivor reached from then on is in the aftermath.
   */
  lemma Fate(w: World, dt: real, heading: Option<Heading>, fast: bool)
    requires !w.dead
    ensures var v := Advanced(w, dt, heading, fast);
            var reached := v.time >= 11.0 && ((v.time - 11.0) * 5.8) * ((v.time - 11.0) * 5.8) >= v.x * v.x + (48.0 - v.z) * (48.0 - v.z);
            var behind := v.room && !v.doorOpen && v.doorAngle <= 0.04;
            var late := v.time >= 28.0 && w.survived;
            && (v.dead <==> reached && !behind && !late)
            && (v.survived <==> w.survived || (reached && behind && !late))
            && (v.aftermath <==> w.aftermath || (reached && late))
            && (v.dead ==> v.deathTime == v.time)
            && (reached && behind && v.time < 28.0 ==> v.survived && !v.dead)
  {
    WalkedFate(Swing(w, dt), dt, heading, fast);
    hide Walked;
  }

  /** The same for the state after the frame, field by field. */
  lemma FateOf(w: World, dt: real, heading: Option<Heading>, fast: bool, v: World, time: real, x: real, z: real)
    requires !w.dead && v == Advanced(w, dt, heading, fast) && v.time == time && v.x == x && v.z == z
    ensures var reached := time >= 11.0 && ((time - 11.0) * 5.8) * ((time - 11.0) * 5.8) >= x * x + (48.0 - z) * (48.0 - z);
            var behind := v.room && !v.doorOpen && v.doorAngle <= 0.04;
            && (v.dead <==> reached && !behind && !(time >= 28.0 && w.survived))
            && (reached && behind && time < 28.0 ==> v.survived && !v.dead)
            && (v.aftermath <==> w.aftermath || (reached && time >= 28.0 && w.survived))
  {
    WalkedFate(Swing(w, dt), dt, heading, fast);
    hide Walked, Sq;
    Squares(x, 48.0 - z);
    Squares((time - 11.0) * 5.8, x);
  }

  lemma WalkedFate(w: World, dt: real, heading: Option<Heading>, fast: bool)
    ensures var v := Walked(w, dt, heading, fast);
            && v.time == w.time && v.doorOpen == w.doorOpen && v.doorAngle == w.doorAngle
            && v.survived == w.survived && v.dead == w.dead && v.deathTime == w.deathTime && v.aftermath == w.aftermath
  {
    hide Step, Length;
  }

  /** Six seconds after a death everything starts again; until then only the clock and the door move. */
  lemma DeadWait(w: World, dt: real, heading: Option<Heading>, fast: bool)
    requires w.dead
    ensures var v := Advanced(w, dt, heading, fast);
            if w.time + dt - w.deathTime > 6.0
            then v == World(0.0, 0.0, 0.0, false, false, false, 0.0, false, false, 0.0, false)
            else v == w.(time := w.time + dt, doorAngle := v.doorAngle)
  {
  }

  /** The door swings toward fully open or shut, nine times the remaining angle a second and never past it. */
  lemma DoorSwings(w: World, dt: real, heading: Option<Heading>, fast: bool)
    requires !w.dead
    ensures var v := Advanced(w, dt, heading, fast);
            var share := if dt * 9.0 < 1.0 then dt * 9.0 else 1.0;
            var target := if w.doorOpen then 1.5707963267948966 else 0.0;
            && v.time == w.time + dt && v.doorOpen == w.doorOpen
            && v.doorAngle == w.doorAngle + (target - w.doorAngle) * share
  {
    WalkedFate(Swing(w, dt), dt, heading, fast);
    hide Walked;
  }

  // ---------- which steps are taken ----------

  /**
   * A step from inside the room is taken up to its walls, and out of it through the door if that
   * stands open; from the stairs, between their walls, and into the room through the door; from
   * above, anywhere but sideways into the stairwell.
   */
  lemma MovedIff(w: World, x: real, z: real)
    ensures var stairs := -0.78 < w.x < 0.78 && -5.05 <= w.z < -2.0;
            var narrow := -0.66 <= x <= 0.66;
            var door := w.doorOpen && w.doorAngle >= 1.3 && narrow;
            var taken := if w.room then -2.40 <= x <= 2.40 && z >= -9.4 && (z > -5.05 ==> door)
                         else if stairs then (z < -2.0 ==> narrow) && (z < -5.05 ==> door)
                         else !(-0.78 < x < 0.78 && -5.05 <= z < -2.25);
            var room := if w.room then z <= -5.05 else stairs && z < -5.05;
            Moved(w, x, z) == if taken then w.(x := x, z := z, room := room) else w
  {
  }

  /**
   * A frame moves a living player only on a heading and from t = 8.5 on, by one step at 2.5 per
   * second, or 3.3 when fast, to (x, z), if that step is taken; whoever sets out stands up.
   */
  lemma FrameMoves(w: World, dt: real, heading: Option<Heading>, fast: bool, step: real, x: real, z: real)
    requires !w.dead && step == (if fast then 3.3 * dt else 2.5 * dt)
    requires heading.Some? ==> x == w.x + heading.value.ux * step && z == w.z + heading.value.uz * step
    ensures var v := Advanced(w, dt, heading, fast);
            if heading.None? || w.time + dt < 8.5
            then v.x == w.x && v.z == w.z && v.room == w.room && v.standing == w.standing
            else
              var stairs := -0.78 < w.x < 0.78 && -5.05 <= w.z < -2.0;
              var narrow := -0.66 <= x <= 0.66;
              var door := w.doorOpen && v.doorAngle >= 1.3 && narrow;
              var taken := if w.room then -2.40 <= x <= 2.40 && z >= -9.4 && (z > -5.05 ==> door)
                           else if stairs then (z < -2.0 ==> narrow) && (z < -5.05 ==> door)
                           else !(-0.78 < x < 0.78 && -5.05 <= z < -2.25);
              && v.standing
              && v.x == (if taken then x else w.x) && v.z == (if taken then z else w.z)
              && v.room == (if !taken then w.room else if w.room then z <= -5.05 else stairs && z < -5.05)
  {
    hide Struck, Moved, Swing, Walked, Step, Length;
    var a := Swing(w, dt);
    SwingMeans(w, dt);
    WalkedFate(a, dt, heading, fast);
    StruckPlace(Walked(a, dt, heading, fast));
    WalkedMeans(a, dt, heading, fast, step, x, z);
    MovedIff(a.(standing := true), x, z);
    AdvancedMeans(w, dt, heading, fast);
    hide Advanced;
  }

  lemma AdvancedMeans(w: World, dt: real, heading: Option<Heading>, fast: bool)
    requires !w.dead
    ensures Advanced(w, dt, heading, fast) == Struck(Walked(Swing(w, dt), dt, heading, fast))
    ensures Advanced(w, dt, heading, fast).doorAngle == Swing(w, dt).doorAngle
  {
    WalkedFate(Swing(w, dt), dt, heading, fast);
    hide Walked;
  }

  lemma SwingMeans(w: World, dt: real)
    ensures var a := Swing(w, dt); a == w.(time := w.time + dt, doorAngle := a.doorAngle)
  {
  }

  lemma WalkedMeans(w: World, dt: real, heading: Option<Heading>, fast: bool, step: real, x: real, z: real)
    requires step == (if fast then 3.3 * dt else 2.5 * dt)
    requires heading.Some? ==> x == w.x + heading.value.ux * step && z == w.z + heading.value.uz * step
    ensures Walked(w, dt, heading, fast) ==
            if heading.None? || w.dead || w.time < 8.5 then w else Moved(w.(standing := true), x, z)
  {
    hide Moved, Step, Length;
    if heading.Some? {
      StepMeans(w.x, heading.value.ux, dt, fast, step);
      StepMeans(w.z, heading.value.uz, dt, fast, step);
      assert Step(w.x, heading.value.ux, Length(dt, fast)) == x;
      assert Step(w.z, heading.value.uz, Length(dt, fast)) == z;
    }
  }

  lemma StepMeans(p: real, u: real, dt: real, fast: bool, step: real)
    requires step == (if fast then 3.3 * dt else 2.5 * dt)
    ensures Step(p, u, Length(dt, fast)) == p + u * step
  {
    assert Length(dt, fast) == step;
  }

  lemma StruckPlace(w: World)
    ensures var v := Struck(w); v.x == w.x && v.z == w.z && v.room == w.room && v.standing == w.standing
  {
    hide WaveReached;
  }

  // ---------- the toggles ----------

  /**
   * The door is toggled exactly by a player who is ready, within 1.5 of it, and below -.9: in the
   * room, on the stairs (there that near is deep enough), or in a crater that deep.
   */
  lemma DoorToggledIff(w: World, live: bool, ground: real)
    ensures var stairs := -0.78 < w.x < 0.78 && -5.05 <= w.z < -2.0;
            var near := w.x * w.x + (w.z + 5.05) * (w.z + 5.05) < 2.25;
            var low := w.room || stairs || (w.aftermath && ground < -0.9);
            DoorToggled(w, live, ground) ==
            if live && !w.dead && w.time >= 8.5 && near && low then w.(doorOpen := !w.doorOpen) else w
  {
    NearBelow(w.x, w.z);
    assert Sq(1.5) == 2.25;
    hide Sq;
    assert Sq(w.x) == w.x * w.x && Sq(w.z + 5.05) == (w.z + 5.05) * (w.z + 5.05) by { Squares(w.x, w.z + 5.05); }
  }

  lemma Squares(a: real, b: real)
    ensures Sq(a) == a * a && Sq(b) == b * b
  {
  }

  lemma NearBelow(x: real, z: real)
    ensures x * x + (z + 5.05) * (z + 5.05) < 2.25 ==> z < -3.55
  {
    var d := z + 5.05;
    assert x * x >= 0.0;
    if d >= 1.5 { assert d * d >= 2.25 by { SquareOrder(1.5, d); } }
  }

  /** Standing up is always open to a ready player; sitting down only before the aftermath, within 1.4 of the chair. */
  lemma StanceToggledIff(w: World, live: bool)
    ensures StanceToggled(w, live) ==
            if !live || w.dead || w.time < 8.5 then w
            else if !w.standing then w.(standing := true)
            else if !w.aftermath && w.x * w.x + w.z * w.z < 1.4 * 1.4 then w.(standing := false, x := 0.0, z := 0.0)
            else w
  {
  }

  // ---------- somebody survives ----------

  function Times(n: nat, e: Event): (events: seq<Event>)
    ensures |events| == n && forall i :: 0 <= i < n ==> events[i] == e
  {
    seq(n, i => e)
  }

  lemma {:induction false} PlayAppend(w: World, a: seq<Event>, b: seq<Event>)
    ensures Play(w, a + b) == Play(Play(w, a), b)
    decreases |a|
  {
    hide Next;
    if a == [] {
      assert a + b == b;
    } else {
      assert (a + b)[1..] == a[1..] + b;
      PlayAppend(Next(w, a[0]), a[1..], b);
    }
  }

  lemma PlayOne(w: World, e: Event)
    ensures Play(w, [e]) == Next(w, e)
  {
    assert Play(Next(w, e), []) == Next(w, e);
  }

  lemma PlayTimes(w: World, n: nat, e: Event)
    requires n > 0
    ensures Play(w, Times(n, e)) == Play(Next(w, e), Times(n - 1, e))
  {
    assert Times(n, e)[1..] == Times(n - 1, e);
  }

  const IDLE: Event := Frame(0.08, None, false)

  /** A step of .2 straight back, toward the stairs. */
  const BACK: Event := Frame(0.08, Some(Heading(0.0, -1.0)), false)

  /** On the chair's line before the wave: the player at z, the door at an angle. */
  function Before(time: real, z: real, standing: bool, room: bool, doorOpen: bool, angle: real): World {
    World(time, 0.0, z, standing, room, doorOpen, angle, false, false, 0.0, false)
  }

  /** Before t = 11 an idle frame is only time, and the door. */
  lemma IdleEarly(time: real, z: real, standing: bool, room: bool, doorOpen: bool, angle: real)
    requires time + 0.08 < 11.0
    ensures var turned := angle + ((if doorOpen then HALF_PI else 0.0) - angle) * 0.72;
            Next(Before(time, z, standing, room, doorOpen, angle), IDLE) == Before(time + 0.08, z, standing, room, doorOpen, turned)
  {
  }

  lemma {:induction false} Waits(time: real, n: nat)
    requires 0.0 <= time && time + 0.08 * n as real < 11.0
    ensures Play(Before(time, 0.0, false, false, false, 0.0), Times(n, IDLE)) ==
            Before(time + 0.08 * n as real, 0.0, false, false, false, 0.0)
    decreases n
  {
    hide Next;
    if n > 0 {
      IdleEarly(time, 0.0, false, false, false, 0.0);
      PlayTimes(Before(time, 0.0, false, false, false, 0.0), n, IDLE);
      Waits(time + 0.08, n - 1);
      assert time + 0.08 + 0.08 * (n - 1) as real == time + 0.08 * n as real;
    }
  }

  /** One step back above the stairs, down them, or through the open door. */
  lemma BackEarly(time: real, z: real, standing: bool, doorOpen: bool, angle: real)
    requires 8.42 <= time && time + 0.08 < 11.0 && -5.05 <= z <= 0.0
    requires z - 0.2 < -5.05 ==> doorOpen && angle + (HALF_PI - angle) * 0.72 >= 1.3
    ensures var turned := angle + ((if doorOpen then HALF_PI else 0.0) - angle) * 0.72;
            Next(Before(time, z, standing, false, doorOpen, angle), BACK) ==
            Before(time + 0.08, z - 0.2, true, z - 0.2 < -5.05, doorOpen, turned)
  {
    var w := Before(time, z, standing, false, doorOpen, angle);
    var a := Swing(w, 0.08);
    assert Step(a.x, 0.0, Length(0.08, false)) == 0.0 && Step(a.z, -1.0, Length(0.08, false)) == z - 0.2;
    hide Step, Length;
    MovedIff(a.(standing := true), 0.0, z - 0.2);
    hide Moved;
  }

  /** n steps back in front of the shut door. */
  lemma {:induction false} WalksBack(time: real, z: real, standing: bool, n: nat)
    requires 8.42 <= time && time + 0.08 * n as real < 11.0 && z <= 0.0 && z - 0.2 * n as real >= -5.05
    ensures Play(Before(time, z, standing, false, false, 0.0), Times(n, BACK)) ==
            Before(time + 0.08 * n as real, z - 0.2 * n as real, standing || n > 0, false, false, 0.0)
    decreases n
  {
    hide Next;
    if n > 0 {
      assert z - 0.2 >= -5.05 by { Nonnegative(n - 1); }
      assert time + 0.08 < 11.0 by { Nonnegative(n - 1); }
      BackEarly(time, z, standing, false, 0.0);
      PlayTimes(Before(time, z, standing, false, false, 0.0), n, BACK);
      WalksBack(time + 0.08, z - 0.2, true, n - 1);
    }
  }

  lemma Nonnegative(n: nat)
    ensures 0.0 <= n as real
  {
  }

  /** n steps back while the door swings open. */
  lemma {:induction false} WalksIn(time: real, z: real, angle: real, n: nat) returns (turned: real)
    requires 8.42 <= time && time + 0.08 * n as real < 11.0 && z <= 0.0 && z - 0.2 * n as real >= -5.05 && 0.0 <= angle <= HALF_PI
    ensures Play(Before(time, z, true, false, true, angle), Times(n, BACK)) ==
            Before(time + 0.08 * n as real, z - 0.2 * n as real, true, false, true, turned)
    ensures angle <= turned <= HALF_PI
    ensures (n >= 1 ==> HALF_PI - turned <= (HALF_PI - angle) * 0.28) && (n >= 2 ==> HALF_PI - turned <= (HALF_PI - angle) * 0.0784)
    decreases n
  {
    hide Next;
    turned := angle;
    if n > 0 {
      assert z - 0.2 >= -5.05 by { Nonnegative(n - 1); }
      assert time + 0.08 < 11.0 by { Nonnegative(n - 1); }
      BackEarly(time, z, true, true, angle);
      PlayTimes(Before(time, z, true, false, true, angle), n, BACK);
      turned := WalksIn(time + 0.08, z - 0.2, angle + (HALF_PI - angle) * 0.72, n - 1);
    }
  }

  /** Behind the shut door, and a survivor by the time the wave has surely come. */
  predicate Resting(w: World) {
    && w.x == 0.0 && w.z == -5.2 && w.standing && w.room && !w.doorOpen && 0.0 <= w.doorAngle <= 0.04
    && !w.dead && (w.survived || w.time < 20.2)
  }

  lemma Rests(w: World)
    requires Resting(w)
    ensures Resting(Next(w, IDLE)) && Next(w, IDLE).time == w.time + 0.08 && (w.time >= 27.92 ==> Next(w, IDLE).aftermath)
    ensures w.survived ==> Next(w, IDLE).survived
  {
    Fate(w, 0.08, None, false);
    DoorSwings(w, 0.08, None, false);
    FrameMoves(w, 0.08, None, false, 0.2, 0.0, 0.0);
    Front(w.time + 0.08);
    hide Advanced;
  }

  /** Where the wave front is: past 53.2 from t = 20.2 on. */
  lemma Front(time: real)
    ensures time >= 20.2 ==> ((time - 11.0) * 5.8) * ((time - 11.0) * 5.8) >= 0.0 * 0.0 + (48.0 - -5.2) * (48.0 - -5.2)
  {
    if time >= 20.2 {
      SquareOrder(53.2, (time - 11.0) * 5.8);
      Squares(53.2, (time - 11.0) * 5.8);
    }
  }

  lemma {:induction false} RestsOn(w: World, n: nat)
    requires Resting(w)
    ensures var v := Play(w, Times(n, IDLE));
            && Resting(v) && v.time == w.time + 0.08 * n as real
            && (n > 0 && w.time + 0.08 * n as real >= 28.0 ==> v.aftermath)
    decreases n
  {
    hide Next, Resting;
    if n > 0 {
      Rests(w);
      PlayTimes(w, n, IDLE);
      RestsOn(Next(w, IDLE), n - 1);
    }
  }

  lemma Onward(events: seq<Event>, more: seq<Event>, w: World)
    requires Play(Start(), events) == w && (forall e <- events :: ValidEvent(e)) && (forall e <- more :: ValidEvent(e))
    ensures Play(Start(), events + more) == Play(w, more) && forall e <- events + more :: ValidEvent(e)
  {
    hide Next, ValidEvent;
    PlayAppend(Start(), events, more);
  }

  lemma Valid(n: nat)
    ensures (forall e <- Times(n, IDLE) :: ValidEvent(e)) && (forall e <- Times(n, BACK) :: ValidEvent(e))
    ensures ValidEvent(BACK) && ValidEvent(Door(true, 0.0)) && ValidEvent(IDLE)
  {
    assert ValidEvent(IDLE) && ValidEvent(BACK) && ValidEvent(Door(true, 0.0));
  }

  /** From the chair to the landing in front of the door. */
  lemma ToTheDoor() returns (events: seq<Event>)
    ensures (forall e <- events :: ValidEvent(e)) && Play(Start(), events) == Before(10.16, -4.0, true, false, true, 0.0)
  {
    hide Next, ValidEvent;
    Valid(107);
    Valid(20);
    Waits(0.0, 107);
    WalksBack(8.56, 0.0, false, 20);
    var w1, w2, w3 := Before(8.56, 0.0, false, false, false, 0.0), Before(10.16, -4.0, true, false, false, 0.0), Before(10.16, -4.0, true, false, true, 0.0);
    assert Play(Start(), []) == Start() == Before(0.0, 0.0, false, false, false, 0.0);
    Onward([], Times(107, IDLE), Start());
    events := [] + Times(107, IDLE);
    Onward(events, Times(20, BACK), w1);
    events := events + Times(20, BACK);
    DoorToggledIff(w2, true, 0.0);
    DoorNext(w2);
    PlayOne(w2, Door(true, 0.0));
    Onward(events, [Door(true, 0.0)], w2);
    events := events + [Door(true, 0.0)];
  }

  lemma DoorNext(w: World)
    ensures Next(w, Door(true, 0.0)) == DoorToggled(w, true, 0.0)
  {
  }

  /** Through the door, and shut behind. */
  lemma IntoTheRoom() returns (events: seq<Event>, angle: real)
    ensures (forall e <- events :: ValidEvent(e)) && Play(Start(), events) == Before(10.64, -5.2, true, true, false, angle)
    ensures 0.0 <= angle <= HALF_PI
  {
    hide Next, ValidEvent;
    Valid(5);
    events := ToTheDoor();
    var turned := WalksIn(10.16, -4.0, 0.0, 5);
    var w1, w2 := Before(10.16, -4.0, true, false, true, 0.0), Before(10.56, -5.0, true, false, true, turned);
    Onward(events, Times(5, BACK), w1);
    events := events + Times(5, BACK);
    angle := turned + (HALF_PI - turned) * 0.72;
    BackEarly(10.56, -5.0, true, true, turned);
    PlayOne(w2, BACK);
    Onward(events, [BACK], w2);
    events := events + [BACK];
    var w3 := Before(10.64, -5.2, true, true, true, angle);
    DoorToggledIff(w3, true, 0.0);
    DoorNext(w3);
    PlayOne(w3, Door(true, 0.0));
    Onward(events, [Door(true, 0.0)], w3);
    events := events + [Door(true, 0.0)];
  }

  /** Three frames shut the door. */
  lemma Shuts(angle: real)
    requires 0.0 <= angle <= HALF_PI
    ensures var v := Play(Before(10.64, -5.2, true, true, false, angle), Times(3, IDLE));
            Resting(v) && v.time == 10.88
  {
    var a1 := angle + (0.0 - angle) * 0.72;
    var a2 := a1 + (0.0 - a1) * 0.72;
    var a3 := a2 + (0.0 - a2) * 0.72;
    IdleEarly(10.64, -5.2, true, true, false, angle);
    IdleEarly(10.72, -5.2, true, true, false, a1);
    IdleEarly(10.80, -5.2, true, true, false, a2);
    hide Next;
    PlayTimes(Before(10.64, -5.2, true, true, false, angle), 3, IDLE);
    PlayTimes(Before(10.72, -5.2, true, true, false, a1), 2, IDLE);
    PlayTimes(Before(10.80, -5.2, true, true, false, a2), 1, IDLE);
    assert Play(Before(10.88, -5.2, true, true, false, a3), Times(0, IDLE)) == Before(10.88, -5.2, true, true, false, a3);
  }

  /** There is a run in which the player lives to see the aftermath. */
  lemma SomebodySurvives()
    ensures exists events: seq<Event> ::
              && (forall e <- events :: ValidEvent(e))
              && var w := Play(Start(), events); !w.dead && w.survived && w.aftermath && w.room
  {
    hide Next, ValidEvent, Play;
    Valid(3);
    Valid(220);
    var events, angle := IntoTheRoom();
    var w := Before(10.64, -5.2, true, true, false, angle);
    Shuts(angle);
    Onward(events, Times(3, IDLE), w);
    events := events + Times(3, IDLE);
    var v := Play(w, Times(3, IDLE));
    RestsOn(v, 220);
    Onward(events, Times(220, IDLE), v);
    events := events + Times(220, IDLE);
    assert Resting(Play(Start(), events));
    assert Play(Start(), events).aftermath;
  }

  /** The stairs lead evenly from the street down to the floor of the room. */
  lemma StairsJoin(w: World, v: World, ground: real)
    requires !w.room && OnStairs(w.x, w.z) && !v.room && OnStairs(v.x, v.z)
    ensures -2.6 <= FloorAt(w, ground) < 0.0
    ensures w.z == -5.05 ==> FloorAt(w, ground) == -2.6
    ensures (FloorAt(w, ground) - FloorAt(v, ground)) * 3.05 == (w.z - v.z) * 2.6
  {
  }
}
