/** The mutable state object of the simulation and the handlers that assign to it. */
module ShelterGame {
  import opened Wrappers
  import opened Shelter
  import opened ShelterRules

  class Game {
    var time: real
    var x: real
    var z: real
    var standing: bool
    var room: bool
    var doorOpen: bool
    var doorAngle: real
    var survived: bool
    var dead: bool
    var deathTime: real
    var aftermath: bool

    function View(): World
      reads this
    {
      World(time, x, z, standing, room, doorOpen, doorAngle, survived, dead, deathTime, aftermath)
    }

    constructor ()
      ensures View() == Start() && Inv(View())
    {
      time, x, z, standing, room := 0.0, 0.0, 0.0, false, false;
      doorOpen, doorAngle, survived, dead, deathTime, aftermath := false, 0.0, false, false, 0.0, false;
      new;
      StartKeeps();
    }

    method Reset()
      modifies this
      ensures View() == Start()
    {
      time, x, z, standing, room := 0.0, 0.0, 0.0, false, false;
      doorOpen, doorAngle, survived, dead, deathTime, aftermath := false, 0.0, false, false, 0.0, false;
    }

    method MoveTo(toX: real, toZ: real)
      modifies this`x, this`z, this`room
      ensures View() == Moved(old(View()), toX, toZ)
    {
      hide Sq;
      if room {
        if Abs(toX) > 2.40 || toZ < -9.4 { return; }
        if toZ > -5.05 {
          if !doorOpen || doorAngle < 1.3 || Abs(toX) > 0.66 { return; }
          room := false;
        }
      } else if (FloorAt(View(), 0.0) < -0.05 && !aftermath) || OnStairs(x, z) {
        if toZ < -2.0 && Abs(toX) > 0.66 { return; }
        if toZ < -5.05 {
          if !doorOpen || doorAngle < 1.3 || Abs(toX) > 0.66 { return; }
          room := true;
        }
      } else if Abs(toX) < 0.78 && toZ < -2.25 && toZ >= -5.05 {
        return;
      }
      x, z := toX, toZ;
    }

    method SwingDoor(dt: real)
      modifies this`time, this`doorAngle
      ensures View() == Swing(old(View()), dt)
    {
      time := time + dt;
      doorAngle := Mix(doorAngle, if doorOpen then HALF_PI else 0.0, if dt * 9.0 < 1.0 then dt * 9.0 else 1.0);
    }

    method Walk(dt: real, heading: Option<Heading>, fast: bool)
      modifies this`x, this`z, this`room, this`standing
      ensures View() == Walked(old(View()), dt, heading, fast)
    {
      hide Moved, Step, Length;
      if heading.Some? && !dead && time >= 8.5 {
        standing := true;
        MoveTo(Step(x, heading.value.ux, Length(dt, fast)), Step(z, heading.value.uz, Length(dt, fast)));
      }
    }

    method Strike()
      modifies this`survived, this`dead, this`deathTime, this`aftermath
      ensures View() == Struck(old(View()))
    {
      hide WaveReached;
      if WaveReached(View()) {
        if time >= 28.0 && survived {
          aftermath := true;
        } else if room && !doorOpen && doorAngle <= 0.04 {
          survived := true;
        } else {
          dead := true;
          deathTime := time;
        }
      }
    }

    /** The frame, handler by handler. */
    method Pass(dt: real, heading: Option<Heading>, fast: bool)
      modifies this
      ensures View() == Advanced(old(View()), dt, heading, fast)
    {
      DeadStays(View(), dt);
      hide Swing, Walked, Struck;
      SwingDoor(dt);
      if dead {
        if time - deathTime > 6.0 { Reset(); }
        return;
      }
      Walk(dt, heading, fast);
      Strike();
    }

    /**
     * One frame. A living player dies in it exactly if the wave has come as far, unless shut in
     * the room or a survivor from t = 28 on; shut in before then, the player survives.
     */
    method Advance(dt: real, heading: Option<Heading>, fast: bool)
      requires ValidEvent(Frame(dt, heading, fast)) && Inv(View())
      modifies this
      ensures View() == Advanced(old(View()), dt, heading, fast)
      ensures Inv(View())
      ensures survived && !dead ==> aftermath || (room && !doorOpen && doorAngle <= 0.04 && time < 28.0)
      ensures !old(dead) ==>
                var reached := time >= 11.0 && ((time - 11.0) * 5.8) * ((time - 11.0) * 5.8) >= x * x + (48.0 - z) * (48.0 - z);
                var behind := room && !doorOpen && doorAngle <= 0.04;
                && (dead <==> reached && !behind && !(time >= 28.0 && old(survived)))
                && (reached && behind && time < 28.0 ==> survived && !dead)
                && (aftermath <==> old(aftermath) || (reached && time >= 28.0 && old(survived)))
    {
      ghost var before := View();
      hide Advanced, Inv, ValidEvent;
      Pass(dt, heading, fast);
      FrameEnds(before, dt, heading, fast, View());
      if !before.dead { FateOf(before, dt, heading, fast, View(), time, x, z); }
    }

    method ToggleStance(live: bool)
      requires Inv(View())
      modifies this`standing, this`x, this`z
      ensures View() == StanceToggled(old(View()), live) && Inv(View())
      ensures standing && !old(standing) <==> live && !dead && time >= 8.5 && !old(standing)
      ensures !standing && old(standing) <==>
                live && !dead && time >= 8.5 && old(standing) && !aftermath && old(x * x + z * z) < 1.4 * 1.4
      ensures if old(standing) && !standing then x == 0.0 && z == 0.0 else x == old(x) && z == old(z)
    {
      StanceToggledIff(View(), live);
      StanceKeeps(View(), live);
      hide Sq, FlashSq, Inv, RoomBounds;
      if !live || dead || time < 8.5 { return; }
      if standing && (aftermath || Sq(x) + Sq(z) >= Sq(1.4)) { return; }
      standing := !standing;
      if !standing { x, z := 0.0, 0.0; }
    }

    method ToggleDoor(live: bool, ground: real)
      requires Inv(View())
      modifies this`doorOpen
      ensures View() == DoorToggled(old(View()), live, ground) && Inv(View())
      ensures doorOpen != old(doorOpen) <==>
                && live && !dead && time >= 8.5 && x * x + (z + 5.05) * (z + 5.05) < 2.25
                && (room || (-0.78 < x < 0.78 && -5.05 <= z < -2.0) || (aftermath && ground < -0.9))
    {
      DoorToggledIff(View(), live, ground);
      DoorKeeps(View(), live, ground);
      hide Sq, FlashSq, Inv, RoomBounds, NearDoor;
      if !live || dead || time < 8.5 || !NearDoor(View(), ground) { return; }
      doorOpen := !doorOpen;
    }
  }

  lemma DeadStays(w: World, dt: real)
    ensures Swing(w, dt).dead == w.dead
  {
  }

  lemma FrameEnds(w: World, dt: real, heading: Option<Heading>, fast: bool, v: World)
    requires ValidEvent(Frame(dt, heading, fast)) && Inv(w) && v == Advanced(w, dt, heading, fast)
    ensures Inv(v) && (v.survived && !v.dead ==> v.aftermath || (v.room && !v.doorOpen && v.doorAngle <= 0.04 && v.time < 28.0))
  {
    NextKeeps(w, Frame(dt, heading, fast));
    SafeMeans(v);
    hide Inv, Safe, Advanced;
  }

  lemma SafeMeans(w: World)
    requires Safe(w)
    ensures w.survived && !w.dead ==> w.aftermath || (w.room && !w.doorOpen && w.doorAngle <= 0.04 && w.time < 28.0)
  {
  }
}
