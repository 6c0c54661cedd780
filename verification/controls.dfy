/**
 * The keyboard-driven force controller of the rolling ball: a map of four
 * tracked keys updated by key-down and key-up events, and a per-frame update
 * that turns the held keys into a force on the ball's body.
 */
module Controls {
  import opened Vectors
  import opened Physics

  /** The names of the four tracked keys: forward, left, back, right. */
  const KeyNames: set<string> := {"w", "a", "s", "d"}

  /** The event names that denote a tracked key, in either letter case. */
  const TrackedEventNames: set<string> := {"w", "W", "a", "A", "s", "S", "d", "D"}

  /** The key map right after construction: every tracked key released. */
  const InitialKeys: map<string, bool> := map["w" := false, "a" := false, "s" := false, "d" := false]

  /** A key map holds exactly the four tracked keys. */
  predicate WellFormed(keys: map<string, bool>)
  {
    keys.Keys == KeyNames
  }

  /** Lower-casing of one character (ASCII letters only). */
  function LowerChar(c: char): char
  {
    if 'A' <= c <= 'Z' then (c as int + 32) as char else c
  }

  /** Lower-casing of an event's key name, character by character. */
  function Lower(s: string): (r: string)
    ensures |r| == |s|
    ensures forall i :: 0 <= i < |s| ==> r[i] == LowerChar(s[i])
  {
    if s == [] then [] else [LowerChar(s[0])] + Lower(s[1..])
  }

  /** An event name denotes a tracked key exactly when it is one of the
   *  four letters in lower or upper case. */
  lemma TrackedNames(name: string)
    ensures Lower(name) in KeyNames <==> name in TrackedEventNames
  {
    if Lower(name) in KeyNames {
      assert |name| == 1;
      assert name == [name[0]];
    }
    if name in TrackedEventNames {
      assert |name| == 1 && Lower(name) == [LowerChar(name[0])];
    }
  }

  /** The key map after an event for `name` that presses (`down`) or
   *  releases a key: the entry for the lower-cased name takes `down` when it
   *  is tracked, and every other entry keeps its value. */
  function SetKey(keys: map<string, bool>, name: string, down: bool): (r: map<string, bool>)
    ensures r.Keys == keys.Keys
    ensures Lower(name) in keys ==> r[Lower(name)] == down
    ensures forall k :: k in keys && k != Lower(name) ==> r[k] == keys[k]
    ensures Lower(name) !in keys ==> r == keys
  {
    var key := Lower(name);
    if key in keys then keys[key := down] else keys
  }

  /** An event for a tracked key, in any letter case, sets that key's entry
   *  and no other; any other event leaves the map as it was. */
  lemma EventOnTrackedKey(keys: map<string, bool>, name: string, down: bool)
    requires WellFormed(keys)
    ensures WellFormed(SetKey(keys, name, down))
    ensures name in TrackedEventNames ==> Lower(name) in keys && SetKey(keys, name, down)[Lower(name)] == down
    ensures forall k :: k in keys && k != Lower(name) ==> SetKey(keys, name, down)[k] == keys[k]
    ensures name !in TrackedEventNames ==> SetKey(keys, name, down) == keys
  {
    TrackedNames(name);
  }

  /** The contribution of one key to one force component. */
  function Push(held: bool, speed: real): real
  {
    if held then speed else 0.0
  }

  /** The force the held keys call for: `d` pushes +x and `a` -x, `s` pushes
   *  +z and `w` -z, and there is never vertical thrust. */
  function ForceOf(keys: map<string, bool>, speed: real): (f: Vec3)
    requires WellFormed(keys)
    ensures f.y == 0.0
    ensures keys["w"] == keys["s"] ==> f.z == 0.0
    ensures keys["a"] == keys["d"] ==> f.x == 0.0
  {
    Vec3(Push(keys["d"], speed) - Push(keys["a"], speed), 0.0,
         Push(keys["s"], speed) - Push(keys["w"], speed))
  }

  /** With no key held the force is zero, and zero is almost zero. */
  lemma NoKeysNoForce(speed: real, eps: real)
    requires 0.0 < eps
    ensures ForceOf(InitialKeys, speed) == Zero
    ensures AlmostZero(ForceOf(InitialKeys, speed), eps)
  {
  }

  /** When the speed exceeds the precision, the force is applied exactly
   *  when some pair of opposite keys does not cancel out. */
  lemma ForceAppliedIff(keys: map<string, bool>, speed: real, eps: real)
    requires WellFormed(keys)
    requires 0.0 < eps < Abs(speed)
    ensures !AlmostZero(ForceOf(keys, speed), eps) <==> keys["w"] != keys["s"] || keys["a"] != keys["d"]
  {
  }

  /** A speed no larger than the precision never produces a force. */
  lemma SmallSpeedNeverPushes(keys: map<string, bool>, speed: real, eps: real)
    requires WellFormed(keys)
    requires 0.0 < eps && Abs(speed) <= eps
    ensures AlmostZero(ForceOf(keys, speed), eps)
  {
  }

  /** Forward alone at the default speed pushes along -z, and is applied. */
  lemma ForwardOnlyAtDefaultSpeed()
    ensures ForceOf(InitialKeys["w" := true], 10.0) == Vec3(0.0, 0.0, -10.0)
    ensures !AlmostZero(ForceOf(InitialKeys["w" := true], 10.0), Precision)
  {
  }

  class BallControls {
    const ballBody: Body
    const speed: real
    var keys: map<string, bool>

    ghost predicate Valid()
      reads this
    {
      WellFormed(keys)
    }

    constructor (ballBody: Body, speed: real := 10.0)
      ensures this.ballBody == ballBody && this.speed == speed
      ensures keys == InitialKeys && Valid()
    {
      this.ballBody := ballBody;
      this.speed := speed;
      keys := InitialKeys;
    }

    /** Key-down: mark the lower-cased key held if it is tracked. */
    method OnKeyDown(key: string)
      modifies this
      ensures keys == SetKey(old(keys), key, true)
      ensures old(Valid()) ==> Valid()
    {
      var k := Lower(key);
      if k in keys {
        keys := keys[k := true];
      }
    }

    /** Key-up: mark the lower-cased key released if it is tracked. */
    method OnKeyUp(key: string)
      modifies this
      ensures keys == SetKey(old(keys), key, false)
      ensures old(Valid()) ==> Valid()
    {
      var k := Lower(key);
      if k in keys {
        keys := keys[k := false];
      }
    }

    /** Build the force from the held keys, one key at a time. */
    method ComputeForce() returns (force: Vec3)
      requires Valid()
      ensures force == ForceOf(keys, speed)
    {
      force := Zero;
      if keys["w"] { force := force.(z := force.z - speed); }
      if keys["s"] { force := force.(z := force.z + speed); }
      if keys["a"] { force := force.(x := force.x - speed); }
      if keys["d"] { force := force.(x := force.x + speed); }
    }

    /** Per-frame update: apply the force at the body's position unless it
     *  is almost zero. The key map is left as it is. */
    method Update()
      requires Valid()
      modifies ballBody
      ensures keys == old(keys) && Valid()
      ensures ballBody.position == old(ballBody.position)
      ensures var f := ForceOf(keys, speed);
        ballBody.applied ==
          if AlmostZero(f, Precision) then old(ballBody.applied)
          else old(ballBody.applied) + [Application(f, old(ballBody.position))]
    {
      var force := ComputeForce();
      if !AlmostZero(force, Precision) {
        ballBody.ApplyForce(force, ballBody.position);
      }
    }
  }
}
