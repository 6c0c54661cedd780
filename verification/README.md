# BallControls — a verified model of the ball's keyboard force controller

This project models `BallControls` from `controls.js`. This is the controller
that lets the player push the physics-simulated ball around the scene with the
`w`, `a`, `s` and `d` keys. It has two parts:

- **Key state.** A map from the four tracked key names to "held or not". The
  key-down and key-up handlers lower-case the event's key name. If the result
  is one of the four names, they set that entry to held or to released.
  Any other name is ignored.
- **Force mapping.** Each frame, `update` builds a force vector from the held
  keys, one key at a time. `w` subtracts the speed from z and `s` adds it.
  `a` subtracts it from x and `d` adds it. y stays 0. The force is applied to
  the ball's body at the body's own position, unless the physics library's
  near-zero test reports it as almost zero.

Files:

- `vectors.dfy` (module `Vectors`): the 3-component vector. It also holds the
  near-zero test, written as "every component has magnitude at most `eps`".
  The library's default precision of 1e-6 is the constant `Precision`.
- `physics.dfy` (module `Physics`): the ball's body as an abstract object. It
  has a position and a log of the `(force, point)` pairs applied to it.
  `Body.ApplyForce` appends to that log and does not move the body.
- `controls.dfy` (module `Controls`): the key map, and the pure functions
  `SetKey` and `ForceOf` that specify the handlers and the force. It also
  holds the class `BallControls`, with the methods `OnKeyDown`, `OnKeyUp`,
  `ComputeForce` and `Update`, and the lemmas about the force.
- `key_events.dfy` (module `KeyEvents`): sequences of key events. It shows
  that after any sequence each key reflects the last event that named it.

`speed` and `ballBody` are `const` fields. No handler can change them, just as
no code in `controls.js` reassigns them after the constructor. The speed is a
`real`. Each force component is 0, +speed, -speed or speed - speed, so no
rounding is involved.

## Model

| member | source | states |
|---|---|---|
| Controls.Lower | controls.js:21 | lower-casing keeps the length and lower-cases each character |
| Controls.TrackedNames | controls.js:20-28 | a key name is tracked after lower-casing exactly when it is one of `w a s d W A S D` (both directions) |
| Controls.SetKey | controls.js:20-28 | an event leaves the key set unchanged; a tracked key's entry becomes the event's pressed/released value; every other entry keeps its value; an untracked name leaves the map unchanged |
| Controls.EventOnTrackedKey | controls.js:20-28 | from a well-formed map, an event in either letter case names a tracked key and sets its entry; every other entry keeps its value; any other name leaves the map unchanged; the domain stays exactly {w, a, s, d} |
| Vectors.AlmostZero | controls.js:38 | a vector is almost zero exactly when each component lies in [-eps, eps]; a vector can be almost zero only for eps >= 0 |
| Physics.Body.ApplyForce | controls.js:39 | appends exactly one `(force, point)` entry to the body's log of applied forces; the body's position is unchanged |
| Controls.ForceOf | controls.js:31-36 | the force has y = 0; its z is 0 when `w` and `s` agree; its x is 0 when `a` and `d` agree |
| Controls.NoKeysNoForce | controls.js:31-39 | with no key held the force is the zero vector, which is almost zero, so nothing is applied |
| Controls.ForceAppliedIff | controls.js:33-39 | when the speed's magnitude is above the precision, the force is not almost zero exactly when `w`≠`s` or `a`≠`d` |
| Controls.SmallSpeedNeverPushes | controls.js:33-39 | when the speed's magnitude is at most the precision, the force is always almost zero |
| Controls.ForwardOnlyAtDefaultSpeed | controls.js:5-39 | with only `w` held at the default speed 10 the force is (0, 0, -10), and it is applied |
| Controls.BallControls.constructor | controls.js:5-13 | stores the body and the speed (default 10); all four keys start released |
| Controls.BallControls.OnKeyDown | controls.js:20-23 | the new key map is `SetKey(old map, key, true)`; the map stays well formed |
| Controls.BallControls.OnKeyUp | controls.js:25-28 | the new key map is `SetKey(old map, key, false)`; the map stays well formed |
| Controls.BallControls.ComputeForce | controls.js:31-36 | the force built by the four conditional updates equals the closed form `ForceOf(keys, speed)` |
| Controls.BallControls.Update | controls.js:30-41 | appends exactly one application of `ForceOf(keys, speed)` at the body's current position when that force is not almost zero, otherwise leaves the log as it was; never changes the key map or the body's position |
| KeyEvents.Replay | controls.js:20-28 | handling a sequence of events never adds or removes a key |
| KeyEvents.ReplaySnoc | controls.js:20-28 | handling one more event applies `SetKey` to the map reached so far |
| KeyEvents.ReplayLastEventWins | controls.js:8-28 | after any sequence of events the map still holds exactly {w, a, s, d}; each key's entry is the kind of the last event naming it, in any case, or its initial value if no event names it |

## Left out

- The `window.addEventListener` registrations in the constructor (controls.js:16-17) are browser event plumbing. The handlers are methods called directly with the event's key name.
- The physics library's `Vec3.almostZero` and `Body.applyForce` internals (controls.js:38-39) are modelled abstractly. The first is the component-wise test against `eps`. The second is an entry appended to the body's log of applied forces. Torque, integration and the solver are not modelled.
- Controls.Lower: lower-cases ASCII letters only. Unicode case mapping is not modelled. No non-ASCII character lower-cases to `w`, `a`, `s` or `d`, and lower-casing never shortens a string, so which names are tracked is unaffected.
- Controls.BallControls.OnKeyDown, Controls.BallControls.OnKeyUp, Controls.SetKey: the source tests `this.keys[key] !== undefined` (controls.js:22 and controls.js:27), which is also true for names that JavaScript objects inherit, such as `constructor`. Such a name would add an entry to the key map. The model treats the map as a plain map of its four own entries. Browser key names never take these values.
- Physics.Body.ApplyForce: records the point passed to `applyForce` as it is, and does not model torque. In cannon-es that argument is a point relative to the centre of mass. controls.js:39 passes the body's world position there, so the library would also add a torque of position × force, not a pure linear push. The cannon-es source is not part of this model, so this is not claimed as a finding.
- JavaScript number semantics (NaN, infinities, rounding) are not modelled. The speed is an exact real.
- `main.js` (scene, camera, renderer, world setup and the animation loop) and `star.js` (the starfield) are not part of this model. They are calls into the rendering and physics engines, plus floating-point trigonometry over random samples.
