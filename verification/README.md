# Player controller of project-underworld, in Dafny

This project models the 2D platformer character controller of
project-underworld. It covers both controller variants, `Moves` and
`Movement`, together with the pieces that feed them events or take their
output:

- the ground probe's collider selection and box-cast query;
- the spell projectile's launch;
- the animation-state behaviour that turns "Cast" state entries and state
  exits into controller calls.

Each controller is an immutable state record. It is driven by a pure `Step`
function over an event datatype:

- movement input;
- jump, attack and cast input, each with its input phase;
- the per-frame update;
- the fixed physics step, which carries the ground probe's result and the
  step length;
- the physics engine moving the body;
- animation-state enter and exit callbacks.

`Run` delivers a sequence of events. The engine objects are reduced to what
the controllers write:

- the rigid body's velocity and gravity scale;
- the transform's vertical position and the sign-bearing x scale;
- the animator's pending triggers and its `isGrounded` and `doSomersault`
  bools.

Modules:

- `Basics` holds the vectors, settings, body, animator, events and constants.
- `GroundProbe` holds the choice of the first active collider and the box it
  casts downward.
- `Spell` holds the projectile launch and the direction the caster passes to
  it.
- `Controller` holds the state and handlers the two variants share. These
  are facing, horizontal drive, landing edge, sustained jump, attack
  selection, cast pose, end of attack and projectile launch. The variants
  agree on them up to the name of the default slash trigger ("fSlashes" in
  `Moves`, "attack" in `Movement`), and `Movement`'s sustained jump also
  raises its own somersault field.
- `Moves` is the variant whose cast input only starts a cooldown and sets the
  "cast" trigger. The cast pose begins when the attack behaviour sees the
  animator enter the state "Cast". Its somersault exists only as the
  animator bool.
- `Movement` is the variant whose cast input takes effect at once. There is
  no cooldown. The cast is refused while its own `doSomersault` field is set.
  That field is raised by a long enough held jump and lowered only by the
  somersault animation's exit.

The central invariant of both variants is `CoreInv`:

- casting implies attacking;
- casting implies no held jump;
- the previous ground sample equals the current one between fixed steps.

It holds at start-up and after every event, and so along every event trace
(`Moves.AlwaysInv`, `Movement.AlwaysInv`).

Three behaviours of the code are worth stating plainly:

- A jump start does not reset the held duration and does not clear a
  somersault. Only start-up and the landing edge reset the duration, so a
  stale duration at the cap cuts the next jump short
  (`Moves.StaleHoldCutsJumpShort`).
- Because the cast timer starts at -1, the first cast is accepted only from
  time `castCooldown - 1` on; with a two-second cooldown a cast at time 0 is
  refused (`Moves.FirstCastAfterAwake`). After an accepted cast the cooldown
  is measured from that cast (`Moves.CooldownScenario`).
- Releasing the jump key ends the jump at once, so the duration cap only
  ends a jump whose key is still held. `Movement.JumpHoldScenario` holds the
  key throughout.

## Model

| member | source | states |
|---|---|---|
| GroundProbe.FirstActive | project-underworld/Assets/Player/Scripts/Moves.cs:100-129 | the index found is active and every earlier collider in the order is inactive; nothing is found exactly when no collider in the order is active |
| GroundProbe.SelectCollider | project-underworld/Assets/Player/Scripts/Moves.cs:100-129 | the probe collider is the first active one in the order horizontal, vertical, forward slash, forward air slash, down air slash, up air slash; the cast collider is used exactly when none of them is active |
| GroundProbe.SelectionPriority | project-underworld/Assets/Player/Scripts/Moves.cs:102-129 | an active horizontal capsule always wins, the vertical capsule wins next, and with only the cast collider active (or none) the cast collider is used |
| GroundProbe.ProbeQuery | project-underworld/Assets/Player/Scripts/Moves.cs:131-133 | the box cast starts at the bottom centre of the collider bounds, is 0.9 times the bounds width and the configured height, and travels straight down the configured distance |
| GroundProbe.Probe | project-underworld/Assets/Player/Scripts/Moves.cs:100-133 | the probe is anchored at the bottom centre of the selected collider's bounds, is nine tenths of its width and the configured height, has no rotation, and travels straight down the configured distance |
| GroundProbe.ProbeWithinFootprint | project-underworld/Assets/Player/Scripts/Moves.cs:131-133 | the probe box never reaches past either side of the collider, and is strictly narrower when the collider has width |
| Spell.Cast | project-underworld/Assets/Player/Scripts/Spell.cs:16-24 | horizontal velocity becomes exactly direction times speed and vertical velocity is kept; a positive direction sets the scale to (-6, 6, 6), otherwise the scale is kept |
| Spell.CastDirection | project-underworld/Assets/Player/Scripts/Moves.cs:233 | the launch direction is +1 or -1 and is positive exactly when the caster's x scale is positive |
| Spell.LaunchFollowsScale | project-underworld/Assets/Player/Scripts/Spell.cs:16-24 | with positive speed the projectile flies right exactly when the caster's x scale is positive, at exactly that speed, and is mirrored when it flies right |
| Controller.AwakeCore | project-underworld/Assets/Player/Scripts/Moves.cs:55-67 | start-up faces right, is grounded (now and before), holds no jump, has zero held duration, is neither attacking nor casting, satisfies the invariant, and agrees with the scale exactly when the scene's x scale is positive |
| Controller.OnMove | project-underworld/Assets/Player/Scripts/Moves.cs:170-173 | the movement input is replaced and nothing else changes |
| Controller.Update | project-underworld/Assets/Player/Scripts/Moves.cs:69-87 | while casting, or with zero horizontal input, nothing changes; otherwise the character ends up facing the input's sign; a flip writes scale x = +2 or -2 to match and nothing else; agreement of facing and scale sign is kept |
| Controller.FixedUpdate | project-underworld/Assets/Player/Scripts/Moves.cs:89-163 | after the step, wasGrounded = isGrounded = the probe result; not casting gives vx = input x times moveSpeed; a rising ground edge ends the jump and zeroes the duration; a held jump under the cap sets vy = jumpForce, adds exactly dt, and raises the somersault bool iff the new duration reaches the threshold; otherwise the jump is over; attack, cast, facing, gravity and triggers are unchanged |
| Controller.HoldStaysBounded | project-underworld/Assets/Player/Scripts/Moves.cs:146-162 | one fixed step of length between 0 and maxDt keeps the held duration in [0, cap + maxDt] |
| Controller.OnJump | project-underworld/Assets/Player/Scripts/Moves.cs:175-189 | a started jump begins (isJumping, vy = jumpForce, "jump" trigger) exactly when grounded, not jumping and not attacking, and otherwise changes nothing; a release clears isJumping only; the held duration is never touched |
| Controller.AttackTrigger | project-underworld/Assets/Player/Scripts/Moves.cs:197-208 | "pogo" exactly when input y < 0 while airborne with abs(vy) > 0.1; "upAir" exactly when input y > 0 under the same condition; the default slash in every other case |
| Controller.OnAttack | project-underworld/Assets/Player/Scripts/Moves.cs:191-210 | dropped unless performed while not attacking; otherwise attacking is set and exactly the selected trigger is added |
| Controller.BeginCast | project-underworld/Assets/Player/Scripts/Moves.cs:221-228 | attacking and casting set, jump cleared, gravity 0.01, y lowered by 0.1, nothing else changed; the invariant is kept |
| Controller.FinishAttack | project-underworld/Assets/Player/Scripts/Moves.cs:237-246 | attacking and casting cleared, gravity back to 3, exactly the slash, pogo, upAir and cast triggers removed, nothing else changed; the invariant is kept |
| Controller.CastSpell | project-underworld/Assets/Player/Scripts/Moves.cs:230-235 | the projectile keeps its vertical velocity, flies at exactly the given speed one way or the other, and either keeps its scale or is mirrored |
| Controller.CastSpellFollowsFacing | project-underworld/Assets/Player/Scripts/Moves.cs:230-235 | with positive speed and facing agreeing with the scale, the projectile flies right exactly when the character faces right and left exactly when it faces left, and is mirrored exactly then |
| Moves.Awake | project-underworld/Assets/Player/Scripts/Moves.cs:55-67 | start-up satisfies the invariant, is idle and grounded, and starts the cast timer at -1 |
| Moves.OnCast | project-underworld/Assets/Player/Scripts/Moves.cs:212-219 | accepted exactly when performed, not attacking and now is at least prevCastTime + castCooldown; acceptance records now and adds "cast" only; a refused cast changes nothing; attack and cast flags are never touched |
| Moves.StartCast | project-underworld/Assets/Player/Scripts/Moves.cs:221-228 | attacking and casting set, jump cleared, gravity 0.01, y lowered by 0.1; the cast timer and every other field are unchanged; invariant kept |
| Moves.FinishAttack | project-underworld/Assets/Player/Scripts/Moves.cs:237-246 | both flags cleared, gravity 3, exactly fSlashes, pogo, upAir and cast removed, a pending "jump" untouched; the cast timer and every other field are unchanged |
| Moves.FinishSomersault | project-underworld/Assets/Player/Scripts/Moves.cs:165-168 | only the animator's somersault bool is cleared |
| Moves.StepKeepsInv | project-underworld/Assets/Player/Scripts/Moves.cs:221-246 | every event keeps casting implies attacking, casting implies no held jump, and wasGrounded = isGrounded |
| Moves.RunKeepsInv | project-underworld/Assets/Player/Scripts/Moves.cs:221-246 | the invariant survives any sequence of events |
| Moves.AlwaysInv | project-underworld/Assets/Player/Scripts/Moves.cs:64-65 | every state reachable from start-up satisfies the invariant, so casting always implies attacking |
| Moves.SomersaultExitDispatch | project-underworld/Assets/Player/Scripts/SomersaultStateHandler.cs:5-8 | leaving the somersault state clears only the animator's somersault bool; entering it changes nothing |
| Moves.AttackBehaviourDispatch | project-underworld/Assets/Player/Scripts/AttackStateHandler.cs:5-15 | entering "Cast" is exactly StartCast: attacking and casting set, jump cleared, gravity 0.01, y lowered by 0.1; entering any other state changes nothing; leaving any state is exactly FinishAttack: both flags cleared, gravity 3, and exactly fSlashes, pogo, upAir and cast removed |
| Moves.CastingStartsOnlyOnCastEnter | project-underworld/Assets/Player/Scripts/AttackStateHandler.cs:7-10 | the casting flag goes from false to true only on the attack behaviour's entry into "Cast" |
| Moves.NoCastEnterNoCasting | project-underworld/Assets/Player/Scripts/Moves.cs:212-219 | along any trace without a "Cast" state entry, and cast inputs included, a controller that is not casting stays not casting |
| Moves.AttackSelection | project-underworld/Assets/Player/Scripts/Moves.cs:191-210 | an attack while attacking (or not performed) is a no-op; otherwise attacking is set and exactly one of pogo, upAir, fSlashes is added, in that priority |
| Moves.CastingLocksMotion | project-underworld/Assets/Player/Scripts/Moves.cs:74-98 | in a valid casting state a frame changes nothing and a fixed step leaves the velocity at zero |
| Moves.StaleHoldCutsJumpShort | project-underworld/Assets/Player/Scripts/Moves.cs:175-183 | a jump start keeps the held duration, so with a stale duration at the cap and no landing edge the next fixed step ends the new jump |
| Moves.StepKeepsHoldBounded | project-underworld/Assets/Player/Scripts/Moves.cs:146-162 | only a fixed step changes the held duration, and one of length at most maxDt keeps it in [0, cap + maxDt] |
| Moves.RunKeepsHoldBounded | project-underworld/Assets/Player/Scripts/Moves.cs:146-162 | along any trace whose fixed steps last at most maxDt, the held duration stays in [0, cap + maxDt] |
| Moves.StepKeepsFacing | project-underworld/Assets/Player/Scripts/Moves.cs:74-86 | every event keeps the facing flag in agreement with the sign of the x scale |
| Moves.RunKeepsFacing | project-underworld/Assets/Player/Scripts/Moves.cs:74-86 | facing and scale sign agree along any trace once they agree |
| Moves.ProjectileFollowsFacing | project-underworld/Assets/Player/Scripts/Moves.cs:230-235 | from a scene with positive x scale, after any events, a projectile launched with positive speed flies right exactly when the character faces right, and left exactly when it faces left |
| Moves.CooldownScenario | project-underworld/Assets/Player/Scripts/Moves.cs:212-219 | with a 2 s cooldown, a cast accepted at t is followed by a dropped cast at t + 1 and an accepted one at t + 2.1 |
| Moves.FirstCastAfterAwake | project-underworld/Assets/Player/Scripts/Moves.cs:66 | at non-negative game time, the first cast after start-up is accepted exactly from castCooldown - 1 on |
| Movement.Awake | project-underworld/Assets/Player/Scripts/Movement.cs:47-59 | start-up satisfies the invariant, is idle and grounded with no somersault, and mirrors the animator exactly when its somersault bool starts false |
| Movement.OnCast | project-underworld/Assets/Player/Scripts/Movement.cs:200-211 | accepted exactly when performed, not attacking and not somersaulting, with no cooldown; acceptance sets attacking and casting, clears the jump, gravity 0.01, y lowered by 0.1, adds "cast" and changes nothing else; a refused cast changes nothing; the invariant is kept |
| Movement.FixedUpdate | project-underworld/Assets/Player/Scripts/Movement.cs:138-155 | the somersault field is set after the step exactly when it was set or the step sustained a held jump to a duration reaching the threshold; a newly raised flag comes with a held jump at or past the threshold; the animator mirror is kept; ground sample, landing reset, jump force and hold accumulation are those of the shared fixed step, which determines every other field |
| Movement.FinishAttack | project-underworld/Assets/Player/Scripts/Movement.cs:220-229 | both flags cleared, gravity 3, exactly attack, pogo, upAir and cast removed, a pending "jump" untouched, somersault kept, every other field unchanged |
| Movement.FinishSomersault | project-underworld/Assets/Player/Scripts/Movement.cs:231-235 | the somersault field and the animator bool are both cleared and nothing else changes |
| Movement.AttackExitDispatch | project-underworld/Assets/Player/Scripts/AttackStateExit.cs:5-8 | leaving an attack state is exactly FinishAttack: both flags cleared, gravity 3, exactly attack, pogo, upAir and cast removed, somersault field kept; entering any state changes nothing |
| Movement.SomersaultExitDispatch | project-underworld/Assets/Player/Scripts/SomersaultStateExit.cs:5-8 | leaving the somersault state clears the somersault field and the animator bool and nothing else |
| Movement.StepKeepsHoldBounded | project-underworld/Assets/Player/Scripts/Movement.cs:138-154 | only a fixed step changes the held duration, and one of length at most maxDt keeps it in [0, cap + maxDt] |
| Movement.RunKeepsHoldBounded | project-underworld/Assets/Player/Scripts/Movement.cs:138-154 | along any trace whose fixed steps last at most maxDt, the held duration stays in [0, cap + maxDt] |
| Movement.StepKeepsFacing | project-underworld/Assets/Player/Scripts/Movement.cs:66-78 | every event keeps the facing flag in agreement with the sign of the x scale |
| Movement.RunKeepsFacing | project-underworld/Assets/Player/Scripts/Movement.cs:66-78 | facing and scale sign agree along any trace once they agree |
| Movement.ProjectileFollowsFacing | project-underworld/Assets/Player/Scripts/Movement.cs:213-218 | from a scene with positive x scale, after any events, a projectile launched with positive speed flies right exactly when the character faces right, and left exactly when it faces left |
| Movement.StepKeepsInv | project-underworld/Assets/Player/Scripts/Movement.cs:200-229 | every event keeps casting implies attacking, casting implies no held jump, and wasGrounded = isGrounded |
| Movement.RunKeepsInv | project-underworld/Assets/Player/Scripts/Movement.cs:200-229 | the invariant survives any sequence of events |
| Movement.AlwaysInv | project-underworld/Assets/Player/Scripts/Movement.cs:57-58 | every state reachable from start-up satisfies the invariant, so casting always implies attacking |
| Movement.StepKeepsMirrored | project-underworld/Assets/Player/Scripts/Movement.cs:145-149 | every event keeps the somersault field equal to the animator bool |
| Movement.CastingStartsOnlyOnCastInput | project-underworld/Assets/Player/Scripts/Movement.cs:200-211 | casting goes from false to true only through an accepted cast input |
| Movement.SomersaultTransitions | project-underworld/Assets/Player/Scripts/Movement.cs:145-149 | the somersault flag rises only in a fixed step that sustains a held jump to a duration reaching the threshold, and falls only on the somersault animation's exit |
| Movement.SomersaultBlocksCasts | project-underworld/Assets/Player/Scripts/Movement.cs:202 | until the somersault animation's exit, the flag stays set and no cast can start |
| Movement.AttackSelection | project-underworld/Assets/Player/Scripts/Movement.cs:179-198 | an attack while attacking (or not performed) is a no-op; otherwise attacking is set and exactly one of pogo, upAir, attack is added, in that priority |
| Movement.JumpGuard | project-underworld/Assets/Player/Scripts/Movement.cs:163-177 | a started jump begins exactly when grounded, not jumping and not attacking, with vy = jumpForce and the "jump" trigger, and otherwise changes nothing; a release always clears isJumping |
| Movement.LandingResetsJump | project-underworld/Assets/Player/Scripts/Movement.cs:130-134 | landing after being airborne ends the jump and zeroes the held duration |
| Movement.CapEndsJumpInAir | project-underworld/Assets/Player/Scripts/Movement.cs:150-154 | a held duration at the cap ends the jump in the next fixed step even while airborne, leaving the somersault flag as it was |
| Movement.CastingLocksMotion | project-underworld/Assets/Player/Scripts/Movement.cs:66-90 | in a valid casting state a frame changes nothing and a fixed step leaves the velocity at zero |
| Movement.JumpHoldScenario | project-underworld/Assets/Player/Scripts/Movement.cs:138-155 | with threshold 0.4 s, cap 0.6 s and 0.1 s steps, a held jump somersaults at the fourth step, is still held after the sixth and ends at the seventh |

## Left out

- Engine plumbing is not modelled: component lookup, `Instantiate`, the fire point's pose, and the projectile's timed `Destroy` in `Spell.Awake`. They hold no logic beyond calling the engine.
- The box cast's collision resolution is left to the physics engine. Its result is the `groundHit` input of the fixed step. Only the query parameters are modelled, in `GroundProbe`.
- How the physics engine integrates the body between steps is not modelled. It is an `Integrate` event that may set any velocity and height.
- Animator internals are not modelled: the state graph, clip timing, when enter and exit callbacks fire, and triggers consumed by transitions. Callbacks are events, and triggers are a set that only the controllers add to and remove from.
- The `speed` and `yVelocity` float parameters written each frame are not modelled. They are pure output.
- Input phases and `ReadValue` are not modelled as such. They are the phase and value carried by each input event.
- Floating-point rounding is not modelled. Durations, velocities and scales are exact reals.
- The transform is reduced to its x-scale and vertical position. The y and z scale, which every flip resets to 2, and the horizontal position are not modelled.
- The projectile is reduced to its velocity and scale.
- Controller.HoldStaysBounded, Moves.RunKeepsHoldBounded, Movement.RunKeepsHoldBounded: assume fixed steps of non-negative length, as Unity's fixed time step always is.
- Moves.FirstCastAfterAwake: assumes game time is non-negative, as Unity's `Time.time` always is.
