/** Vocabulary shared by both player controllers: vectors, input phases,
    the tunable settings, the engine-owned values the controllers write
    (rigid body, transform, animator parameters) and the events that drive
    them. Floating-point values are modelled as exact reals. */
module Basics {

  datatype Vec2 = Vec2(x: real, y: real)

  const Zero: Vec2 := Vec2(0.0, 0.0)

  /** Phase of an input-system callback (started, performed or canceled). */
  datatype Phase = Started | Performed | Canceled

  /** Serialized settings common to both controllers. */
  datatype Config = Config(
    moveSpeed: real,
    jumpForce: real,
    maxJumpKeyDownDuration: real,
    somersaultThreshold: real)

  /** Values of the engine objects the controller writes: the rigid body's
      velocity and gravity scale, the transform's vertical position and the
      x component of its local scale (the only part the model needs). */
  datatype Body = Body(velocity: Vec2, gravityScale: real, posY: real, scaleX: real)

  /** Animator parameters the controller drives: the triggers that are set
      and not yet reset, and the two boolean parameters. */
  datatype Animator = Animator(triggers: set<string>, isGrounded: bool, doSomersault: bool)

  /** Which animation-state behaviour delivers a callback: the attack
      handler (enter/exit of attack and cast states) or the somersault
      handler (exit of the somersault state). */
  datatype Behaviour = AttackBehaviour | SomersaultBehaviour

  /** Everything that can happen to a controller between two observations. */
  datatype Event =
    | Move(input: Vec2)                          // movement input changed
    | Jump(phase: Phase)                         // jump input callback
    | Attack(phase: Phase)                       // attack input callback
    | Cast(phase: Phase, now: real)              // cast input callback at game time `now`
    | Frame                                      // per-frame update
    | FixedStep(groundHit: bool, dt: real)       // fixed physics update; groundHit is the box-cast result
    | Integrate(velocity: Vec2, posY: real)      // the physics engine moved the body
    | StateEnter(behaviour: Behaviour, name: string)
    | StateExit(behaviour: Behaviour, name: string)

  // Animator trigger names and the name of the cast animation state.
  const JUMP: string := "jump"
  const FSLASHES: string := "fSlashes"
  const ATTACK: string := "attack"
  const POGO: string := "pogo"
  const UP_AIR: string := "upAir"
  const CAST: string := "cast"
  const CAST_STATE: string := "Cast"

  const PLAYER_X_SCALE: real := 2.0
  const AIR_SLASH_Y_VELOCITY_THRESHOLD: real := 0.1
  const DEFAULT_GRAVITY_SCALE: real := 3.0
  const CAST_GRAVITY_SCALE: real := 0.01
  const CAST_Y_OFFSET: real := -0.1

  function Abs(r: real): (a: real)
    ensures a >= 0.0
    ensures a == r || a == -r
  {
    if r < 0.0 then -r else r
  }
}
