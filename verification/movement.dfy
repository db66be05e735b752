/** The `Movement` controller: a cast input takes effect at once (attack and
    cast flags, cast pose, "cast" trigger) with no cooldown, but is refused
    while a somersault is in progress. The somersault is a field of its own,
    mirrored into the animator, raised by a long enough held jump and
    lowered only when the somersault animation is left. */
module Movement {
  import opened Basics
  import opened Controller
  import Spell

  datatype State = State(core: Core, doSomersault: bool)

  predicate Inv(s: State) {
    CoreInv(s.core)
  }

  /** The somersault field agrees with the animator's bool. */
  predicate Mirrored(s: State) {
    s.doSomersault == s.core.anim.doSomersault
  }

  /** Start-up values. */
  function Awake(body: Body, anim: Animator): (s: State)
    ensures Inv(s)
    ensures !s.core.isAttacking && !s.core.isCasting && !s.core.isJumping && !s.doSomersault
    ensures s.core.jumpKeyDownDuration == 0.0 && s.core.isGrounded && s.core.isFacingRight
    ensures s.core.body == body && s.core.anim == anim
    ensures Mirrored(s) <==> !anim.doSomersault
  {
    State(AwakeCore(body, anim), false)
  }

  /** A cast input is accepted: performed, not attacking, not somersaulting. */
  predicate CastAccepted(s: State, phase: Phase) {
    phase == Performed && !s.core.isAttacking && !s.doSomersault
  }

  /** Cast input: an accepted cast enters the cast pose at once and sets the
      "cast" trigger; a refused one changes nothing. */
  function OnCast(s: State, phase: Phase): (r: State)
    ensures CastAccepted(s, phase) ==>
      && r.core.isAttacking && r.core.isCasting && !r.core.isJumping
      && r.core.body.gravityScale == CAST_GRAVITY_SCALE
      && r.core.body.posY == s.core.body.posY + CAST_Y_OFFSET
      && r.core.anim.triggers == s.core.anim.triggers + {CAST}
      && r.doSomersault == s.doSomersault
      && r.core.isFacingRight == s.core.isFacingRight
      && r.core.body.velocity == s.core.body.velocity
    // nothing else changes
    ensures CastAccepted(s, phase) ==>
      r == s.(core := s.core.(isAttacking := true, isCasting := true, isJumping := false,
                              body := s.core.body.(gravityScale := CAST_GRAVITY_SCALE,
                                                   posY := s.core.body.posY + CAST_Y_OFFSET),
                              anim := s.core.anim.(triggers := s.core.anim.triggers + {CAST})))
    ensures !CastAccepted(s, phase) ==> r == s
    ensures Inv(s) ==> Inv(r)
  {
    if CastAccepted(s, phase) then
      var c := BeginCast(s.core);
      s.(core := c.(anim := c.anim.(triggers := c.anim.triggers + {CAST})))
    else s
  }

  /** Fixed step: the shared update, plus the somersault field raised
      together with the animator's bool. */
  function FixedUpdate(cfg: Config, s: State, groundHit: bool, dt: real): (r: State)
    ensures r.doSomersault <==>
      s.doSomersault ||
      (Sustains(cfg, s.core, groundHit) && s.core.jumpKeyDownDuration + dt >= cfg.somersaultThreshold)
    ensures r.doSomersault && !s.doSomersault ==>
      r.core.isJumping && r.core.jumpKeyDownDuration >= cfg.somersaultThreshold
    ensures Mirrored(s) ==> Mirrored(r)
    ensures r.core.isCasting == s.core.isCasting && r.core.isAttacking == s.core.isAttacking
    // the jump bookkeeping is the shared fixed step's
    ensures r.core.isGrounded == groundHit && r.core.wasGrounded == groundHit
    ensures groundHit && !s.core.wasGrounded ==> !r.core.isJumping && r.core.jumpKeyDownDuration == 0.0
    ensures Sustains(cfg, s.core, groundHit) ==>
      && r.core.isJumping
      && r.core.jumpKeyDownDuration == s.core.jumpKeyDownDuration + dt
      && r.core.body.velocity.y == cfg.jumpForce
    ensures !Sustains(cfg, s.core, groundHit) ==> !r.core.isJumping
    ensures r.core == Controller.FixedUpdate(cfg, s.core, groundHit, dt).core
  {
    var f := Controller.FixedUpdate(cfg, s.core, groundHit, dt);
    State(f.core, s.doSomersault || f.somersault)
  }

  /** End of an attack or cast animation. */
  function FinishAttack(s: State): (r: State)
    ensures !r.core.isAttacking && !r.core.isCasting
    ensures r.core.body.gravityScale == DEFAULT_GRAVITY_SCALE
    ensures r.core.anim.triggers == s.core.anim.triggers - {ATTACK, POGO, UP_AIR, CAST}
    ensures JUMP in r.core.anim.triggers <==> JUMP in s.core.anim.triggers
    ensures r.doSomersault == s.doSomersault
    // nothing else changes
    ensures r.core == s.core.(isAttacking := false, isCasting := false,
                              body := s.core.body.(gravityScale := DEFAULT_GRAVITY_SCALE),
                              anim := s.core.anim.(triggers := r.core.anim.triggers))
    ensures Inv(s) ==> Inv(r)
  {
    s.(core := Controller.FinishAttack(s.core, ATTACK))
  }

  /** End of the somersault animation: field and animator bool cleared. */
  function FinishSomersault(s: State): (r: State)
    ensures !r.doSomersault && Mirrored(r)
    ensures r.core == s.core.(anim := s.core.anim.(doSomersault := false))
  {
    State(s.core.(anim := s.core.anim.(doSomersault := false)), false)
  }

  /** Deliver one event. Neither behaviour of this controller reacts to a
      state being entered. */
  function Step(cfg: Config, s: State, e: Event): State {
    match e
    case Move(v) => s.(core := OnMove(s.core, v))
    case Jump(p) => s.(core := OnJump(cfg, s.core, p))
    case Attack(p) => s.(core := OnAttack(s.core, p, ATTACK))
    case Cast(p, _) => OnCast(s, p)
    case Frame => s.(core := Update(s.core))
    case FixedStep(hit, dt) => FixedUpdate(cfg, s, hit, dt)
    case Integrate(v, y) => s.(core := Controller.Integrate(s.core, v, y))
    case StateEnter(_, _) => s
    case StateExit(b, _) =>
      if b == AttackBehaviour then FinishAttack(s) else FinishSomersault(s)
  }

  /** Deliver a sequence of events in order. */
  function Run(cfg: Config, s: State, es: seq<Event>): State
    decreases |es|
  {
    if |es| == 0 then s else Run(cfg, Step(cfg, s, es[0]), es[1..])
  }

  /** The event is the somersault animation's exit. */
  predicate IsSomersaultExit(e: Event) {
    e.StateExit? && e.behaviour == SomersaultBehaviour
  }

  lemma StepKeepsInv(cfg: Config, s: State, e: Event)
    requires Inv(s)
    ensures Inv(Step(cfg, s, e))
  {
  }

  lemma {:induction false} RunKeepsInv(cfg: Config, s: State, es: seq<Event>)
    requires Inv(s)
    ensures Inv(Run(cfg, s, es))
    decreases |es|
  {
    if |es| > 0 {
      StepKeepsInv(cfg, s, es[0]);
      RunKeepsInv(cfg, Step(cfg, s, es[0]), es[1..]);
    }
  }

  /** Every state reachable from start-up satisfies the invariant; in
      particular a cast is always an attack. */
  lemma AlwaysInv(cfg: Config, body: Body, anim: Animator, es: seq<Event>)
    ensures var s := Run(cfg, Awake(body, anim), es);
      Inv(s) && (s.core.isCasting ==> s.core.isAttacking)
  {
    RunKeepsInv(cfg, Awake(body, anim), es);
  }

  /** Every event keeps the somersault field and the animator bool equal. */
  lemma StepKeepsMirrored(cfg: Config, s: State, e: Event)
    requires Mirrored(s)
    ensures Mirrored(Step(cfg, s, e))
  {
  }

  /** Leaving an attack state ends the attack; this controller has no
      state-entry behaviour, so entering any state changes nothing. */
  lemma AttackExitDispatch(cfg: Config, s: State, b: Behaviour, name: string)
    ensures Step(cfg, s, StateEnter(b, name)) == s
    ensures var r := Step(cfg, s, StateExit(AttackBehaviour, name));
      && !r.core.isAttacking && !r.core.isCasting
      && r.core.body.gravityScale == DEFAULT_GRAVITY_SCALE
      && r.core.anim.triggers == s.core.anim.triggers - {ATTACK, POGO, UP_AIR, CAST}
      && r.doSomersault == s.doSomersault
    ensures Step(cfg, s, StateExit(AttackBehaviour, name)) == FinishAttack(s)
  {
  }

  /** Leaving the somersault state ends the somersault and nothing else. */
  lemma SomersaultExitDispatch(cfg: Config, s: State, name: string)
    ensures var r := Step(cfg, s, StateExit(SomersaultBehaviour, name));
      && !r.doSomersault && !r.core.anim.doSomersault
      && r.core == s.core.(anim := s.core.anim.(doSomersault := false))
  {
  }

  /** Only a fixed step changes the held duration, and one step of at most
      `maxDt` keeps it in [0, HoldCap]. */
  lemma StepKeepsHoldBounded(cfg: Config, s: State, e: Event, maxDt: real)
    requires HoldBounded(cfg, s.core, maxDt)
    requires e.FixedStep? ==> 0.0 <= e.dt <= maxDt
    ensures HoldBounded(cfg, Step(cfg, s, e).core, maxDt)
    ensures !e.FixedStep? ==> Step(cfg, s, e).core.jumpKeyDownDuration == s.core.jumpKeyDownDuration
  {
    if e.FixedStep? {
      HoldStaysBounded(cfg, s.core, e.groundHit, e.dt, maxDt);
    }
  }

  /** Along any trace whose fixed steps last at most `maxDt`, the held
      duration stays in [0, HoldCap]. */
  lemma {:induction false} RunKeepsHoldBounded(cfg: Config, s: State, es: seq<Event>, maxDt: real)
    requires HoldBounded(cfg, s.core, maxDt) && StepsAtMost(es, maxDt)
    ensures HoldBounded(cfg, Run(cfg, s, es).core, maxDt)
    decreases |es|
  {
    if |es| > 0 {
      StepKeepsHoldBounded(cfg, s, es[0], maxDt);
      assert StepsAtMost(es[1..], maxDt) by {
        forall i | 0 <= i < |es[1..]| && es[1..][i].FixedStep?
          ensures 0.0 <= es[1..][i].dt <= maxDt
        {
          assert es[1..][i] == es[i + 1];
        }
      }
      RunKeepsHoldBounded(cfg, Step(cfg, s, es[0]), es[1..], maxDt);
    }
  }

  lemma StepKeepsFacing(cfg: Config, s: State, e: Event)
    requires FacingMatchesScale(s.core)
    ensures FacingMatchesScale(Step(cfg, s, e).core)
  {
  }

  lemma {:induction false} RunKeepsFacing(cfg: Config, s: State, es: seq<Event>)
    requires FacingMatchesScale(s.core)
    ensures FacingMatchesScale(Run(cfg, s, es).core)
    decreases |es|
  {
    if |es| > 0 {
      StepKeepsFacing(cfg, s, es[0]);
      RunKeepsFacing(cfg, Step(cfg, s, es[0]), es[1..]);
    }
  }

  /** When the scene starts the character with a positive x scale, every
      projectile launched later flies the way the character faces. */
  lemma ProjectileFollowsFacing(cfg: Config, body: Body, anim: Animator,
                                es: seq<Event>, prefab: Spell.Projectile, speed: real)
    requires body.scaleX > 0.0 && speed > 0.0
    ensures var s := Run(cfg, Awake(body, anim), es);
      var p := CastSpell(s.core, prefab, speed);
      && (p.velocity.x > 0.0 <==> s.core.isFacingRight)
      && (p.velocity.x < 0.0 <==> !s.core.isFacingRight)
  {
    RunKeepsFacing(cfg, Awake(body, anim), es);
    var s := Run(cfg, Awake(body, anim), es);
    CastSpellFollowsFacing(s.core, prefab, speed);
  }

  /** Casting begins only through an accepted cast input. */
  lemma CastingStartsOnlyOnCastInput(cfg: Config, s: State, e: Event)
    ensures !s.core.isCasting && Step(cfg, s, e).core.isCasting ==>
      e.Cast? && CastAccepted(s, e.phase)
  {
  }

  /** The somersault flag is raised only by a fixed step that sustains a
      held jump whose accumulated duration reaches the threshold, and is
      lowered only by the somersault animation's exit. */
  lemma SomersaultTransitions(cfg: Config, s: State, e: Event)
    ensures var r := Step(cfg, s, e);
      !s.doSomersault && r.doSomersault ==>
        && e.FixedStep?
        && Sustains(cfg, s.core, e.groundHit)
        && r.core.isJumping
        && r.core.jumpKeyDownDuration >= cfg.somersaultThreshold
    ensures s.doSomersault && !Step(cfg, s, e).doSomersault ==> IsSomersaultExit(e)
  {
  }

  /** From the step that raises the somersault flag until the somersault
      animation is left, the flag stays up and no cast can start. */
  lemma {:induction false} SomersaultBlocksCasts(cfg: Config, s: State, es: seq<Event>)
    requires s.doSomersault
    requires forall i :: 0 <= i < |es| ==> !IsSomersaultExit(es[i])
    ensures Run(cfg, s, es).doSomersault
    ensures Run(cfg, s, es).core.isCasting ==> s.core.isCasting
    decreases |es|
  {
    if |es| > 0 {
      SomersaultTransitions(cfg, s, es[0]);
      CastingStartsOnlyOnCastInput(cfg, s, es[0]);
      SomersaultBlocksCasts(cfg, Step(cfg, s, es[0]), es[1..]);
    }
  }

  /** Attack input: dropped unless performed while not attacking; otherwise
      the attack starts with exactly one trigger, pogo before up-air before
      the default "attack". */
  lemma AttackSelection(cfg: Config, s: State, p: Phase)
    ensures p != Performed || s.core.isAttacking ==> Step(cfg, s, Attack(p)) == s
    ensures var r := Step(cfg, s, Attack(Performed)); var c := s.core;
      !c.isAttacking ==>
        && r.core.isAttacking && r.core.isCasting == c.isCasting && r.doSomersault == s.doSomersault
        && (c.moveInput.y < 0.0 && AirSlashable(c) ==> r.core.anim.triggers == c.anim.triggers + {POGO})
        && (c.moveInput.y > 0.0 && AirSlashable(c) ==> r.core.anim.triggers == c.anim.triggers + {UP_AIR})
        && (!(AirSlashable(c) && c.moveInput.y != 0.0) ==> r.core.anim.triggers == c.anim.triggers + {ATTACK})
  {
  }

  /** Jump input: a started jump begins only on the ground, with no jump
      held and no attack under way; a release always ends the held jump. */
  lemma JumpGuard(cfg: Config, s: State)
    ensures var r := Step(cfg, s, Jump(Started));
      && (r.core.isJumping && !s.core.isJumping <==> CanStartJump(s.core))
      && (CanStartJump(s.core) ==> r.core.body.velocity.y == cfg.jumpForce && JUMP in r.core.anim.triggers)
      && (!CanStartJump(s.core) ==> r == s)
    ensures !Step(cfg, s, Jump(Canceled)).core.isJumping
  {
  }

  /** Landing (the ground sample rising from false to true) ends the jump
      and resets the held duration, whatever else is going on. */
  lemma LandingResetsJump(cfg: Config, s: State, dt: real)
    requires Inv(s) && !s.core.isGrounded
    ensures var r := Step(cfg, s, FixedStep(true, dt));
      && !r.core.isJumping && r.core.jumpKeyDownDuration == 0.0
      && r.core.isGrounded && r.core.wasGrounded
  {
  }

  /** While casting, a frame does not turn the character and a fixed step
      leaves the body motionless. */
  lemma CastingLocksMotion(cfg: Config, s: State, groundHit: bool, dt: real)
    requires Inv(s) && s.core.isCasting
    ensures Step(cfg, s, Frame) == s
    ensures Step(cfg, s, FixedStep(groundHit, dt)).core.body.velocity == Zero
  {
  }

  /** A held duration already at the cap ends the jump at the next fixed
      step even in mid-air. */
  lemma CapEndsJumpInAir(cfg: Config, s: State, dt: real)
    requires Inv(s) && s.core.isJumping
    requires s.core.jumpKeyDownDuration >= cfg.maxJumpKeyDownDuration
    ensures var r := Step(cfg, s, FixedStep(false, dt));
      !r.core.isJumping && !r.core.isGrounded && r.doSomersault == s.doSomersault
  {
  }

  /** Holding the jump from the ground with a 0.4 s somersault threshold,
      a 0.6 s cap and 0.1 s fixed steps: the somersault starts at the
      fourth step, the jump is still held after the sixth and ends at the
      seventh. */
  lemma JumpHoldScenario(moveSpeed: real, jumpForce: real, body: Body, anim: Animator)
    ensures
      var cfg := Config(moveSpeed, jumpForce, 0.6, 0.4);
      var step := FixedStep(false, 0.1);
      var s1 := Step(cfg, Awake(body, anim), Jump(Started));
      var s4 := Step(cfg, Step(cfg, Step(cfg, s1, step), step), step);
      var s5 := Step(cfg, s4, step);
      var s7 := Step(cfg, Step(cfg, s5, step), step);
      var s8 := Step(cfg, s7, step);
      && s1.core.isJumping && s1.core.body.velocity.y == jumpForce
      && !s4.doSomersault && s4.core.isJumping
      && s5.doSomersault && s5.core.anim.doSomersault
      && s7.core.isJumping && s7.core.jumpKeyDownDuration == 0.6
      && !s8.core.isJumping && s8.doSomersault
  {
  }
}
