/** The `Moves` controller: a cast input only starts the cooldown and sets
    the "cast" trigger; the cast pose itself begins when the animator enters
    the state named "Cast" (the attack behaviour calls StartCast). There is
    no somersault field: the somersault exists only as the animator's bool. */
module Moves {
  import opened Basics
  import opened Controller
  import Spell

  datatype State = State(core: Core, prevCastTime: real)

  predicate Inv(s: State) {
    CoreInv(s.core)
  }

  /** Start-up values; the cast timer starts at -1. */
  function Awake(body: Body, anim: Animator): (s: State)
    ensures Inv(s)
    ensures !s.core.isAttacking && !s.core.isCasting && !s.core.isJumping
    ensures s.core.jumpKeyDownDuration == 0.0 && s.core.isGrounded && s.core.isFacingRight
    ensures s.prevCastTime == -1.0
    ensures s.core.body == body && s.core.anim == anim
  {
    State(AwakeCore(body, anim), -1.0)
  }

  /** A cast input is accepted: performed, not attacking, cooldown elapsed. */
  predicate CastAccepted(castCooldown: real, s: State, phase: Phase, now: real) {
    phase == Performed && !s.core.isAttacking && now >= s.prevCastTime + castCooldown
  }

  /** Cast input: an accepted cast restarts the cooldown and sets the
      "cast" trigger; the attack and cast flags are not touched. */
  function OnCast(castCooldown: real, s: State, phase: Phase, now: real): (r: State)
    ensures CastAccepted(castCooldown, s, phase, now) ==>
      && r.prevCastTime == now
      && r.core == s.core.(anim := s.core.anim.(triggers := s.core.anim.triggers + {CAST}))
    ensures !CastAccepted(castCooldown, s, phase, now) ==> r == s
    ensures r.core.isAttacking == s.core.isAttacking && r.core.isCasting == s.core.isCasting
  {
    if CastAccepted(castCooldown, s, phase, now) then
      State(s.core.(anim := s.core.anim.(triggers := s.core.anim.triggers + {CAST})), now)
    else s
  }

  /** Cast pose, entered from the animator's "Cast" state. */
  function StartCast(s: State): (r: State)
    ensures r.core.isAttacking && r.core.isCasting && !r.core.isJumping
    ensures r.core.body.gravityScale == CAST_GRAVITY_SCALE
    ensures r.core.body.posY == s.core.body.posY + CAST_Y_OFFSET
    ensures r.prevCastTime == s.prevCastTime
    // nothing else changes
    ensures r.core == s.core.(isAttacking := true, isCasting := true, isJumping := false,
                              body := s.core.body.(gravityScale := CAST_GRAVITY_SCALE,
                                                   posY := s.core.body.posY + CAST_Y_OFFSET))
    ensures Inv(s) ==> Inv(r)
  {
    s.(core := BeginCast(s.core))
  }

  /** End of an attack or cast animation. */
  function FinishAttack(s: State): (r: State)
    ensures !r.core.isAttacking && !r.core.isCasting
    ensures r.core.body.gravityScale == DEFAULT_GRAVITY_SCALE
    ensures r.core.anim.triggers == s.core.anim.triggers - {FSLASHES, POGO, UP_AIR, CAST}
    ensures JUMP in r.core.anim.triggers <==> JUMP in s.core.anim.triggers
    ensures r.prevCastTime == s.prevCastTime
    // nothing else changes
    ensures r.core == s.core.(isAttacking := false, isCasting := false,
                              body := s.core.body.(gravityScale := DEFAULT_GRAVITY_SCALE),
                              anim := s.core.anim.(triggers := r.core.anim.triggers))
    ensures Inv(s) ==> Inv(r)
  {
    s.(core := Controller.FinishAttack(s.core, FSLASHES))
  }

  /** End of the somersault animation: only the animator bool is cleared. */
  function FinishSomersault(s: State): (r: State)
    ensures !r.core.anim.doSomersault
    ensures r == s.(core := s.core.(anim := s.core.anim.(doSomersault := false)))
  {
    s.(core := s.core.(anim := s.core.anim.(doSomersault := false)))
  }

  /** Deliver one event. */
  function Step(cfg: Config, castCooldown: real, s: State, e: Event): State {
    match e
    case Move(v) => s.(core := OnMove(s.core, v))
    case Jump(p) => s.(core := OnJump(cfg, s.core, p))
    case Attack(p) => s.(core := OnAttack(s.core, p, FSLASHES))
    case Cast(p, now) => OnCast(castCooldown, s, p, now)
    case Frame => s.(core := Update(s.core))
    case FixedStep(hit, dt) => s.(core := FixedUpdate(cfg, s.core, hit, dt).core)
    case Integrate(v, y) => s.(core := Controller.Integrate(s.core, v, y))
    case StateEnter(b, name) =>
      // only the attack behaviour reacts on entry, and only to "Cast"
      if b == AttackBehaviour && name == CAST_STATE then StartCast(s) else s
    case StateExit(b, _) =>
      if b == AttackBehaviour then FinishAttack(s) else FinishSomersault(s)
  }

  /** Deliver a sequence of events in order. */
  function Run(cfg: Config, castCooldown: real, s: State, es: seq<Event>): State
    decreases |es|
  {
    if |es| == 0 then s else Run(cfg, castCooldown, Step(cfg, castCooldown, s, es[0]), es[1..])
  }

  lemma StepKeepsInv(cfg: Config, castCooldown: real, s: State, e: Event)
    requires Inv(s)
    ensures Inv(Step(cfg, castCooldown, s, e))
  {
  }

  lemma {:induction false} RunKeepsInv(cfg: Config, castCooldown: real, s: State, es: seq<Event>)
    requires Inv(s)
    ensures Inv(Run(cfg, castCooldown, s, es))
    decreases |es|
  {
    if |es| > 0 {
      StepKeepsInv(cfg, castCooldown, s, es[0]);
      RunKeepsInv(cfg, castCooldown, Step(cfg, castCooldown, s, es[0]), es[1..]);
    }
  }

  /** Every state reachable from start-up satisfies the invariant; in
      particular a cast is always an attack. */
  lemma AlwaysInv(cfg: Config, castCooldown: real, body: Body, anim: Animator, es: seq<Event>)
    ensures var s := Run(cfg, castCooldown, Awake(body, anim), es);
      Inv(s) && (s.core.isCasting ==> s.core.isAttacking)
  {
    RunKeepsInv(cfg, castCooldown, Awake(body, anim), es);
  }

  /** The attack behaviour's callbacks: entering "Cast" starts the cast
      pose, entering any other state changes nothing, and leaving any state
      ends the attack. */
  lemma AttackBehaviourDispatch(cfg: Config, castCooldown: real, s: State, name: string)
    ensures var r := Step(cfg, castCooldown, s, StateEnter(AttackBehaviour, CAST_STATE));
      && r.core.isAttacking && r.core.isCasting && !r.core.isJumping
      && r.core.body.gravityScale == CAST_GRAVITY_SCALE
      && r.core.body.posY == s.core.body.posY + CAST_Y_OFFSET
    ensures Step(cfg, castCooldown, s, StateEnter(AttackBehaviour, CAST_STATE)) == StartCast(s)
    ensures name != CAST_STATE ==> Step(cfg, castCooldown, s, StateEnter(AttackBehaviour, name)) == s
    ensures var r := Step(cfg, castCooldown, s, StateExit(AttackBehaviour, name));
      && !r.core.isAttacking && !r.core.isCasting
      && r.core.body.gravityScale == DEFAULT_GRAVITY_SCALE
      && r.core.anim.triggers == s.core.anim.triggers - {FSLASHES, POGO, UP_AIR, CAST}
    ensures Step(cfg, castCooldown, s, StateExit(AttackBehaviour, name)) == FinishAttack(s)
  {
  }

  /** The somersault behaviour's exit clears the animator's somersault
      bool and changes nothing else; its entry is ignored. */
  lemma SomersaultExitDispatch(cfg: Config, castCooldown: real, s: State, name: string)
    ensures var r := Step(cfg, castCooldown, s, StateExit(SomersaultBehaviour, name));
      && !r.core.anim.doSomersault
      && r == s.(core := s.core.(anim := s.core.anim.(doSomersault := false)))
    ensures Step(cfg, castCooldown, s, StateEnter(SomersaultBehaviour, name)) == s
  {
  }

  /** The casting flag is raised only by entering the "Cast" state, never by
      the cast input itself. */
  lemma CastingStartsOnlyOnCastEnter(cfg: Config, castCooldown: real, s: State, e: Event)
    ensures !s.core.isCasting && Step(cfg, castCooldown, s, e).core.isCasting ==>
      e == StateEnter(AttackBehaviour, CAST_STATE)
  {
  }

  /** Without a "Cast" state entry, a controller that is not casting never
      starts casting, whatever inputs arrive. */
  lemma {:induction false} NoCastEnterNoCasting(cfg: Config, castCooldown: real, s: State, es: seq<Event>)
    requires !s.core.isCasting
    requires forall i :: 0 <= i < |es| ==> es[i] != StateEnter(AttackBehaviour, CAST_STATE)
    ensures !Run(cfg, castCooldown, s, es).core.isCasting
    decreases |es|
  {
    if |es| > 0 {
      CastingStartsOnlyOnCastEnter(cfg, castCooldown, s, es[0]);
      NoCastEnterNoCasting(cfg, castCooldown, Step(cfg, castCooldown, s, es[0]), es[1..]);
    }
  }

  /** Attack input: dropped unless performed while not attacking; otherwise
      the attack starts with exactly one trigger, pogo before up-air before
      the default "fSlashes". */
  lemma AttackSelection(cfg: Config, castCooldown: real, s: State, p: Phase)
    ensures p != Performed || s.core.isAttacking ==> Step(cfg, castCooldown, s, Attack(p)) == s
    ensures var r := Step(cfg, castCooldown, s, Attack(Performed)); var c := s.core;
      !c.isAttacking ==>
        && r.core.isAttacking && r.core.isCasting == c.isCasting
        && (c.moveInput.y < 0.0 && AirSlashable(c) ==> r.core.anim.triggers == c.anim.triggers + {POGO})
        && (c.moveInput.y > 0.0 && AirSlashable(c) ==> r.core.anim.triggers == c.anim.triggers + {UP_AIR})
        && (!(AirSlashable(c) && c.moveInput.y != 0.0) ==> r.core.anim.triggers == c.anim.triggers + {FSLASHES})
  {
  }

  /** While casting, a frame does not turn the character and a fixed step
      leaves the body motionless (no held jump can re-apply its force). */
  lemma CastingLocksMotion(cfg: Config, castCooldown: real, s: State, groundHit: bool, dt: real)
    requires Inv(s) && s.core.isCasting
    ensures Step(cfg, castCooldown, s, Frame) == s
    ensures Step(cfg, castCooldown, s, FixedStep(groundHit, dt)).core.body.velocity == Zero
  {
  }

  /** A jump input never resets the held duration, so a jump started while
      a stale duration at or above the cap remains (the ground probe kept
      hitting, so there was no landing edge) is ended by the very next
      fixed step. */
  lemma StaleHoldCutsJumpShort(cfg: Config, castCooldown: real, s: State, dt: real)
    requires Inv(s) && CanStartJump(s.core)
    requires s.core.jumpKeyDownDuration >= cfg.maxJumpKeyDownDuration
    ensures var j := Step(cfg, castCooldown, s, Jump(Started));
      && j.core.isJumping
      && j.core.jumpKeyDownDuration == s.core.jumpKeyDownDuration
      && !Step(cfg, castCooldown, j, FixedStep(true, dt)).core.isJumping
  {
  }

  /** Only a fixed step changes the held duration, and one step of at most
      `maxDt` keeps it in [0, HoldCap]. */
  lemma StepKeepsHoldBounded(cfg: Config, castCooldown: real, s: State, e: Event, maxDt: real)
    requires HoldBounded(cfg, s.core, maxDt)
    requires e.FixedStep? ==> 0.0 <= e.dt <= maxDt
    ensures HoldBounded(cfg, Step(cfg, castCooldown, s, e).core, maxDt)
    ensures !e.FixedStep? ==> Step(cfg, castCooldown, s, e).core.jumpKeyDownDuration == s.core.jumpKeyDownDuration
  {
    if e.FixedStep? {
      HoldStaysBounded(cfg, s.core, e.groundHit, e.dt, maxDt);
    }
  }

  /** Along any trace whose fixed steps last at most `maxDt`, the held
      duration stays in [0, HoldCap]. */
  lemma {:induction false} RunKeepsHoldBounded(cfg: Config, castCooldown: real, s: State, es: seq<Event>, maxDt: real)
    requires HoldBounded(cfg, s.core, maxDt) && StepsAtMost(es, maxDt)
    ensures HoldBounded(cfg, Run(cfg, castCooldown, s, es).core, maxDt)
    decreases |es|
  {
    if |es| > 0 {
      StepKeepsHoldBounded(cfg, castCooldown, s, es[0], maxDt);
      assert StepsAtMost(es[1..], maxDt) by {
        forall i | 0 <= i < |es[1..]| && es[1..][i].FixedStep?
          ensures 0.0 <= es[1..][i].dt <= maxDt
        {
          assert es[1..][i] == es[i + 1];
        }
      }
      RunKeepsHoldBounded(cfg, castCooldown, Step(cfg, castCooldown, s, es[0]), es[1..], maxDt);
    }
  }

  lemma StepKeepsFacing(cfg: Config, castCooldown: real, s: State, e: Event)
    requires FacingMatchesScale(s.core)
    ensures FacingMatchesScale(Step(cfg, castCooldown, s, e).core)
  {
  }

  lemma {:induction false} RunKeepsFacing(cfg: Config, castCooldown: real, s: State, es: seq<Event>)
    requires FacingMatchesScale(s.core)
    ensures FacingMatchesScale(Run(cfg, castCooldown, s, es).core)
    decreases |es|
  {
    if |es| > 0 {
      StepKeepsFacing(cfg, castCooldown, s, es[0]);
      RunKeepsFacing(cfg, castCooldown, Step(cfg, castCooldown, s, es[0]), es[1..]);
    }
  }

  /** When the scene starts the character with a positive x scale, every
      projectile launched later flies the way the character faces. */
  lemma ProjectileFollowsFacing(cfg: Config, castCooldown: real, body: Body, anim: Animator,
                                es: seq<Event>, prefab: Spell.Projectile, speed: real)
    requires body.scaleX > 0.0 && speed > 0.0
    ensures var s := Run(cfg, castCooldown, Awake(body, anim), es);
      var p := CastSpell(s.core, prefab, speed);
      && (p.velocity.x > 0.0 <==> s.core.isFacingRight)
      && (p.velocity.x < 0.0 <==> !s.core.isFacingRight)
  {
    RunKeepsFacing(cfg, castCooldown, Awake(body, anim), es);
    var s := Run(cfg, castCooldown, Awake(body, anim), es);
    CastSpellFollowsFacing(s.core, prefab, speed);
  }

  /** Cooldown timing with a two-second cooldown: after a cast accepted at
      time t, another at t + 1 is dropped and one at t + 2.1 is accepted. */
  lemma CooldownScenario(cfg: Config, s: State, t: real)
    requires !s.core.isAttacking && t >= s.prevCastTime + 2.0
    ensures var s1 := Step(cfg, 2.0, s, Cast(Performed, t));
      var s2 := Step(cfg, 2.0, s1, Cast(Performed, t + 1.0));
      var s3 := Step(cfg, 2.0, s2, Cast(Performed, t + 2.1));
      && s1.prevCastTime == t && CAST in s1.core.anim.triggers
      && s2 == s1
      && s3.prevCastTime == t + 2.1
  {
  }

  /** Because the timer starts at -1, the first cast after start-up (game
      time is never negative) is accepted only from time castCooldown - 1 on. */
  lemma FirstCastAfterAwake(cfg: Config, castCooldown: real, body: Body, anim: Animator, now: real)
    requires now >= 0.0
    ensures var r := Step(cfg, castCooldown, Awake(body, anim), Cast(Performed, now));
      r.prevCastTime == now <==> now >= castCooldown - 1.0
  {
  }
}
