/** The state and handlers the two player controllers (Moves and Movement)
    share: facing, horizontal drive, ground edge, the jump with its sustained
    hold, attack selection, the cast pose, the end of an attack and the
    projectile launch. They agree up to the name of the default slash
    trigger, which is a parameter here; Movement's sustained jump also raises
    its own somersault field. The variant-specific parts (how a cast is
    accepted, what the somersault flag is) live in the Moves and Movement
    modules. */
module Controller {
  import opened Basics
  import Spell

  /** The fields both controllers keep. */
  datatype Core = Core(
    body: Body,
    anim: Animator,
    moveInput: Vec2,
    isFacingRight: bool,
    isJumping: bool,
    jumpKeyDownDuration: real,
    isGrounded: bool,
    wasGrounded: bool,
    isAttacking: bool,
    isCasting: bool)

  /** Invariant both controllers keep: a cast is an attack, no jump is held
      through a cast, and between fixed steps the previous ground sample
      equals the current one. */
  predicate CoreInv(c: Core) {
    && (c.isCasting ==> c.isAttacking)
    && (c.isCasting ==> !c.isJumping)
    && c.wasGrounded == c.isGrounded
  }

  /** The facing flag agrees with the sign of the transform's x scale. */
  predicate FacingMatchesScale(c: Core) {
    c.isFacingRight <==> c.body.scaleX > 0.0
  }

  /** Initial state of the shared fields; the engine objects are whatever
      the scene provides. */
  function AwakeCore(body: Body, anim: Animator): (c: Core)
    ensures CoreInv(c)
    ensures c.isFacingRight && c.isGrounded && !c.isJumping && !c.isAttacking && !c.isCasting
    ensures c.jumpKeyDownDuration == 0.0 && c.moveInput == Zero
    ensures c.body == body && c.anim == anim
    ensures body.scaleX > 0.0 <==> FacingMatchesScale(c)
  {
    Core(body, anim, Zero, true, false, 0.0, true, true, false, false)
  }

  /** The movement input is recorded and read by the next updates. */
  function OnMove(c: Core, input: Vec2): (r: Core)
    ensures r.moveInput == input
    ensures r.(moveInput := c.moveInput) == c
  {
    c.(moveInput := input)
  }

  /** Per-frame update: turn to face the horizontal input unless casting. */
  function Update(c: Core): (r: Core)
    ensures c.isCasting || c.moveInput.x == 0.0 ==> r == c
    ensures !c.isCasting && c.moveInput.x < 0.0 ==> !r.isFacingRight
    ensures !c.isCasting && c.moveInput.x > 0.0 ==> r.isFacingRight
    // a flip writes the scale matching the new facing and nothing else
    ensures r.isFacingRight != c.isFacingRight ==>
      r == c.(isFacingRight := r.isFacingRight,
              body := c.body.(scaleX := if r.isFacingRight then PLAYER_X_SCALE else -PLAYER_X_SCALE))
    ensures r.isFacingRight == c.isFacingRight ==> r == c
    ensures FacingMatchesScale(c) ==> FacingMatchesScale(r)
  {
    if c.isCasting then c
    else if c.moveInput.x < 0.0 && c.isFacingRight then
      c.(isFacingRight := false, body := c.body.(scaleX := -PLAYER_X_SCALE))
    else if c.moveInput.x > 0.0 && !c.isFacingRight then
      c.(isFacingRight := true, body := c.body.(scaleX := PLAYER_X_SCALE))
    else c
  }

  /** Velocity written at the start of a fixed step: frozen while casting,
      otherwise horizontal speed from the input and vertical speed kept. */
  function DriveVelocity(cfg: Config, c: Core): Vec2 {
    if c.isCasting then Zero else c.body.velocity.(x := c.moveInput.x * cfg.moveSpeed)
  }

  /** The fixed step re-applies the jump force: the jump is held, was not
      just ended by landing, and is still under the duration cap. */
  predicate Sustains(cfg: Config, c: Core, groundHit: bool) {
    && !(groundHit && !c.wasGrounded)
    && c.isJumping
    && c.jumpKeyDownDuration < cfg.maxJumpKeyDownDuration
  }

  /** A fixed step's new state, and whether it set the animator's
      somersault flag. */
  datatype Fixed = Fixed(core: Core, somersault: bool)

  /** Fixed physics update. `groundHit` is the result of the ground probe. */
  function FixedUpdate(cfg: Config, c: Core, groundHit: bool, dt: real): (r: Fixed)
    // the ground sample is taken and the previous one catches up with it
    ensures r.core.isGrounded == groundHit && r.core.wasGrounded == groundHit
    ensures r.core.anim.isGrounded == groundHit
    ensures !c.isCasting ==> r.core.body.velocity.x == c.moveInput.x * cfg.moveSpeed
    // landing (a rising edge of the ground sample) ends the jump and resets the hold
    ensures groundHit && !c.wasGrounded ==> !r.core.isJumping && r.core.jumpKeyDownDuration == 0.0
    ensures !(groundHit && !c.wasGrounded) && !Sustains(cfg, c, groundHit) ==>
      r.core.jumpKeyDownDuration == c.jumpKeyDownDuration
    // a held jump under the cap keeps rising and accumulates exactly dt
    ensures Sustains(cfg, c, groundHit) ==>
      && r.core.isJumping
      && r.core.jumpKeyDownDuration == c.jumpKeyDownDuration + dt
      && r.core.body.velocity.y == cfg.jumpForce
      && (r.somersault <==> r.core.jumpKeyDownDuration >= cfg.somersaultThreshold)
    // otherwise the jump is over (landed, capped, or never held) and the body keeps the driven velocity
    ensures !Sustains(cfg, c, groundHit) ==>
      !r.core.isJumping && !r.somersault && r.core.body.velocity == DriveVelocity(cfg, c)
    ensures r.somersault ==> r.core.anim.doSomersault
    ensures !r.somersault ==> r.core.anim.doSomersault == c.anim.doSomersault
    // nothing else changes
    ensures r.core.anim.triggers == c.anim.triggers
    ensures r.core.isAttacking == c.isAttacking && r.core.isCasting == c.isCasting
    ensures r.core.isFacingRight == c.isFacingRight && r.core.moveInput == c.moveInput
    ensures r.core.body.gravityScale == c.body.gravityScale
    ensures r.core.body.posY == c.body.posY && r.core.body.scaleX == c.body.scaleX
  {
    var landed := groundHit && !c.wasGrounded;
    var c1 := c.(body := c.body.(velocity := DriveVelocity(cfg, c)),
                 isGrounded := groundHit,
                 wasGrounded := groundHit,
                 anim := c.anim.(isGrounded := groundHit),
                 isJumping := if landed then false else c.isJumping,
                 jumpKeyDownDuration := if landed then 0.0 else c.jumpKeyDownDuration);
    if !c1.isJumping then Fixed(c1, false)
    else if c1.jumpKeyDownDuration < cfg.maxJumpKeyDownDuration then
      var held := c1.jumpKeyDownDuration + dt;
      var crossed := held >= cfg.somersaultThreshold;
      Fixed(c1.(body := c1.body.(velocity := c1.body.velocity.(y := cfg.jumpForce)),
                jumpKeyDownDuration := held,
                anim := if crossed then c1.anim.(doSomersault := true) else c1.anim),
            crossed)
    else Fixed(c1.(isJumping := false), false)
  }

  /** A jump may start only on the ground, when none is held and no attack
      is under way. */
  predicate CanStartJump(c: Core) {
    c.isGrounded && !c.isJumping && !c.isAttacking
  }

  /** Jump input: start a jump, or end the held jump on release. The held
      duration is left as it is in every case. */
  function OnJump(cfg: Config, c: Core, phase: Phase): (r: Core)
    ensures r.jumpKeyDownDuration == c.jumpKeyDownDuration
    ensures phase == Started && CanStartJump(c) ==>
      r == c.(isJumping := true,
              body := c.body.(velocity := c.body.velocity.(y := cfg.jumpForce)),
              anim := c.anim.(triggers := c.anim.triggers + {JUMP}))
    ensures phase == Started && !CanStartJump(c) ==> r == c
    ensures phase == Performed ==> r == c
    ensures phase == Canceled ==> r == c.(isJumping := false)
    ensures r.isJumping && !c.isJumping ==> phase == Started && CanStartJump(c)
  {
    var started :=
      if phase == Started && CanStartJump(c) then
        c.(isJumping := true,
           body := c.body.(velocity := c.body.velocity.(y := cfg.jumpForce)),
           anim := c.anim.(triggers := c.anim.triggers + {JUMP}))
      else c;
    if phase == Canceled then started.(isJumping := false) else started
  }

  /** An air slash is possible: airborne and moving vertically faster than
      the anti-jitter threshold. */
  predicate AirSlashable(c: Core) {
    !c.isGrounded && Abs(c.body.velocity.y) > AIR_SLASH_Y_VELOCITY_THRESHOLD
  }

  /** Trigger chosen by an attack: downward air slash before upward air
      slash before the variant's default `slash`. */
  function AttackTrigger(c: Core, slash: string): (t: string)
    requires slash != POGO && slash != UP_AIR
    ensures t == POGO <==> c.moveInput.y < 0.0 && AirSlashable(c)
    ensures t == UP_AIR <==> c.moveInput.y > 0.0 && AirSlashable(c)
    ensures t == slash <==> !(AirSlashable(c) && c.moveInput.y != 0.0)
  {
    if c.moveInput.y < 0.0 && AirSlashable(c) then POGO
    else if c.moveInput.y > 0.0 && AirSlashable(c) then UP_AIR
    else slash
  }

  /** Attack input: ignored unless performed and not already attacking;
      otherwise mark the attack and set exactly one trigger. */
  function OnAttack(c: Core, phase: Phase, slash: string): (r: Core)
    requires slash != POGO && slash != UP_AIR
    ensures phase != Performed || c.isAttacking ==> r == c
    ensures phase == Performed && !c.isAttacking ==>
      r == c.(isAttacking := true, anim := c.anim.(triggers := c.anim.triggers + {AttackTrigger(c, slash)}))
  {
    if phase == Performed && !c.isAttacking then
      c.(isAttacking := true, anim := c.anim.(triggers := c.anim.triggers + {AttackTrigger(c, slash)}))
    else c
  }

  /** Enter the cast pose: attacking and casting, jump dropped, near-zero
      gravity and a small downward nudge. */
  function BeginCast(c: Core): (r: Core)
    ensures r.isAttacking && r.isCasting && !r.isJumping
    ensures r.body.gravityScale == CAST_GRAVITY_SCALE
    ensures r.body.posY == c.body.posY + CAST_Y_OFFSET
    ensures r == c.(isAttacking := true, isCasting := true, isJumping := false,
                    body := c.body.(gravityScale := r.body.gravityScale, posY := r.body.posY))
    ensures CoreInv(c) ==> CoreInv(r)
  {
    c.(isAttacking := true, isCasting := true, isJumping := false,
       body := c.body.(gravityScale := CAST_GRAVITY_SCALE, posY := c.body.posY + CAST_Y_OFFSET))
  }

  /** End of any attack or cast: both flags cleared, default gravity back,
      and the attack triggers (`slash`, pogo, up-air, cast) reset. */
  function FinishAttack(c: Core, slash: string): (r: Core)
    ensures !r.isAttacking && !r.isCasting
    ensures r.body.gravityScale == DEFAULT_GRAVITY_SCALE
    ensures r.anim.triggers == c.anim.triggers - {slash, POGO, UP_AIR, CAST}
    ensures r == c.(isAttacking := false, isCasting := false,
                    body := c.body.(gravityScale := DEFAULT_GRAVITY_SCALE),
                    anim := c.anim.(triggers := r.anim.triggers))
    ensures CoreInv(c) ==> CoreInv(r)
  {
    c.(isAttacking := false, isCasting := false,
       body := c.body.(gravityScale := DEFAULT_GRAVITY_SCALE),
       anim := c.anim.(triggers := c.anim.triggers - {slash, POGO, UP_AIR, CAST}))
  }

  /** The physics engine integrates the body between fixed steps. */
  function Integrate(c: Core, velocity: Vec2, posY: real): Core {
    c.(body := c.body.(velocity := velocity, posY := posY))
  }

  /** The projectile launched at the cast's release point, from the
      spawned prefab `prefab` with projectile speed `speed`. */
  function CastSpell(c: Core, prefab: Spell.Projectile, speed: real): (r: Spell.Projectile)
    ensures r.velocity.y == prefab.velocity.y
    ensures r.velocity.x == speed || r.velocity.x == -speed
    ensures r.scale == Spell.MIRRORED_SCALE || r.scale == prefab.scale
  {
    Spell.Cast(prefab, Spell.CastDirection(c.body.scaleX), speed)
  }

  /** With a positive speed and the facing flag agreeing with the scale,
      the projectile flies the way the character faces and is mirrored when
      it flies right. */
  lemma CastSpellFollowsFacing(c: Core, prefab: Spell.Projectile, speed: real)
    requires speed > 0.0 && FacingMatchesScale(c)
    ensures var r := CastSpell(c, prefab, speed);
      && (r.velocity.x > 0.0 <==> c.isFacingRight)
      && (r.velocity.x < 0.0 <==> !c.isFacingRight)
      && (c.isFacingRight ==> r.scale == Spell.MIRRORED_SCALE)
      && (!c.isFacingRight ==> r.scale == prefab.scale)
  {
    Spell.LaunchFollowsScale(prefab, c.body.scaleX, speed);
  }

  /** The largest held duration reachable with fixed steps of at most `maxDt`. */
  function HoldCap(cfg: Config, maxDt: real): real {
    (if cfg.maxJumpKeyDownDuration > 0.0 then cfg.maxJumpKeyDownDuration else 0.0) + maxDt
  }

  /** The duration cap stops accumulation within one step: with steps of at
      most `maxDt`, the held duration never leaves [0, HoldCap]. */
  predicate HoldBounded(cfg: Config, c: Core, maxDt: real) {
    0.0 <= c.jumpKeyDownDuration <= HoldCap(cfg, maxDt)
  }

  /** Every fixed step in `es` lasts between 0 and `maxDt`. */
  predicate StepsAtMost(es: seq<Event>, maxDt: real) {
    forall i :: 0 <= i < |es| && es[i].FixedStep? ==> 0.0 <= es[i].dt <= maxDt
  }

  lemma HoldStaysBounded(cfg: Config, c: Core, groundHit: bool, dt: real, maxDt: real)
    requires 0.0 <= dt <= maxDt
    requires 0.0 <= c.jumpKeyDownDuration <= HoldCap(cfg, maxDt)
    ensures var d := FixedUpdate(cfg, c, groundHit, dt).core.jumpKeyDownDuration;
      0.0 <= d <= HoldCap(cfg, maxDt)
  {
  }
}
