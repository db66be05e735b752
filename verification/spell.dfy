/** The spell projectile: launched horizontally in a given direction and
    mirrored when it flies to the right. */
module Spell {
  import opened Basics

  datatype Vec3 = Vec3(x: real, y: real, z: real)

  /** The projectile's rigid-body velocity and transform scale. */
  datatype Projectile = Projectile(velocity: Vec2, scale: Vec3)

  const MIRRORED_SCALE: Vec3 := Vec3(-6.0, 6.0, 6.0)

  /** Launch the projectile `p` with the given direction and speed. */
  function Cast(p: Projectile, direction: real, speed: real): (r: Projectile)
    ensures r.velocity.x == direction * speed
    ensures r.velocity.y == p.velocity.y
    ensures direction > 0.0 ==> r.scale == MIRRORED_SCALE
    ensures direction <= 0.0 ==> r.scale == p.scale
  {
    var launched := p.(velocity := p.velocity.(x := direction * speed));
    if direction > 0.0 then launched.(scale := MIRRORED_SCALE) else launched
  }

  /** The direction the controller passes to Cast: +1 when its scale's x
      component is positive, -1 otherwise. */
  function CastDirection(scaleX: real): (d: real)
    ensures d == 1.0 || d == -1.0
    ensures d > 0.0 <==> scaleX > 0.0
  {
    if scaleX > 0.0 then 1.0 else -1.0
  }

  /** With a positive speed, the projectile flies the way the caster's
      scale points, and it is mirrored exactly when it flies right. */
  lemma LaunchFollowsScale(p: Projectile, scaleX: real, speed: real)
    requires speed > 0.0
    ensures var r := Cast(p, CastDirection(scaleX), speed);
      && (r.velocity.x > 0.0 <==> scaleX > 0.0)
      && (r.velocity.x < 0.0 <==> scaleX <= 0.0)
      && Abs(r.velocity.x) == speed
      && (r.scale == MIRRORED_SCALE || r.scale == p.scale)
      && (scaleX > 0.0 ==> r.scale == MIRRORED_SCALE)
  {
  }
}
