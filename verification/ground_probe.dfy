/** The query half of the ground check: which collider's bounds the box
    cast starts from, and the box it sweeps. Whether the cast hits is
    decided by the physics engine and enters the controllers as a boolean. */
module GroundProbe {
  import opened Basics

  /** The controller's posture-specific colliders. */
  datatype ColliderKind =
    | HorizontalCapsule
    | VerticalCapsule
    | ForwardSlash
    | ForwardAirSlash
    | DownAirSlash
    | UpAirSlash
    | CastPolygon

  /** The order in which the active flags are tested; the cast collider is
      the fallback when none of these is active. */
  const ProbeOrder: seq<ColliderKind> :=
    [HorizontalCapsule, VerticalCapsule, ForwardSlash, ForwardAirSlash, DownAirSlash, UpAirSlash]

  const GROUND_CHECK_WIDTH_REDUCING_FACTOR: real := 0.9

  /** Position of a collider in a probe order, when one is found. */
  datatype Option = None | Some(index: nat)

  /** Index of the first collider of `order` that is active, if any. */
  function FirstActive(order: seq<ColliderKind>, active: set<ColliderKind>): (r: Option)
    ensures r.Some? ==> r.index < |order| && order[r.index] in active
    ensures r.Some? ==> forall j :: 0 <= j < r.index ==> order[j] !in active
    ensures r.None? <==> forall j :: 0 <= j < |order| ==> order[j] !in active
  {
    if |order| == 0 then None
    else if order[0] in active then Some(0)
    else
      match FirstActive(order[1..], active)
      case None => None
      case Some(i) => Some(i + 1)
  }

  /** The collider whose bounds anchor the ground probe. */
  function SelectCollider(active: set<ColliderKind>): (c: ColliderKind)
    ensures c in ProbeOrder ==> c in active
    ensures c in ProbeOrder ==> forall j :: 0 <= j < |ProbeOrder| && ProbeOrder[j] == c ==>
              forall k :: 0 <= k < j ==> ProbeOrder[k] !in active
    ensures c == CastPolygon <==> forall j :: 0 <= j < |ProbeOrder| ==> ProbeOrder[j] !in active
  {
    match FirstActive(ProbeOrder, active)
    case None => CastPolygon
    case Some(i) => ProbeOrder[i]
  }

  /** Axis-aligned bounds of a collider: centre x, bottom y and width. */
  datatype Bounds = Bounds(centerX: real, minY: real, sizeX: real)

  /** A downward box cast: centre, size, and how far it travels. */
  datatype BoxCast = BoxCast(origin: Vec2, size: Vec2, angle: real, direction: Vec2, distance: real)

  /** The box cast issued from the given collider bounds. */
  function ProbeQuery(b: Bounds, groundCheckHeight: real, groundCheckDistance: real): (q: BoxCast)
    ensures q.direction == Vec2(0.0, -1.0) && q.angle == 0.0
    ensures q.distance == groundCheckDistance && q.size.y == groundCheckHeight
    // the box is centred on the bottom edge of the collider ...
    ensures q.origin.x == b.centerX && q.origin.y == b.minY
    // ... and its width is nine tenths of the collider's
    ensures 10.0 * q.size.x == 9.0 * b.sizeX
  {
    BoxCast(Vec2(b.centerX, b.minY),
            Vec2(b.sizeX * GROUND_CHECK_WIDTH_REDUCING_FACTOR, groundCheckHeight),
            0.0, Vec2(0.0, -1.0), groundCheckDistance)
  }

  /** The probe issued in one fixed step, given which colliders are active
      and the bounds of each. */
  function Probe(active: set<ColliderKind>, boundsOf: ColliderKind -> Bounds,
                 groundCheckHeight: real, groundCheckDistance: real): (q: BoxCast)
    ensures var b := boundsOf(SelectCollider(active));
      q.origin == Vec2(b.centerX, b.minY) && 10.0 * q.size.x == 9.0 * b.sizeX
    ensures q.size.y == groundCheckHeight && q.angle == 0.0
    ensures q.direction == Vec2(0.0, -1.0) && q.distance == groundCheckDistance
  {
    ProbeQuery(boundsOf(SelectCollider(active)), groundCheckHeight, groundCheckDistance)
  }

  /** The probe box never reaches past either side of the collider it
      starts from, and is strictly narrower when the collider has width. */
  lemma ProbeWithinFootprint(b: Bounds, groundCheckHeight: real, groundCheckDistance: real)
    requires b.sizeX >= 0.0
    ensures var q := ProbeQuery(b, groundCheckHeight, groundCheckDistance);
      && b.centerX - b.sizeX / 2.0 <= q.origin.x - q.size.x / 2.0
      && q.origin.x + q.size.x / 2.0 <= b.centerX + b.sizeX / 2.0
      && (b.sizeX > 0.0 ==> q.size.x < b.sizeX)
  {
  }

  /** Selection follows the fixed priority: an active horizontal capsule
      always wins, and the cast collider is used exactly when nothing
      earlier is active, whether or not it is itself active. */
  lemma SelectionPriority(active: set<ColliderKind>)
    ensures HorizontalCapsule in active ==> SelectCollider(active) == HorizontalCapsule
    ensures HorizontalCapsule !in active && VerticalCapsule in active ==> SelectCollider(active) == VerticalCapsule
    ensures active <= {CastPolygon} ==> SelectCollider(active) == CastPolygon
  {
    var c := SelectCollider(active);
    if HorizontalCapsule in active {
      assert ProbeOrder[0] == HorizontalCapsule;
    } else if VerticalCapsule in active {
      assert ProbeOrder[1] == VerticalCapsule;
      assert ProbeOrder[0] !in active;
    }
  }
}
