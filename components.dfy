/**
 * The per-object component settings of io_mesh_urho/prefabs.py (the `urho_*` object properties),
 * the values the three "Reset" operators restore, and the optional attributes `UrhoExportPrefabs`
 * writes into the RigidBody, CollisionShape and StaticModel/AnimatedModel components: an
 * attribute is written only when its setting differs from the default Urho3D uses.
 *
 * Floats and vectors reach the XML through the `FloatToString` and `Vector3ToString` helpers of
 * the add-on's utilities; the model takes them as a `Formatter`.
 */
module Components {
  import opened Wrappers
  import opened Text
  import opened BitMask
  import opened Xml
  import opened Geometry

  /** `FloatToString` and `Vector3ToString`. */
  datatype Formatter = Formatter(float: real -> string, vector: Vec3 -> string)

  /** The formatter writes the four default values the exporter compares against as those texts. */
  predicate Renders(fmt: Formatter) {
    && fmt.vector(Ones) == "1 1 1"
    && fmt.vector(Zero) == "0 0 0"
    && fmt.float(0.8) == "0.8"
    && fmt.float(0.04) == "0.04"
  }

  /** The eight layer flags of a default collision layer: only the first. */
  const FirstLayer: seq<bool> := [true, false, false, false, false, false, false, false]

  /** All eight layer flags set. */
  const AllLayers: seq<bool> := [true, true, true, true, true, true, true, true]

  /** A contact threshold at or above this is Urho3D's default and is not written. */
  const ContactThresholdLimit: real := 100000000000000000.0

  /** The RigidBody settings of an object. */
  datatype BodySettings = BodySettings(
    mass: real,
    friction: real,
    anisotropicFriction: Vec3,
    rollingFriction: real,
    restitution: real,
    linearVelocity: Vec3,
    angularVelocity: Vec3,
    linearFactor: Vec3,
    angularFactor: Vec3,
    linearDamping: real,
    angularDamping: real,
    linearRestThreshold: real,
    angularRestThreshold: real,
    collisionLayer: seq<bool>,
    collisionMask: seq<bool>,
    contactThreshold: real,
    ccdRadius: real,
    ccdMotionThreshold: real,
    collisionEventMode: string,
    useGravity: bool,
    isKinematic: bool,
    isTrigger: bool,
    gravityOverride: Vec3)

  /** The CollisionShape settings of an object. */
  datatype ShapeSettings = ShapeSettings(
    shapeType: string,
    sizeFactor: Vec3,
    offsetRotation: Vec3,
    lodLevel: int,
    collisionMargin: real,
    customGeometryNodeId: int,
    overwriteModel: bool,
    model: string,
    overwriteSize: bool,
    size: Vec3,
    overwriteOffsetPosition: bool,
    offsetPosition: Vec3)

  /** The StaticModel/AnimatedModel settings of an object. */
  datatype DisplaySettings = DisplaySettings(
    isOccluder: bool,
    canBeOccluded: bool,
    castShadows: bool,
    drawDistance: real,
    shadowDistance: real,
    lodBias: real,
    maxLights: int,
    viewMask: seq<bool>,
    lightMask: seq<bool>,
    shadowMask: seq<bool>,
    zoneMask: seq<bool>,
    occlusionLodLevel: int)

  /** `UrhoComponentBodyResetOperator`. */
  function BodyDefaults(): BodySettings {
    BodySettings(0.0, 0.5, Ones, 0.0, 0.0, Zero, Zero, Ones, Ones, 0.0, 0.0, 0.8, 1.0,
                 FirstLayer, AllLayers, 1000000000000000000.0, 0.0, 0.0, "WHENACTIVE",
                 true, false, false, Zero)
  }

  /** `UrhoComponentShapeResetOperator`. */
  function ShapeDefaults(): ShapeSettings {
    ShapeSettings("TriangleMesh", Ones, Zero, 0, 0.04, 0, false, "", false, Zero, false, Zero)
  }

  /** `UrhoComponentModelResetOperator`. */
  function DisplayDefaults(): DisplaySettings {
    DisplaySettings(false, true, false, 0.0, 0.0, 1.0, 0, AllLayers, AllLayers, AllLayers, AllLayers, -1)
  }

  /** A layer list written as `'{:d}'.format(GetBitMask(layers))`. */
  function MaskText(layers: seq<bool>): string {
    IntString(MaskValue(layers))
  }

  /** The attributes of the RigidBody component, in the order the exporter writes them. */
  function BodyAttributes(b: BodySettings, fmt: Formatter): seq<Item> {
    BodyFriction(b, fmt) + BodyMotion(b, fmt) + BodyDamping(b, fmt) + BodyCollision(b, fmt) + BodyFlags(b, fmt)
  }

  /** The friction and restitution attributes. */
  function BodyFriction(b: BodySettings, fmt: Formatter): seq<Item> {
    Opt(b.mass != 0.0, Attribute("Mass", fmt.float(b.mass)))
    + Opt(b.friction != 0.5, Attribute("Friction", fmt.float(b.friction)))
    + Opt(fmt.vector(b.anisotropicFriction) != "1 1 1", Attribute("Anisotropic Friction", fmt.vector(b.anisotropicFriction)))
    + Opt(b.rollingFriction != 0.0, Attribute("Rolling Friction", fmt.float(b.rollingFriction)))
    + Opt(b.restitution != 0.0, Attribute("Restitution", fmt.float(b.restitution)))
  }

  /** The velocity and factor attributes. */
  function BodyMotion(b: BodySettings, fmt: Formatter): seq<Item> {
    Opt(fmt.vector(b.linearVelocity) != "0 0 0", Attribute("Linear Velocity", fmt.vector(b.linearVelocity)))
    + Opt(fmt.vector(b.angularVelocity) != "0 0 0", Attribute("Angular Velocity", fmt.vector(b.angularVelocity)))
    + Opt(fmt.vector(b.linearFactor) != "1 1 1", Attribute("Linear Factor", fmt.vector(b.linearFactor)))
    + Opt(fmt.vector(b.angularFactor) != "1 1 1", Attribute("Angular Factor", fmt.vector(b.angularFactor)))
  }

  /** The damping and rest threshold attributes. */
  function BodyDamping(b: BodySettings, fmt: Formatter): seq<Item> {
    Opt(b.linearDamping != 0.0, Attribute("Linear Damping", fmt.float(b.linearDamping)))
    + Opt(b.angularDamping != 0.0, Attribute("Angular Damping", fmt.float(b.angularDamping)))
    + Opt(fmt.float(b.linearRestThreshold) != "0.8", Attribute("Linear Rest Threshold", fmt.float(b.linearRestThreshold)))
    + Opt(b.angularRestThreshold != 1.0, Attribute("Angular Rest Threshold", fmt.float(b.angularRestThreshold)))
  }

  /** The collision filter, contact threshold and CCD attributes. */
  function BodyCollision(b: BodySettings, fmt: Formatter): seq<Item> {
    Opt(b.collisionLayer != FirstLayer, Attribute("Collision Layer", MaskText(b.collisionLayer)))
    + Opt(b.collisionMask != AllLayers, Attribute("Collision Mask", MaskText(b.collisionMask)))
    + Opt(b.contactThreshold < ContactThresholdLimit, Attribute("Contact Threshold", fmt.float(b.contactThreshold)))
    + Opt(b.ccdRadius != 0.0, Attribute("CCD Radius", fmt.float(b.ccdRadius)))
    + Opt(b.ccdMotionThreshold != 0.0, Attribute("CCD Motion Threshold", fmt.float(b.ccdMotionThreshold)))
  }

  /** The event mode, gravity, kinematic and trigger attributes. */
  function BodyFlags(b: BodySettings, fmt: Formatter): seq<Item> {
    Opt(b.collisionEventMode != "WHENACTIVE", Attribute("CCD Motion Threshold", b.collisionEventMode))
    + Opt(!b.useGravity, Attribute("Use Gravity", "false"))
    + Opt(b.isKinematic, Attribute("Is Kinematic", "true"))
    + Opt(b.isTrigger, Attribute("Is Trigger", "true"))
    + Opt(fmt.vector(b.gravityOverride) != "0 0 0", Attribute("Gravity Override", fmt.vector(b.gravityOverride)))
  }

  /** The friction settings are Urho3D's defaults: nothing of them is written. */
  predicate FrictionAtDefaults(b: BodySettings, fmt: Formatter) {
    && b.mass == 0.0 && b.friction == 0.5 && fmt.vector(b.anisotropicFriction) == fmt.vector(Ones)
    && b.rollingFriction == 0.0 && b.restitution == 0.0
  }

  predicate MotionAtDefaults(b: BodySettings, fmt: Formatter) {
    && fmt.vector(b.linearVelocity) == fmt.vector(Zero) && fmt.vector(b.angularVelocity) == fmt.vector(Zero)
    && fmt.vector(b.linearFactor) == fmt.vector(Ones) && fmt.vector(b.angularFactor) == fmt.vector(Ones)
  }

  predicate DampingAtDefaults(b: BodySettings, fmt: Formatter) {
    && b.linearDamping == 0.0 && b.angularDamping == 0.0
    && fmt.float(b.linearRestThreshold) == fmt.float(0.8) && b.angularRestThreshold == 1.0
  }

  predicate CollisionAtDefaults(b: BodySettings) {
    && b.collisionLayer == FirstLayer && b.collisionMask == AllLayers
    && b.contactThreshold >= ContactThresholdLimit && b.ccdRadius == 0.0 && b.ccdMotionThreshold == 0.0
  }

  predicate FlagsAtDefaults(b: BodySettings, fmt: Formatter) {
    && b.collisionEventMode == "WHENACTIVE" && b.useGravity && !b.isKinematic && !b.isTrigger
    && fmt.vector(b.gravityOverride) == fmt.vector(Zero)
  }

  /** The body settings Urho3D uses anyway: every written value equals its default text. */
  predicate BodyAtDefaults(b: BodySettings, fmt: Formatter) {
    && FrictionAtDefaults(b, fmt) && MotionAtDefaults(b, fmt) && DampingAtDefaults(b, fmt)
    && CollisionAtDefaults(b) && FlagsAtDefaults(b, fmt)
  }

  /** Each group of body attributes is empty exactly when its settings are at their defaults. */
  lemma BodyGroupsEmpty(b: BodySettings, fmt: Formatter)
    requires Renders(fmt)
    ensures BodyFriction(b, fmt) == [] <==> FrictionAtDefaults(b, fmt)
    ensures BodyMotion(b, fmt) == [] <==> MotionAtDefaults(b, fmt)
    ensures BodyDamping(b, fmt) == [] <==> DampingAtDefaults(b, fmt)
    ensures BodyCollision(b, fmt) == [] <==> CollisionAtDefaults(b)
    ensures BodyFlags(b, fmt) == [] <==> FlagsAtDefaults(b, fmt)
  {
  }

  /** With every other group at its defaults, the body carries only its friction attributes. */
  lemma OnlyFriction(b: BodySettings, fmt: Formatter)
    requires Renders(fmt)
    requires MotionAtDefaults(b, fmt) && DampingAtDefaults(b, fmt) && CollisionAtDefaults(b) && FlagsAtDefaults(b, fmt)
    ensures BodyAttributes(b, fmt) == BodyFriction(b, fmt)
  {
    BodyGroupsEmpty(b, fmt);
  }

  /** With every other group at its defaults, the body carries only its motion attributes. */
  lemma OnlyMotion(b: BodySettings, fmt: Formatter)
    requires Renders(fmt)
    requires FrictionAtDefaults(b, fmt) && DampingAtDefaults(b, fmt) && CollisionAtDefaults(b) && FlagsAtDefaults(b, fmt)
    ensures BodyAttributes(b, fmt) == BodyMotion(b, fmt)
  {
    BodyGroupsEmpty(b, fmt);
  }

  /** With every other group at its defaults, the body carries only its damping attributes. */
  lemma OnlyDamping(b: BodySettings, fmt: Formatter)
    requires Renders(fmt)
    requires FrictionAtDefaults(b, fmt) && MotionAtDefaults(b, fmt) && CollisionAtDefaults(b) && FlagsAtDefaults(b, fmt)
    ensures BodyAttributes(b, fmt) == BodyDamping(b, fmt)
  {
    BodyGroupsEmpty(b, fmt);
  }

  /** With every other group at its defaults, the body carries only its collision attributes. */
  lemma OnlyCollision(b: BodySettings, fmt: Formatter)
    requires Renders(fmt)
    requires FrictionAtDefaults(b, fmt) && MotionAtDefaults(b, fmt) && DampingAtDefaults(b, fmt) && FlagsAtDefaults(b, fmt)
    ensures BodyAttributes(b, fmt) == BodyCollision(b, fmt)
  {
    BodyGroupsEmpty(b, fmt);
  }

  /** With every other group at its defaults, the body carries only its flags attributes. */
  lemma OnlyFlags(b: BodySettings, fmt: Formatter)
    requires Renders(fmt)
    requires FrictionAtDefaults(b, fmt) && MotionAtDefaults(b, fmt) && DampingAtDefaults(b, fmt) && CollisionAtDefaults(b)
    ensures BodyAttributes(b, fmt) == BodyFlags(b, fmt)
  {
    BodyGroupsEmpty(b, fmt);
  }

  /** The RigidBody gets no attribute exactly when every setting is at Urho3D's default. */
  lemma BodyEmpty(b: BodySettings, fmt: Formatter)
    requires Renders(fmt)
    ensures BodyAttributes(b, fmt) == [] <==> BodyAtDefaults(b, fmt)
  {
    BodyGroupsEmpty(b, fmt);
  }

  /** A reset body writes no attribute: the reset operator and the exporter agree on every default. */
  lemma BodyResetWritesNothing(fmt: Formatter)
    requires Renders(fmt)
    ensures BodyAtDefaults(BodyDefaults(), fmt)
    ensures BodyAttributes(BodyDefaults(), fmt) == []
  {
    BodyEmpty(BodyDefaults(), fmt);
  }

  /** Changing only one of mass or friction from its reset value writes exactly that attribute. */
  lemma BodyMassFrictionChange(fmt: Formatter)
    requires Renders(fmt)
    ensures forall v: real :: v != 0.0 ==>
      BodyAttributes(BodyDefaults().(mass := v), fmt) == [Attribute("Mass", fmt.float(v))]
    ensures forall v: real :: v != 0.5 ==>
      BodyAttributes(BodyDefaults().(friction := v), fmt) == [Attribute("Friction", fmt.float(v))]
  {
    forall v: real | v != 0.0
      ensures BodyAttributes(BodyDefaults().(mass := v), fmt) == [Attribute("Mass", fmt.float(v))]
    {
      OnlyFriction(BodyDefaults().(mass := v), fmt);
    }
    forall v: real | v != 0.5
      ensures BodyAttributes(BodyDefaults().(friction := v), fmt) == [Attribute("Friction", fmt.float(v))]
    {
      OnlyFriction(BodyDefaults().(friction := v), fmt);
    }
  }

  /** Changing only one of anisotropicFriction, rollingFriction or restitution from its reset value writes exactly that attribute. */
  lemma BodyFrictionChange(fmt: Formatter)
    requires Renders(fmt)
    ensures forall v: Vec3 :: fmt.vector(v) != "1 1 1" ==>
      BodyAttributes(BodyDefaults().(anisotropicFriction := v), fmt) == [Attribute("Anisotropic Friction", fmt.vector(v))]
    ensures forall v: real :: v != 0.0 ==>
      BodyAttributes(BodyDefaults().(rollingFriction := v), fmt) == [Attribute("Rolling Friction", fmt.float(v))]
    ensures forall v: real :: v != 0.0 ==>
      BodyAttributes(BodyDefaults().(restitution := v), fmt) == [Attribute("Restitution", fmt.float(v))]
  {
    forall v: Vec3 | fmt.vector(v) != "1 1 1"
      ensures BodyAttributes(BodyDefaults().(anisotropicFriction := v), fmt) == [Attribute("Anisotropic Friction", fmt.vector(v))]
    {
      OnlyFriction(BodyDefaults().(anisotropicFriction := v), fmt);
    }
    forall v: real | v != 0.0
      ensures BodyAttributes(BodyDefaults().(rollingFriction := v), fmt) == [Attribute("Rolling Friction", fmt.float(v))]
    {
      OnlyFriction(BodyDefaults().(rollingFriction := v), fmt);
    }
    forall v: real | v != 0.0
      ensures BodyAttributes(BodyDefaults().(restitution := v), fmt) == [Attribute("Restitution", fmt.float(v))]
    {
      OnlyFriction(BodyDefaults().(restitution := v), fmt);
    }
  }

  /** Changing only one of linearVelocity or angularVelocity from its reset value writes exactly that attribute. */
  lemma BodyVelocityChange(fmt: Formatter)
    requires Renders(fmt)
    ensures forall v: Vec3 :: fmt.vector(v) != "0 0 0" ==>
      BodyAttributes(BodyDefaults().(linearVelocity := v), fmt) == [Attribute("Linear Velocity", fmt.vector(v))]
    ensures forall v: Vec3 :: fmt.vector(v) != "0 0 0" ==>
      BodyAttributes(BodyDefaults().(angularVelocity := v), fmt) == [Attribute("Angular Velocity", fmt.vector(v))]
  {
    forall v: Vec3 | fmt.vector(v) != "0 0 0"
      ensures BodyAttributes(BodyDefaults().(linearVelocity := v), fmt) == [Attribute("Linear Velocity", fmt.vector(v))]
    {
      OnlyMotion(BodyDefaults().(linearVelocity := v), fmt);
    }
    forall v: Vec3 | fmt.vector(v) != "0 0 0"
      ensures BodyAttributes(BodyDefaults().(angularVelocity := v), fmt) == [Attribute("Angular Velocity", fmt.vector(v))]
    {
      OnlyMotion(BodyDefaults().(angularVelocity := v), fmt);
    }
  }

  /** Changing only one of linearFactor or angularFactor from its reset value writes exactly that attribute. */
  lemma BodyFactorChange(fmt: Formatter)
    requires Renders(fmt)
    ensures forall v: Vec3 :: fmt.vector(v) != "1 1 1" ==>
      BodyAttributes(BodyDefaults().(linearFactor := v), fmt) == [Attribute("Linear Factor", fmt.vector(v))]
    ensures forall v: Vec3 :: fmt.vector(v) != "1 1 1" ==>
      BodyAttributes(BodyDefaults().(angularFactor := v), fmt) == [Attribute("Angular Factor", fmt.vector(v))]
  {
    forall v: Vec3 | fmt.vector(v) != "1 1 1"
      ensures BodyAttributes(BodyDefaults().(linearFactor := v), fmt) == [Attribute("Linear Factor", fmt.vector(v))]
    {
      OnlyMotion(BodyDefaults().(linearFactor := v), fmt);
    }
    forall v: Vec3 | fmt.vector(v) != "1 1 1"
      ensures BodyAttributes(BodyDefaults().(angularFactor := v), fmt) == [Attribute("Angular Factor", fmt.vector(v))]
    {
      OnlyMotion(BodyDefaults().(angularFactor := v), fmt);
    }
  }

  /** Changing only one of linearDamping or angularDamping from its reset value writes exactly that attribute. */
  lemma BodyDampingChange(fmt: Formatter)
    requires Renders(fmt)
    ensures forall v: real :: v != 0.0 ==>
      BodyAttributes(BodyDefaults().(linearDamping := v), fmt) == [Attribute("Linear Damping", fmt.float(v))]
    ensures forall v: real :: v != 0.0 ==>
      BodyAttributes(BodyDefaults().(angularDamping := v), fmt) == [Attribute("Angular Damping", fmt.float(v))]
  {
    forall v: real | v != 0.0
      ensures BodyAttributes(BodyDefaults().(linearDamping := v), fmt) == [Attribute("Linear Damping", fmt.float(v))]
    {
      OnlyDamping(BodyDefaults().(linearDamping := v), fmt);
    }
    forall v: real | v != 0.0
      ensures BodyAttributes(BodyDefaults().(angularDamping := v), fmt) == [Attribute("Angular Damping", fmt.float(v))]
    {
      OnlyDamping(BodyDefaults().(angularDamping := v), fmt);
    }
  }

  /** Changing only one of linearRestThreshold or angularRestThreshold from its reset value writes exactly that attribute. */
  lemma BodyRestThresholdChange(fmt: Formatter)
    requires Renders(fmt)
    ensures forall v: real :: fmt.float(v) != "0.8" ==>
      BodyAttributes(BodyDefaults().(linearRestThreshold := v), fmt) == [Attribute("Linear Rest Threshold", fmt.float(v))]
    ensures forall v: real :: v != 1.0 ==>
      BodyAttributes(BodyDefaults().(angularRestThreshold := v), fmt) == [Attribute("Angular Rest Threshold", fmt.float(v))]
  {
    forall v: real | fmt.float(v) != "0.8"
      ensures BodyAttributes(BodyDefaults().(linearRestThreshold := v), fmt) == [Attribute("Linear Rest Threshold", fmt.float(v))]
    {
      OnlyDamping(BodyDefaults().(linearRestThreshold := v), fmt);
    }
    forall v: real | v != 1.0
      ensures BodyAttributes(BodyDefaults().(angularRestThreshold := v), fmt) == [Attribute("Angular Rest Threshold", fmt.float(v))]
    {
      OnlyDamping(BodyDefaults().(angularRestThreshold := v), fmt);
    }
  }

  /** Changing only one of collisionLayer or collisionMask from its reset value writes exactly that attribute. */
  lemma BodyLayerChange(fmt: Formatter)
    requires Renders(fmt)
    ensures forall v: seq<bool> :: v != FirstLayer ==>
      BodyAttributes(BodyDefaults().(collisionLayer := v), fmt) == [Attribute("Collision Layer", MaskText(v))]
    ensures forall v: seq<bool> :: v != AllLayers ==>
      BodyAttributes(BodyDefaults().(collisionMask := v), fmt) == [Attribute("Collision Mask", MaskText(v))]
  {
    forall v: seq<bool> | v != FirstLayer
      ensures BodyAttributes(BodyDefaults().(collisionLayer := v), fmt) == [Attribute("Collision Layer", MaskText(v))]
    {
      OnlyCollision(BodyDefaults().(collisionLayer := v), fmt);
    }
    forall v: seq<bool> | v != AllLayers
      ensures BodyAttributes(BodyDefaults().(collisionMask := v), fmt) == [Attribute("Collision Mask", MaskText(v))]
    {
      OnlyCollision(BodyDefaults().(collisionMask := v), fmt);
    }
  }

  /**
   * Changing only the contact threshold writes it exactly when it is below 1e17; the reset
   * value 1e18 is not written.
   */
  lemma BodyContactThresholdChange(fmt: Formatter)
    requires Renders(fmt)
    ensures forall v: real ::
      BodyAttributes(BodyDefaults().(contactThreshold := v), fmt) ==
      (if v < ContactThresholdLimit then [Attribute("Contact Threshold", fmt.float(v))] else [])
  {
    forall v: real
      ensures BodyAttributes(BodyDefaults().(contactThreshold := v), fmt) == (if v < ContactThresholdLimit then [Attribute("Contact Threshold", fmt.float(v))] else [])
    {
      OnlyCollision(BodyDefaults().(contactThreshold := v), fmt);
    }
  }

  /** Changing only one of ccdRadius or ccdMotionThreshold from its reset value writes exactly that attribute. */
  lemma BodyCcdChange(fmt: Formatter)
    requires Renders(fmt)
    ensures forall v: real :: v != 0.0 ==>
      BodyAttributes(BodyDefaults().(ccdRadius := v), fmt) == [Attribute("CCD Radius", fmt.float(v))]
    ensures forall v: real :: v != 0.0 ==>
      BodyAttributes(BodyDefaults().(ccdMotionThreshold := v), fmt) == [Attribute("CCD Motion Threshold", fmt.float(v))]
  {
    forall v: real | v != 0.0
      ensures BodyAttributes(BodyDefaults().(ccdRadius := v), fmt) == [Attribute("CCD Radius", fmt.float(v))]
    {
      OnlyCollision(BodyDefaults().(ccdRadius := v), fmt);
    }
    forall v: real | v != 0.0
      ensures BodyAttributes(BodyDefaults().(ccdMotionThreshold := v), fmt) == [Attribute("CCD Motion Threshold", fmt.float(v))]
    {
      OnlyCollision(BodyDefaults().(ccdMotionThreshold := v), fmt);
    }
  }

  /** Changing only the collision event mode writes exactly one attribute, named CCD Motion Threshold. */
  lemma BodyCollisionEventModeChange(fmt: Formatter)
    requires Renders(fmt)
    ensures forall v: string :: v != "WHENACTIVE" ==>
      BodyAttributes(BodyDefaults().(collisionEventMode := v), fmt) == [Attribute("CCD Motion Threshold", v)]
  {
    forall v: string | v != "WHENACTIVE"
      ensures BodyAttributes(BodyDefaults().(collisionEventMode := v), fmt) == [Attribute("CCD Motion Threshold", v)]
    {
      OnlyFlags(BodyDefaults().(collisionEventMode := v), fmt);
    }
  }

  /** Changing only one of useGravity, isKinematic or isTrigger from its reset value writes exactly that attribute. */
  lemma BodyFlagsChange(fmt: Formatter)
    requires Renders(fmt)
    ensures BodyAttributes(BodyDefaults().(useGravity := false), fmt) == [Attribute("Use Gravity", "false")]
    ensures BodyAttributes(BodyDefaults().(isKinematic := true), fmt) == [Attribute("Is Kinematic", "true")]
    ensures BodyAttributes(BodyDefaults().(isTrigger := true), fmt) == [Attribute("Is Trigger", "true")]
  {
    OnlyFlags(BodyDefaults().(useGravity := false), fmt);
    OnlyFlags(BodyDefaults().(isKinematic := true), fmt);
    OnlyFlags(BodyDefaults().(isTrigger := true), fmt);
  }

  /** Changing only the gravity override from its reset value writes exactly that attribute. */
  lemma BodyGravityOverrideChange(fmt: Formatter)
    requires Renders(fmt)
    ensures forall v: Vec3 :: fmt.vector(v) != "0 0 0" ==>
      BodyAttributes(BodyDefaults().(gravityOverride := v), fmt) == [Attribute("Gravity Override", fmt.vector(v))]
  {
    forall v: Vec3 | fmt.vector(v) != "0 0 0"
      ensures BodyAttributes(BodyDefaults().(gravityOverride := v), fmt) == [Attribute("Gravity Override", fmt.vector(v))]
    {
      OnlyFlags(BodyDefaults().(gravityOverride := v), fmt);
    }
  }

  /**
   * The collision event mode is written under the name of the CCD motion threshold, so a body
   * with both set carries two attributes of that name.
   */
  lemma BodyEventModeName(b: BodySettings, fmt: Formatter)
    requires b.collisionEventMode != "WHENACTIVE" && b.ccdMotionThreshold != 0.0
    ensures Attribute("CCD Motion Threshold", b.collisionEventMode) in BodyAttributes(b, fmt)
    ensures Attribute("CCD Motion Threshold", fmt.float(b.ccdMotionThreshold)) in BodyAttributes(b, fmt)
  {
  }

  /** The collision layer written for a single layer `i < 8` of eight is `1 << i`. */
  lemma OneLayerText(i: nat)
    requires i < MaxBitmaskBits
    ensures ParseInt(MaskText(seq(8, k => k == i))) == Pow2(i)
  {
    var layers := seq(8, k => k == i);
    forall j: nat ensures Bit(Pow2(i), j) == (j < |layers| && layers[j]) {
      OnePowBit(i, j);
    }
    assert Pow2(i) != MaxBitmaskValue by {
      OnePowBit(i, (i + 1) % 8);
    }
    MaskFromBits(layers, Pow2(i));
    IntRoundTrip(MaskValue(layers));
  }

  /** `1 << i` has exactly bit `i` set. */
  lemma {:induction false} OnePowBit(i: nat, j: nat)
    ensures Bit(Pow2(i), j) == (j == i)
  {
    if i == 0 {
      if j > 0 {
        BitZero(j - 1);
      }
    } else if j == 0 {
    } else {
      OnePowBit(i - 1, j - 1);
    }
  }

  /** The size and offset of a collision shape. */
  datatype ShapeFrame = ShapeFrame(size: Vec3, offset: Vec3)

  /**
   * The size and offset of the CollisionShape. An overwritten size or offset is used as given. A
   * computed size is the extent of the model's bounding box `bbox` times the size factor, and
   * reading it also sets the exporter's local `bbox` (and its extents `x`, `y`, `z`). A computed
   * offset is the centre of whatever box those locals hold: the model's own when its size was
   * computed, otherwise `last`, the box an earlier model of the same call left there. With an
   * overwritten size and no earlier box the locals are unbound and the exporter raises an
   * error: None here. A flat Box, judged by the box the extents come from, gets height 1 and
   * offset -0.5.
   */
  function ShapeGeometry(s: ShapeSettings, bbox: BoundingBox, last: Option<BoundingBox>): (r: Option<ShapeFrame>)
    ensures r.None? <==> s.overwriteSize && !s.overwriteOffsetPosition && last.None?
    ensures r.Some? && s.overwriteSize ==> r.value.size == s.size
    ensures r.Some? && s.overwriteOffsetPosition ==> r.value.offset == s.offsetPosition
    ensures r.Some? && !s.overwriteSize ==>
      && r.value.size.x == (bbox.max.x - bbox.min.x) * s.sizeFactor.x
      && r.value.size.z == (bbox.max.z - bbox.min.z) * s.sizeFactor.z
      && r.value.size.y == (if FlatBox(s, bbox) then 1.0 else (bbox.max.y - bbox.min.y) * s.sizeFactor.y)
    ensures r.Some? && !s.overwriteSize && !s.overwriteOffsetPosition ==>
      && r.value.offset.x == (bbox.min.x + bbox.max.x) / 2.0
      && r.value.offset.z == (bbox.min.z + bbox.max.z) / 2.0
      && r.value.offset.y == (if FlatBox(s, bbox) then -0.5 else (bbox.min.y + bbox.max.y) / 2.0)
    ensures r.Some? && s.overwriteSize && !s.overwriteOffsetPosition ==>
      && last.Some?
      && r.value.offset.x == (last.value.min.x + last.value.max.x) / 2.0
      && r.value.offset.z == (last.value.min.z + last.value.max.z) / 2.0
      && r.value.offset.y == (if FlatBox(s, last.value) then -0.5 else (last.value.min.y + last.value.max.y) / 2.0)
  {
    if s.overwriteSize && !s.overwriteOffsetPosition && last.None? then None
    else
      var size :=
        if s.overwriteSize then s.size
        else
          var x := bbox.max.x - bbox.min.x;
          var y := bbox.max.y - bbox.min.y;
          var z := bbox.max.z - bbox.min.z;
          Vec3(x * s.sizeFactor.x, if s.shapeType == "Box" && y == 0.0 then 1.0 else y * s.sizeFactor.y, z * s.sizeFactor.z);
      var offset :=
        if s.overwriteOffsetPosition then s.offsetPosition
        else
          var b := if s.overwriteSize then last.value else bbox;
          var x := b.max.x - b.min.x;
          var y := b.max.y - b.min.y;
          var z := b.max.z - b.min.z;
          Vec3(b.max.x - x / 2.0, if s.shapeType == "Box" && y == 0.0 then -0.5 else b.max.y - y / 2.0, b.max.z - z / 2.0);
      Some(ShapeFrame(size, offset))
  }

  /** A Box shape on a model without height. */
  predicate FlatBox(s: ShapeSettings, bbox: BoundingBox) {
    s.shapeType == "Box" && bbox.max.y - bbox.min.y == 0.0
  }

  /** Shapes built from a model rather than from a size. */
  predicate MeshShape(shapeType: string) {
    shapeType == "TriangleMesh" || shapeType == "ConvexHull"
  }

  /** The attributes of the CollisionShape component; `modelFile` is the model's registered path. */
  function ShapeAttributes(s: ShapeSettings, fmt: Formatter, frame: ShapeFrame, modelFile: string): seq<Item> {
    [Attribute("Shape Type", s.shapeType)] + ShapeVolume(s, fmt, frame, modelFile) + ShapeOptional(s, fmt)
  }

  /** The model of a mesh shape, or the size and offset of any other shape. */
  function ShapeVolume(s: ShapeSettings, fmt: Formatter, frame: ShapeFrame, modelFile: string): seq<Item> {
    if MeshShape(s.shapeType) then
      [Attribute("Model", "Model;" + (if s.overwriteModel then s.model else modelFile))]
    else
      Opt(fmt.vector(frame.size) != "1 1 1", Attribute("Size", fmt.vector(frame.size)))
      + Opt(fmt.vector(frame.offset) != "0 0 0", Attribute("Offset Position", fmt.vector(frame.offset)))
  }

  lemma ShapeVolumeNames(s: ShapeSettings, fmt: Formatter, frame: ShapeFrame, modelFile: string)
    ensures MeshShape(s.shapeType) ==> AttrNames(ShapeVolume(s, fmt, frame, modelFile)) == ["Model"]
    ensures !MeshShape(s.shapeType) ==>
      forall n :: n in AttrNames(ShapeVolume(s, fmt, frame, modelFile)) ==> n in {"Size", "Offset Position"}
  {
    if MeshShape(s.shapeType) {
      OptNames(ShapeVolume(s, fmt, frame, modelFile));
    } else {
      var size := Opt(fmt.vector(frame.size) != "1 1 1", Attribute("Size", fmt.vector(frame.size)));
      var offset := Opt(fmt.vector(frame.offset) != "0 0 0", Attribute("Offset Position", fmt.vector(frame.offset)));
      AttrNamesAppend(size, offset);
      OptNames(size);
      OptNames(offset);
    }
  }

  /** The attributes every shape type may carry after its geometry. */
  function ShapeOptional(s: ShapeSettings, fmt: Formatter): seq<Item> {
    Opt(fmt.vector(s.offsetRotation) != "0 0 0", Attribute("Offset Rotation", fmt.vector(s.offsetRotation)))
    + Opt(s.lodLevel != 0, Attribute("LOD Level", IntString(s.lodLevel)))
    + Opt(fmt.float(s.collisionMargin) != "0.04", Attribute("Collision Margin", fmt.float(s.collisionMargin)))
    + Opt(s.customGeometryNodeId != 0, Attribute("CustomGeometry NodeID", IntString(s.customGeometryNodeId)))
  }

  /** None of the trailing shape attributes names the geometry. */
  lemma {:induction false} ShapeOptionalNames(s: ShapeSettings, fmt: Formatter)
    ensures forall n :: n in AttrNames(ShapeOptional(s, fmt)) ==>
      n in {"Offset Rotation", "LOD Level", "Collision Margin", "CustomGeometry NodeID"}
  {
    var a := Opt(fmt.vector(s.offsetRotation) != "0 0 0", Attribute("Offset Rotation", fmt.vector(s.offsetRotation)));
    var b := Opt(s.lodLevel != 0, Attribute("LOD Level", IntString(s.lodLevel)));
    var c := Opt(fmt.float(s.collisionMargin) != "0.04", Attribute("Collision Margin", fmt.float(s.collisionMargin)));
    var d := Opt(s.customGeometryNodeId != 0, Attribute("CustomGeometry NodeID", IntString(s.customGeometryNodeId)));
    assert AttrNames(ShapeOptional(s, fmt)) == AttrNames(a) + AttrNames(b) + AttrNames(c) + AttrNames(d) by {
      AttrNamesAppend(a + b + c, d);
      AttrNamesAppend(a + b, c);
      AttrNamesAppend(a, b);
    }
    OptNames(a);
    OptNames(b);
    OptNames(c);
    OptNames(d);
  }

  /** The names in a list of at most one attribute. */
  lemma OptNames(s: seq<Item>)
    requires |s| <= 1
    ensures AttrNames(s) == if s != [] && s[0].Attribute? then [s[0].name] else []
  {
    if s != [] {
      assert s[1..] == [];
    }
  }

  /**
   * The shape type comes first; a TriangleMesh or ConvexHull shape names its model and no size or
   * offset; any other shape names no model.
   */
  lemma ShapeKinds(s: ShapeSettings, fmt: Formatter, frame: ShapeFrame, modelFile: string)
    ensures ShapeAttributes(s, fmt, frame, modelFile)[0] == Attribute("Shape Type", s.shapeType)
    ensures MeshShape(s.shapeType) ==>
      var names := AttrNames(ShapeAttributes(s, fmt, frame, modelFile));
      "Model" in names && "Size" !in names && "Offset Position" !in names
    ensures !MeshShape(s.shapeType) ==> "Model" !in AttrNames(ShapeAttributes(s, fmt, frame, modelFile))
  {
    var head := [Attribute("Shape Type", s.shapeType)];
    var volume := ShapeVolume(s, fmt, frame, modelFile);
    var rest := ShapeOptional(s, fmt);
    var names := AttrNames(ShapeAttributes(s, fmt, frame, modelFile));
    assert names == ["Shape Type"] + AttrNames(volume) + AttrNames(rest) by {
      AttrNamesAppend(head + volume, rest);
      AttrNamesAppend(head, volume);
      OptNames(head);
    }
    assert "Model" !in AttrNames(rest) && "Size" !in AttrNames(rest) && "Offset Position" !in AttrNames(rest) by {
      ShapeOptionalNames(s, fmt);
    }
    if MeshShape(s.shapeType) {
      assert AttrNames(volume) == ["Model"] by {
        ShapeVolumeNames(s, fmt, frame, modelFile);
      }
    } else {
      assert "Model" !in AttrNames(volume) by {
        ShapeVolumeNames(s, fmt, frame, modelFile);
      }
    }
  }

  /** A reset shape is a triangle mesh of the model's own file and writes nothing else. */
  lemma ShapeResetAttributes(fmt: Formatter, frame: ShapeFrame, modelFile: string)
    requires Renders(fmt)
    ensures ShapeAttributes(ShapeDefaults(), fmt, frame, modelFile) ==
      [Attribute("Shape Type", "TriangleMesh"), Attribute("Model", "Model;" + modelFile)]
  {
  }

  /** The attributes of the StaticModel/AnimatedModel component: model and materials first. */
  function DisplayAttributes(d: DisplaySettings, fmt: Formatter, modelFile: string, materials: string): seq<Item> {
    [Attribute("Model", "Model;" + modelFile), Attribute("Material", "Material" + materials)]
    + DisplayOptional(d, fmt)
  }

  function DisplayOptional(d: DisplaySettings, fmt: Formatter): seq<Item> {
    Opt(d.isOccluder, Attribute("Is Occluder", "true"))
    + Opt(!d.canBeOccluded, Attribute("Can Be Occluded", "false"))
    + Opt(d.castShadows, Attribute("Cast Shadows", "true"))
    + Opt(d.drawDistance != 0.0, Attribute("Draw Distance", fmt.float(d.drawDistance)))
    + Opt(d.shadowDistance != 0.0, Attribute("Shadow Distance", fmt.float(d.shadowDistance)))
    + Opt(d.lodBias != 1.0, Attribute("LOD Bias", fmt.float(d.lodBias)))
    + Opt(d.maxLights != 0, Attribute("Max Lights", IntString(d.maxLights)))
    + Opt(d.viewMask != AllLayers, Attribute("View Mask", MaskText(d.viewMask)))
    + Opt(d.lightMask != AllLayers, Attribute("Light Mask", MaskText(d.lightMask)))
    + Opt(d.shadowMask != AllLayers, Attribute("Shadow Mask", MaskText(d.shadowMask)))
    + Opt(d.zoneMask != AllLayers, Attribute("Zone Mask", MaskText(d.zoneMask)))
    + Opt(d.occlusionLodLevel != -1, Attribute("Occlusion LOD Level", IntString(d.occlusionLodLevel)))
  }

  /** Display settings Urho3D uses anyway. */
  predicate DisplayAtDefaults(d: DisplaySettings) {
    && !d.isOccluder && d.canBeOccluded && !d.castShadows
    && d.drawDistance == 0.0 && d.shadowDistance == 0.0 && d.lodBias == 1.0 && d.maxLights == 0
    && d.viewMask == AllLayers && d.lightMask == AllLayers && d.shadowMask == AllLayers && d.zoneMask == AllLayers
    && d.occlusionLodLevel == -1
  }

  /**
   * The model component always carries its model and materials, and anything more exactly when
   * some setting is off its default; the reset settings are at their defaults.
   */
  lemma DisplayMinimal(d: DisplaySettings, fmt: Formatter, modelFile: string, materials: string)
    ensures DisplayAttributes(d, fmt, modelFile, materials)[..2] ==
      [Attribute("Model", "Model;" + modelFile), Attribute("Material", "Material" + materials)]
    ensures |DisplayAttributes(d, fmt, modelFile, materials)| == 2 <==> DisplayAtDefaults(d)
    ensures DisplayAtDefaults(DisplayDefaults())
  {
  }

  /** Changing any single culling or distance setting from its reset value adds exactly that attribute. */
  lemma DisplayDistanceChange(fmt: Formatter)
    ensures DisplayOptional(DisplayDefaults().(isOccluder := true), fmt) == [Attribute("Is Occluder", "true")]
    ensures DisplayOptional(DisplayDefaults().(canBeOccluded := false), fmt) == [Attribute("Can Be Occluded", "false")]
    ensures DisplayOptional(DisplayDefaults().(castShadows := true), fmt) == [Attribute("Cast Shadows", "true")]
    ensures forall v: real :: v != 0.0 ==>
      DisplayOptional(DisplayDefaults().(drawDistance := v), fmt) == [Attribute("Draw Distance", fmt.float(v))]
    ensures forall v: real :: v != 0.0 ==>
      DisplayOptional(DisplayDefaults().(shadowDistance := v), fmt) == [Attribute("Shadow Distance", fmt.float(v))]
    ensures forall v: real :: v != 1.0 ==>
      DisplayOptional(DisplayDefaults().(lodBias := v), fmt) == [Attribute("LOD Bias", fmt.float(v))]
    ensures forall v: int :: v != 0 ==>
      DisplayOptional(DisplayDefaults().(maxLights := v), fmt) == [Attribute("Max Lights", IntString(v))]
  {
  }

  /** Changing any single mask or occlusion level from its reset value adds exactly that attribute. */
  lemma DisplayMaskChange(fmt: Formatter)
    ensures forall v: seq<bool> :: v != AllLayers ==>
      DisplayOptional(DisplayDefaults().(viewMask := v), fmt) == [Attribute("View Mask", MaskText(v))]
    ensures forall v: seq<bool> :: v != AllLayers ==>
      DisplayOptional(DisplayDefaults().(lightMask := v), fmt) == [Attribute("Light Mask", MaskText(v))]
    ensures forall v: seq<bool> :: v != AllLayers ==>
      DisplayOptional(DisplayDefaults().(shadowMask := v), fmt) == [Attribute("Shadow Mask", MaskText(v))]
    ensures forall v: seq<bool> :: v != AllLayers ==>
      DisplayOptional(DisplayDefaults().(zoneMask := v), fmt) == [Attribute("Zone Mask", MaskText(v))]
    ensures forall v: int :: v != -1 ==>
      DisplayOptional(DisplayDefaults().(occlusionLodLevel := v), fmt) == [Attribute("Occlusion LOD Level", IntString(v))]
  {
  }

  /** Changing any single trailing shape setting from its reset value adds exactly that attribute. */
  lemma ShapeSingleChange(fmt: Formatter)
    requires Renders(fmt)
    ensures ShapeOptional(ShapeDefaults(), fmt) == []
    ensures forall v: Vec3 :: fmt.vector(v) != "0 0 0" ==>
      ShapeOptional(ShapeDefaults().(offsetRotation := v), fmt) == [Attribute("Offset Rotation", fmt.vector(v))]
    ensures forall v: int :: v != 0 ==>
      ShapeOptional(ShapeDefaults().(lodLevel := v), fmt) == [Attribute("LOD Level", IntString(v))]
    ensures forall v: real :: fmt.float(v) != "0.04" ==>
      ShapeOptional(ShapeDefaults().(collisionMargin := v), fmt) == [Attribute("Collision Margin", fmt.float(v))]
    ensures forall v: int :: v != 0 ==>
      ShapeOptional(ShapeDefaults().(customGeometryNodeId := v), fmt) == [Attribute("CustomGeometry NodeID", IntString(v))]
  {
  }

  /**
   * The Position, Rotation and Scale texts of an object's node, as the exporter formats them
   * from the object's matrix, the export orientation and the export scale.
   */
  datatype Transform = Transform(position: string, rotation: string, scale: string)

  /** Everything `UrhoExportPrefabs` reads from one Blender object. */
  datatype ObjectSettings = ObjectSettings(
    transform: Transform,
    activatePhysics: bool,
    body: BodySettings,
    shape: ShapeSettings,
    createSubnode: bool,
    subnodeRotation: Vec3,
    createNavigable: bool,
    display: DisplaySettings)
}
