/**
 * The uniform type system: scalar, vector and matrix types with their component sizes and
 * counts, alignments, sizes and hashes (UniformType, ScalarType, VectorType, MatrixType).
 *
 * Default values are Java objects; they are modelled by `JavaObject`, which keeps only what the
 * modelled code looks at: whether the object is a java.lang.Number, and if so its longValue().
 */
module UniformTypes {
  import opened JavaLang
  import HashUtils
  import MemoryUtils

  /** A Java object as far as the uniform code inspects it. */
  datatype JavaObject =
    | Number(longValue: Int64)                       // Integer, Long, Float, Double, ...
    | Vector2f                                        // new Vector2f()
    | IdentityMatrix(side: nat, doublePrecision: bool) // new Matrix{2,3,4}{f,d}().identity()
    | OtherObject(id: nat)

  /** The capability queries of the running GL context. */
  datatype GlCapabilities = GlCapabilities(supportsLongShaderType: bool, supportsDoubleShaderType: bool)

  datatype ScalarType = INT | LONG | FLOAT | DOUBLE

  datatype VectorType = VEC2 | VEC3 | VEC4 | DVEC2 | DVEC3 | DVEC4 | IVEC2 | IVEC3 | IVEC4

  datatype MatrixType = MAT2 | MAT3 | MAT4 | DMAT2 | DMAT3 | DMAT4

  datatype UniformType = Scalar(scalar: ScalarType) | Vector(vector: VectorType) | Matrix(matrix: MatrixType)

  // ---------------------------------------------------------------------------------------------
  // The enum tables

  /** Enum.name() of a scalar type. */
  function ScalarName(s: ScalarType): string
  {
    match s
    case INT => "INT"
    case LONG => "LONG"
    case FLOAT => "FLOAT"
    case DOUBLE => "DOUBLE"
  }

  /** Integer.BYTES, Long.BYTES, Float.BYTES, Double.BYTES. */
  function ScalarSize(s: ScalarType): Int32
  {
    match s
    case INT => 4
    case LONG => 8
    case FLOAT => 4
    case DOUBLE => 8
  }

  function ScalarDefault(s: ScalarType): JavaObject
  {
    match s
    case INT => Number(0)
    case LONG => Number(0)
    case FLOAT => Number(0)
    case DOUBLE => Number(0)
  }

  function VectorComponentType(v: VectorType): ScalarType
  {
    match v
    case VEC2 => FLOAT
    case VEC3 => FLOAT
    case VEC4 => FLOAT
    case DVEC2 => DOUBLE
    case DVEC3 => DOUBLE
    case DVEC4 => DOUBLE
    case IVEC2 => INT
    case IVEC3 => INT
    case IVEC4 => INT
  }

  function VectorCount(v: VectorType): Int32
  {
    match v
    case VEC2 => 2
    case VEC3 => 3
    case VEC4 => 4
    case DVEC2 => 2
    case DVEC3 => 3
    case DVEC4 => 4
    case IVEC2 => 2
    case IVEC3 => 3
    case IVEC4 => 4
  }

  function MatrixComponentType(m: MatrixType): ScalarType
  {
    match m
    case MAT2 => FLOAT
    case MAT3 => FLOAT
    case MAT4 => FLOAT
    case DMAT2 => DOUBLE
    case DMAT3 => DOUBLE
    case DMAT4 => DOUBLE
  }

  /** The side length of a square matrix type. */
  function MatrixSide(m: MatrixType): Int32
  {
    match m
    case MAT2 => 2
    case MAT3 => 3
    case MAT4 => 4
    case DMAT2 => 2
    case DMAT3 => 3
    case DMAT4 => 4
  }

  /** The table rows: every vector type is named after its component type and count. */
  lemma VectorTable(v: VectorType)
    ensures 2 <= VectorCount(v) <= 4
    ensures VectorComponentType(v) == FLOAT <==> v in {VEC2, VEC3, VEC4}
    ensures VectorComponentType(v) == DOUBLE <==> v in {DVEC2, DVEC3, DVEC4}
    ensures VectorComponentType(v) == INT <==> v in {IVEC2, IVEC3, IVEC4}
    ensures VectorCount(v) == 2 <==> v in {VEC2, DVEC2, IVEC2}
    ensures VectorCount(v) == 3 <==> v in {VEC3, DVEC3, IVEC3}
  {
  }

  /** A vector type is determined by its component type and count. */
  lemma VectorTypeDetermined(v1: VectorType, v2: VectorType)
    requires VectorComponentType(v1) == VectorComponentType(v2) && VectorCount(v1) == VectorCount(v2)
    ensures v1 == v2
  {
  }

  /** A matrix type is determined by its component type and side. */
  lemma MatrixTypeDetermined(m1: MatrixType, m2: MatrixType)
    requires MatrixComponentType(m1) == MatrixComponentType(m2) && MatrixSide(m1) == MatrixSide(m2)
    ensures m1 == m2
  {
  }

  // ---------------------------------------------------------------------------------------------
  // UniformType's operations

  /** getComponentSize: the scalar's byte size; vectors and matrices delegate to their scalar. */
  function ComponentSize(t: UniformType): (r: Int32)
    ensures r == ScalarSize(ComponentType(t))
  {
    match t
    case Scalar(s) => ScalarSize(s)
    case Vector(v) => ScalarSize(VectorComponentType(v))
    case Matrix(m) => ScalarSize(MatrixComponentType(m))
  }

  /** The scalar type a uniform type is made of. */
  function ComponentType(t: UniformType): ScalarType
  {
    match t
    case Scalar(s) => s
    case Vector(v) => VectorComponentType(v)
    case Matrix(m) => MatrixComponentType(m)
  }

  /** getComponentCount: 1 for scalars, the count for vectors, side * side for matrices. */
  function ComponentCount(t: UniformType): Int32
  {
    match t
    case Scalar(_) => 1
    case Vector(v) => VectorCount(v)
    case Matrix(m) => MatrixSide(m) * MatrixSide(m)
  }

  /**
   * getAlignment: the component size by default (scalars, matrices); vectors of three
   * components align at twice the component size, other vectors at their full size.
   */
  function Alignment(t: UniformType): Int32
  {
    match t
    case Scalar(_) => ComponentSize(t)
    case Matrix(_) => ComponentSize(t)
    case Vector(v) =>
      if VectorCount(v) == 3 then ScalarSize(VectorComponentType(v)) * 2
      else ScalarSize(VectorComponentType(v)) * VectorCount(v)
  }

  /** getSize = getComponentSize * getComponentCount. */
  function Size(t: UniformType): Int32
  {
    ComponentSize(t) * ComponentCount(t)
  }

  /** getAlignedSize = align(getSize, getAlignment). */
  function AlignedSize(t: UniformType): Int32
  {
    MemoryUtils.Align(Size(t), Alignment(t))
  }

  /** getDefaultValue. */
  function DefaultValue(t: UniformType): JavaObject
  {
    match t
    case Scalar(s) => ScalarDefault(s)
    case Vector(_) => Vector2f
    case Matrix(m) => IdentityMatrix(MatrixSide(m) as nat, MatrixComponentType(m) == DOUBLE)
  }

  /** isSupported: INT and FLOAT always; LONG and DOUBLE (and what is built from them) per capability. */
  predicate IsSupported(t: UniformType, caps: GlCapabilities)
  {
    match ComponentType(t)
    case LONG => caps.supportsLongShaderType
    case DOUBLE => caps.supportsDoubleShaderType
    case _ => true
  }

  /**
   * getHash: the hash of the constant's name for scalars; combine(scalar getHash, count) for
   * vectors; combine(scalar hashCode, component count) for matrices, where the scalar's
   * hashCode is the identity hash of the enum constant (`identityHash`).
   */
  function Hash(t: UniformType, identityHash: ScalarType -> Int32): Int32
  {
    match t
    case Scalar(s) => StringHash(ScalarName(s))
    case Vector(v) => HashUtils.Combine(StringHash(ScalarName(VectorComponentType(v))), VectorCount(v))
    case Matrix(m) => HashUtils.Combine(identityHash(MatrixComponentType(m)), ComponentCount(t))
  }

  /** The arguments create(name) hands to the type's uniform factory. */
  datatype FactoryCall = FactoryCall(utype: UniformType, name: string, defaultValue: JavaObject)

  /** create(name) = create(name, getDefaultValue()). */
  function Create(t: UniformType, name: string): (call: FactoryCall)
    ensures call.utype == t && call.name == name
    ensures call.defaultValue == DefaultValue(t)
  {
    FactoryCall(t, name, DefaultValue(t))
  }

  // ---------------------------------------------------------------------------------------------
  // Properties

  /** The layout of every uniform type, as the tables and the alignment rule give it. */
  lemma LayoutTable(t: UniformType)
    ensures Size(t) == ComponentSize(t) * ComponentCount(t)
    ensures t.Scalar? ==> ComponentCount(t) == 1 && Alignment(t) == ComponentSize(t)
    ensures t.Matrix? ==> Alignment(t) == ComponentSize(t)
    ensures t.Vector? && ComponentCount(t) == 3 ==> Alignment(t) == 2 * ComponentSize(t)
    ensures t.Vector? && ComponentCount(t) != 3 ==> Alignment(t) == Size(t)
    ensures ComponentSize(t) == (if ComponentType(t) in {LONG, DOUBLE} then 8 else 4)
  {
  }

  /** Every alignment is a power of two between 4 and 32. */
  lemma AlignmentIsPowerOfTwo(t: UniformType) returns (k: nat)
    ensures 2 <= k <= 5 && Alignment(t) == Pow2(k)
  {
    assert Pow2(2) == 4 && Pow2(3) == 8 && Pow2(4) == 16 && Pow2(5) == 32;
    var a := Alignment(t);
    if a == 4 { k := 2; }
    else if a == 8 { k := 3; }
    else if a == 16 { k := 4; }
    else { k := 5; }
  }

  /**
   * The aligned size is the size rounded up to the alignment: a multiple of the alignment, no
   * smaller than the size and less than one alignment above it.
   */
  lemma AlignedSizeRoundsUp(t: UniformType)
    ensures AlignedSize(t) % Alignment(t) == 0
    ensures Size(t) <= AlignedSize(t) < Size(t) + Alignment(t)
  {
    var k := AlignmentIsPowerOfTwo(t);
    assert Size(t) <= 128;
    MemoryUtils.AlignRoundsUp(Size(t), Alignment(t), k);
  }

  /** Vector types over the same scalar type hash differently. */
  lemma VectorHashesDiffer(v1: VectorType, v2: VectorType, identityHash: ScalarType -> Int32)
    requires v1 != v2 && VectorComponentType(v1) == VectorComponentType(v2)
    ensures Hash(Vector(v1), identityHash) != Hash(Vector(v2), identityHash)
  {
    var h := StringHash(ScalarName(VectorComponentType(v1)));
    if HashUtils.Combine(h, VectorCount(v1)) == HashUtils.Combine(h, VectorCount(v2)) {
      HashUtils.CombineInjectiveRight(h, VectorCount(v1), VectorCount(v2));
      VectorTypeDetermined(v1, v2);
    }
  }

  /** Matrix types over the same scalar type hash differently. */
  lemma MatrixHashesDiffer(m1: MatrixType, m2: MatrixType, identityHash: ScalarType -> Int32)
    requires m1 != m2 && MatrixComponentType(m1) == MatrixComponentType(m2)
    ensures Hash(Matrix(m1), identityHash) != Hash(Matrix(m2), identityHash)
  {
    var h := identityHash(MatrixComponentType(m1));
    var c1, c2 := ComponentCount(Matrix(m1)), ComponentCount(Matrix(m2));
    if HashUtils.Combine(h, c1) == HashUtils.Combine(h, c2) {
      HashUtils.CombineInjectiveRight(h, c1, c2);
      MatrixTypeDetermined(m1, m2);
    }
  }

  /** The four scalar names hash to four different values. */
  lemma ScalarHashesDiffer(s1: ScalarType, s2: ScalarType)
    requires s1 != s2
    ensures StringHash(ScalarName(s1)) != StringHash(ScalarName(s2))
  {
    ScalarHashValues();
  }

  lemma ScalarHashValues()
    ensures StringHash("INT") == 72655
    ensures StringHash("LONG") == 2342524
    ensures StringHash("FLOAT") == 66988604
    ensures StringHash("DOUBLE") == 2022338513
  {
    HashOfInt();
    HashOfLong();
    HashOfFloat();
    HashOfDouble();
  }

  lemma HashOfInt()
    ensures StringHash("INT") == 72655
  {
    assert StringHash("I") == 73;
    assert "IN"[..1] == "I";
    assert StringHash("IN") == 2341;
    assert "INT"[..2] == "IN";
  }

  lemma HashOfLong()
    ensures StringHash("LONG") == 2342524
  {
    assert StringHash("L") == 76;
    assert "LO"[..1] == "L";
    assert StringHash("LO") == 2435;
    assert "LON"[..2] == "LO";
    assert StringHash("LON") == 75563;
    assert "LONG"[..3] == "LON";
  }

  lemma HashOfFloat()
    ensures StringHash("FLOAT") == 66988604
  {
    assert StringHash("F") == 70;
    assert "FL"[..1] == "F";
    assert StringHash("FL") == 2246;
    assert "FLO"[..2] == "FL";
    assert StringHash("FLO") == 69705;
    assert "FLOA"[..3] == "FLO";
    assert StringHash("FLOA") == 2160920;
    assert "FLOAT"[..4] == "FLOA";
  }

  lemma HashOfDouble()
    ensures StringHash("DOUBLE") == 2022338513
  {
    assert StringHash("D") == 68;
    assert "DO"[..1] == "D";
    assert StringHash("DO") == 2187;
    assert "DOU"[..2] == "DO";
    assert StringHash("DOU") == 67882;
    assert "DOUB"[..3] == "DOU";
    assert StringHash("DOUB") == 2104408;
    assert "DOUBL"[..4] == "DOUB";
    assert StringHash("DOUBL") == 65236724;
    assert "DOUBLE"[..5] == "DOUBL";
  }

  /** Vector and matrix types are supported exactly when their component type is. */
  lemma SupportFollowsComponent(t: UniformType, caps: GlCapabilities)
    ensures IsSupported(t, caps) == IsSupported(Scalar(ComponentType(t)), caps)
    ensures ComponentType(t) in {INT, FLOAT} ==> IsSupported(t, caps)
  {
  }
}
