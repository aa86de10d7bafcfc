/** Range mappers and the regions that a task needs of a buffer. */
module RangeMappers {
  import opened Grid

  const SIZE_MAX: nat := 0xFFFF_FFFF_FFFF_FFFF

  /** Three coordinates. Ids of fewer dimensions are filled with 0, ranges with 1. */
  datatype Vec = Vec(x: nat, y: nat, z: nat)

  datatype Subrange = Subrange(offset: Vec, range: Vec)

  datatype KernelChunk = KernelChunk(offset: Vec, range: Vec, globalSize: Vec)

  datatype Mapper =
    | OneToOne
    | Fixed(sr: Subrange)
    | Slice(dim: nat)
    | All
    | Neighborhood(dim0: nat, dim1: nat, dim2: nat)

  /** A range mapper of a buffer with `dims` dimensions. */
  datatype RangeMapper = RangeMapper(mapper: Mapper, mode: Mode, dims: nat, bufferSize: Vec)

  function Min(a: nat, b: nat): nat {
    if a < b then a else b
  }

  function Apply(m: Mapper, dims: nat, c: KernelChunk): Subrange {
    match m
    case OneToOne => Subrange(c.offset, c.range)
    case Fixed(sr) => sr
    case Slice(dim) =>
      Subrange(Vec(if dim == 0 then 0 else c.offset.x, if dim == 1 then 0 else c.offset.y, if dim == 2 then 0
                   else c.offset.z),
               Vec(if dim == 0 then SIZE_MAX else c.range.x, if dim == 1 then SIZE_MAX else c.range.y, if dim == 2
                   then SIZE_MAX else c.range.z))
    case All =>
      Subrange(Vec(0, 0, 0), Vec(SIZE_MAX, if dims > 1 then SIZE_MAX else 1, if dims > 2 then SIZE_MAX else 1))
    case Neighborhood(dim0, dim1, dim2) =>
      var delta := Vec(Min(dim0, c.offset.x), Min(dim1, c.offset.y), Min(dim2, c.offset.z));
      var full := Subrange(Vec(c.offset.x - delta.x, c.offset.y - delta.y, c.offset.z - delta.z),
                           Vec(c.range.x + dim0 + delta.x, c.range.y + dim1 + delta.y, c.range.z + dim2 + delta.z));
      Subrange(Vec(full.offset.x, if dims > 1 then full.offset.y else 0, if dims > 2 then full.offset.z else 0),
               Vec(full.range.x, if dims > 1 then full.range.y else 1, if dims > 2 then full.range.z else 1))
  }

  function ClampLength(offset: nat, length: nat, size: nat): nat {
    if offset + length > size then (if offset <= size then size - offset else 0) else length
  }

  /** Cuts the subrange off at the end of the buffer, in the dimensions that the buffer has. */
  function Clamp(sr: Subrange, dims: nat, size: Vec): Subrange {
    Subrange(sr.offset, Vec(if dims > 0 then ClampLength(sr.offset.x, sr.range.x, size.x) else sr.range.x,
                            if dims > 1 then ClampLength(sr.offset.y, sr.range.y, size.y) else sr.range.y,
                            if dims > 2 then ClampLength(sr.offset.z, sr.range.z, size.z) else sr.range.z))
  }

  function Mapped(rm: RangeMapper, c: KernelChunk): Subrange {
    Clamp(Apply(rm.mapper, rm.dims, c), rm.dims, rm.bufferSize)
  }

  predicate In(offset: nat, length: nat, i: nat) {
    offset <= i < offset + length
  }

  predicate Inside(sr: Subrange, p: Point) {
    In(sr.offset.x, sr.range.x, p.x) && In(sr.offset.y, sr.range.y, p.y) && In(sr.offset.z, sr.range.z, p.z)
  }

  function RegionOf(sr: Subrange): (r: Region)
    ensures forall p :: p in r <==> Inside(sr, p)
  {
    set x, y, z | sr.offset.x <= x < sr.offset.x + sr.range.x && sr.offset.y <= y < sr.offset.y + sr.range.y
                  && sr.offset.z <= z < sr.offset.z + sr.range.z :: Point(x, y, z)
  }

  // -------------------------------------------------------------------- meaning

  /** The chunk has the index. */
  ghost predicate HasIndex(c: KernelChunk, q: Point) {
    Inside(Subrange(c.offset, c.range), q)
  }

  ghost predicate NonEmpty(c: KernelChunk) {
    c.range.x > 0 && c.range.y > 0 && c.range.z > 0
  }

  ghost predicate Within(a: nat, b: nat, distance: nat) {
    a <= b + distance && b <= a + distance
  }

  /** What a mapper is for: the points that the indices of a chunk may access. */
  ghost predicate Means(m: Mapper, dims: nat, c: KernelChunk, p: Point) {
    match m
    case OneToOne => HasIndex(c, p)
    case Fixed(sr) => Inside(sr, p)
    case Slice(dim) => exists q :: HasIndex(c, q) && SameSlice(dim, p, q)
    case All => (dims < 2 ==> p.y == 0) && (dims < 3 ==> p.z == 0)
    case Neighborhood(d0, d1, d2) => exists q :: HasIndex(c, q) && Neighbours(dims, d0, d1, d2, p, q)
  }

  /** The points agree in all dimensions but one. */
  ghost predicate SameSlice(dim: nat, p: Point, q: Point) {
    (dim != 0 ==> p.x == q.x) && (dim != 1 ==> p.y == q.y) && (dim != 2 ==> p.z == q.z)
  }

  /** The points are that close in the dimensions of the buffer. */
  ghost predicate Neighbours(dims: nat, d0: nat, d1: nat, d2: nat, p: Point, q: Point) {
    && Within(p.x, q.x, d0)
    && (if dims > 1 then Within(p.y, q.y, d1) else p.y == 0)
    && (if dims > 2 then Within(p.z, q.z, d2) else p.z == 0)
  }

  ghost predicate MapperOk(rm: RangeMapper) {
    && 1 <= rm.dims <= 3 && (rm.mapper.Slice? ==> rm.mapper.dim < rm.dims)
    && rm.bufferSize.x <= SIZE_MAX && rm.bufferSize.y <= SIZE_MAX && rm.bufferSize.z <= SIZE_MAX
  }

  ghost predicate InBuffer(rm: RangeMapper, p: Point) {
    && (rm.dims > 0 ==> p.x < rm.bufferSize.x)
    && (rm.dims > 1 ==> p.y < rm.bufferSize.y)
    && (rm.dims > 2 ==> p.z < rm.bufferSize.z)
  }

  /** A mapped point is one of the unclamped subrange that lies inside the buffer. */
  lemma MappedIs(rm: RangeMapper, c: KernelChunk, p: Point)
    ensures Inside(Mapped(rm, c), p) <==> Inside(Apply(rm.mapper, rm.dims, c), p) && InBuffer(rm, p)
  {
    var sr := Apply(rm.mapper, rm.dims, c);
    hide Apply;
    ClampedIn(sr.offset.x, sr.range.x, rm.bufferSize.x, p.x);
    ClampedIn(sr.offset.y, sr.range.y, rm.bufferSize.y, p.y);
    ClampedIn(sr.offset.z, sr.range.z, rm.bufferSize.z, p.z);
  }

  /** Some index of an interval is that close exactly if the widened interval has the number. */
  lemma NearSome(offset: nat, length: nat, distance: nat, i: nat) returns (q: nat)
    requires length > 0
    ensures In(offset, length, q)
    ensures Within(i, q, distance) <==> offset <= i + distance && i < offset + length + distance
    ensures forall r: nat :: In(offset, length, r) && Within(i, r, distance) ==> Within(i, q, distance)
  {
    q := if i < offset then offset else if i >= offset + length then offset + length - 1 else i;
  }

  lemma NeighborhoodMeans(dims: nat, d0: nat, d1: nat, d2: nat, c: KernelChunk, p: Point)
    requires NonEmpty(c) && 1 <= dims <= 3
    ensures Inside(Apply(Neighborhood(d0, d1, d2), dims, c), p) <==> Means(Neighborhood(d0, d1, d2), dims, c, p)
  {
    var x := NearSome(c.offset.x, c.range.x, d0, p.x);
    var y := NearSome(c.offset.y, c.range.y, d1, p.y);
    var z := NearSome(c.offset.z, c.range.z, d2, p.z);
    var q := Point(x, y, z);
    assert HasIndex(c, q);
    assert Neighbours(dims, d0, d1, d2, p, q) <==> Inside(Apply(Neighborhood(d0, d1, d2), dims, c), p);
    if r :| HasIndex(c, r) && Neighbours(dims, d0, d1, d2, p, r) { assert Neighbours(dims, d0, d1, d2, p, q); }
  }

  lemma SliceMeans(dim: nat, dims: nat, c: KernelChunk, p: Point)
    requires NonEmpty(c) && dim < 3
    requires (dim == 0 ==> p.x < SIZE_MAX) && (dim == 1 ==> p.y < SIZE_MAX) && (dim == 2 ==> p.z < SIZE_MAX)
    ensures Inside(Apply(Slice(dim), dims, c), p) <==> Means(Slice(dim), dims, c, p)
  {
    var q := Point(if dim == 0 then c.offset.x else p.x, if dim == 1 then c.offset.y else p.y,
                   if dim == 2 then c.offset.z else p.z);
    if Inside(Apply(Slice(dim), dims, c), p) { assert HasIndex(c, q) && SameSlice(dim, p, q); }
  }

  /** Inside the buffer, a mapper gives a non-empty chunk exactly the points that it is meant to give. */
  lemma MapperMeaning(rm: RangeMapper, c: KernelChunk, p: Point)
    requires MapperOk(rm) && NonEmpty(c)
    ensures Inside(Mapped(rm, c), p) <==> InBuffer(rm, p) && Means(rm.mapper, rm.dims, c, p)
  {
    hide Mapped;
    MappedIs(rm, c, p);
    if InBuffer(rm, p) {
      match rm.mapper
      case OneToOne =>
      case Fixed(_) =>
      case All =>
      case Slice(dim) => SliceMeans(dim, rm.dims, c, p);
      case Neighborhood(d0, d1, d2) => NeighborhoodMeans(rm.dims, d0, d1, d2, c, p);
    }
  }

  /** An empty chunk still requires a neighborhood, although it has no index that could access it. */
  lemma EmptyChunkNeeds()
    ensures var rm := RangeMapper(Neighborhood(1, 0, 0), Read, 1, Vec(8, 1, 1));
            var c := KernelChunk(Vec(4, 0, 0), Vec(0, 1, 1), Vec(8, 1, 1));
            Inside(Mapped(rm, c), Point(3, 0, 0)) && !Means(rm.mapper, rm.dims, c, Point(3, 0, 0))
  {
  }

  ghost predicate IsEmpty(sr: Subrange) {
    sr.range.x == 0 || sr.range.y == 0 || sr.range.z == 0
  }

  /** A mapper gives what it is meant to unless it makes up a region around or across the indices of an empty chunk. */
  lemma MeaningExact(rm: RangeMapper, c: KernelChunk)
    requires MapperOk(rm)
    ensures (forall p :: Inside(Mapped(rm, c), p) <==> InBuffer(rm, p) && Means(rm.mapper, rm.dims, c, p)) <==>
            NonEmpty(c) || rm.mapper.OneToOne? || rm.mapper.Fixed? || rm.mapper.All? || IsEmpty(Mapped(rm, c))
  {
    hide Mapped;
    forall p
      ensures NonEmpty(c) || rm.mapper.OneToOne? || rm.mapper.Fixed? || rm.mapper.All? || IsEmpty(Mapped(rm, c)) ==>
                (Inside(Mapped(rm, c), p) <==> InBuffer(rm, p) && Means(rm.mapper, rm.dims, c, p))
    {
      MappedIs(rm, c, p);
      if NonEmpty(c) { MapperMeaning(rm, c, p); }
    }
    if !IsEmpty(Mapped(rm, c)) {
      var offset := Mapped(rm, c).offset;
      assert Inside(Mapped(rm, c), Point(offset.x, offset.y, offset.z));
    }
  }

  /** Some mapper of the mode is meant to give the chunk this point of its buffer. */
  ghost predicate MeantToRequire(mappers: seq<RangeMapper>, mode: Mode, c: KernelChunk, p: Point) {
    exists j :: 0 <= j < |mappers| && mappers[j].mode == mode && InBuffer(mappers[j], p)
                && Means(mappers[j].mapper, mappers[j].dims, c, p)
  }

  lemma RequiresMeaning(mappers: seq<RangeMapper>, mode: Mode, c: KernelChunk, p: Point)
    requires NonEmpty(c) && forall j :: 0 <= j < |mappers| ==> MapperOk(mappers[j])
    ensures Requires(mappers, mode, c, p) <==> MeantToRequire(mappers, mode, c, p)
  {
    hide Means, Mapped, Inside, InBuffer;
    forall j | 0 <= j < |mappers|
      ensures Inside(Mapped(mappers[j], c), p) <==>
                InBuffer(mappers[j], p) && Means(mappers[j].mapper, mappers[j].dims, c, p)
    {
      MapperMeaning(mappers[j], c, p);
    }
  }

  // --------------------------------------------------------------- requirements

  /** What the mappers of one mode require for a chunk. */
  method GetRequirements(mappers: seq<RangeMapper>, mode: Mode, c: KernelChunk) returns (r: Region)
    ensures forall p :: p in r <==> Requires(mappers, mode, c, p)
    ensures NonEmpty(c) && (forall j :: 0 <= j < |mappers| ==> MapperOk(mappers[j])) ==>
              forall p :: p in r <==> MeantToRequire(mappers, mode, c, p)
  {
    r := {};
    for i := 0 to |mappers|
      invariant forall p :: p in r <==>
                              exists j :: 0 <= j < i && mappers[j].mode == mode && Inside(Mapped(mappers[j], c), p)
    {
      if mappers[i].mode == mode {
        r := r + RegionOf(Mapped(mappers[i], c));
      }
    }
    if NonEmpty(c) && forall j :: 0 <= j < |mappers| ==> MapperOk(mappers[j]) {
      forall p
        ensures p in r <==> MeantToRequire(mappers, mode, c, p)
      {
        RequiresMeaning(mappers, mode, c, p);
      }
    }
  }

  ghost predicate Requires(mappers: seq<RangeMapper>, mode: Mode, c: KernelChunk, p: Point) {
    exists j :: 0 <= j < |mappers| && mappers[j].mode == mode && Inside(Mapped(mappers[j], c), p)
  }

  /** Clamping keeps exactly the indices inside the buffer. */
  lemma ClampedIn(offset: nat, length: nat, size: nat, i: nat)
    ensures In(offset, ClampLength(offset, length, size), i) <==> In(offset, length, i) && i < size
  {
  }
}
