/**
 * The vertex-count bookkeeping of the shape morph: resizing a vertex buffer cyclically to
 * a target length, the setup that pairs a start and an end buffer of equal length, and the
 * per-frame blend whose `i % Length` indexing that setup keeps in bounds.
 */
module ShapeMesh {
  import opened Geometry
  import opened Wrappers

  /**
   * The buffer NormalizeVertexCount produces: zeros for an empty source, the source itself
   * when it already has the target length, and otherwise the source repeated cyclically.
   */
  function Normalized(source: seq<Vector3>, n: nat): seq<Vector3> {
    if |source| == 0 then seq(n, _ => Zero)
    else if |source| == n then source
    else seq(n, i requires 0 <= i < n => source[i % |source|])
  }

  /** Resizes a vertex buffer; a null or empty source gives a fresh zero-filled buffer. */
  method NormalizeVertexCount(source: array?<Vector3>, targetLength: int) returns (adjusted: array<Vector3>)
    requires targetLength >= 0
    ensures adjusted.Length == targetLength
    ensures adjusted[..] == Normalized(if source == null then [] else source[..], targetLength)
    ensures source != null && 0 < source.Length == targetLength ==> adjusted == source
    ensures adjusted != source ==> fresh(adjusted)
  {
    if source == null || source.Length == 0 {
      adjusted := new Vector3[targetLength](_ => Zero);
      return;
    }
    if source.Length == targetLength {
      return source;
    }
    adjusted := new Vector3[targetLength](_ => Zero);
    var i := 0;
    while i < targetLength
      invariant 0 <= i <= targetLength
      invariant forall k | 0 <= k < i :: adjusted[k] == source[k % source.Length]
    {
      adjusted[i] := source[i % source.Length];
      i := i + 1;
    }
  }

  /** For a non-empty source every slot i holds source[i % |source|], the identity branch included. */
  lemma NormalizedCyclic(source: seq<Vector3>, n: nat)
    requires |source| > 0
    ensures |Normalized(source, n)| == n
    ensures forall i | 0 <= i < n :: Normalized(source, n)[i] == source[i % |source|]
  {
    if |source| == n {
      forall i | 0 <= i < n
        ensures source[i] == source[i % |source|]
      {
        ModBelow(i, n);
      }
    }
  }

  lemma ModBelow(i: nat, n: nat)
    requires i < n
    ensures i % n == i
  {
  }

  /** Every vertex of a resized non-empty buffer is one of the source's vertices. */
  lemma NormalizedFromSource(source: seq<Vector3>, n: nat)
    requires |source| > 0
    ensures forall v | v in Normalized(source, n) :: v in source
  {
    NormalizedCyclic(source, n);
    forall v | v in Normalized(source, n)
      ensures v in source
    {
      var i :| 0 <= i < n && Normalized(source, n)[i] == v;
      assert source[i % |source|] == v;
    }
  }

  /** Resizing to the same length twice changes nothing the second time. */
  lemma NormalizedIdempotent(source: seq<Vector3>, n: nat)
    ensures Normalized(Normalized(source, n), n) == Normalized(source, n)
  {
    assert |Normalized(source, n)| == n;
  }

  /** An empty source gives n zero vertices. */
  lemma NormalizedEmpty(n: nat)
    ensures |Normalized([], n)| == n
    ensures forall v | v in Normalized([], n) :: v == Zero
  {
  }

  /** The two buffers a morph blends between. */
  datatype Morph = Morph(start: array<Vector3>, end: array<Vector3>)

  /**
   * The setup of the morph routine: stop when the target has no vertices; otherwise take the
   * current vertices (or a zero buffer of the target's length when there are none), resize
   * them to the target's length, then resize the target to that length, which returns the
   * target buffer itself.
   */
  method PrepareMorph(currentVerts: array<Vector3>, endVerts: array?<Vector3>) returns (result: Option<Morph>)
    ensures result.None? <==> endVerts == null || endVerts.Length == 0
    ensures result.Some? ==> endVerts != null && result.value.end == endVerts
    ensures result.Some? ==> result.value.start.Length == result.value.end.Length > 0
    ensures result.Some? ==> result.value.start[..] == Normalized(currentVerts[..], endVerts.Length)
  {
    if endVerts == null || endVerts.Length == 0 {
      return None;
    }
    var startVerts: array<Vector3>;
    if currentVerts.Length > 0 {
      startVerts := currentVerts;
    } else {
      startVerts := new Vector3[endVerts.Length](_ => Zero);
    }
    var normStartVerts := NormalizeVertexCount(startVerts, endVerts.Length);
    var normEndVerts := NormalizeVertexCount(endVerts, normStartVerts.Length);
    return Some(Morph(normStartVerts, normEndVerts));
  }

  /**
   * One frame of the morph: slot i blends start[i % start.Length] with end[i % end.Length].
   * When the two buffers have the same length, as PrepareMorph guarantees, slot i blends
   * start[i] with end[i].
   */
  method BlendFrame(normStart: array<Vector3>, normEnd: array<Vector3>, blend: (Vector3, Vector3) -> Vector3)
    returns (result: array<Vector3>)
    requires normEnd.Length > 0 ==> normStart.Length > 0
    ensures result.Length == normEnd.Length
    ensures forall i | 0 <= i < result.Length ::
      result[i] == blend(normStart[i % normStart.Length], normEnd[i % normEnd.Length])
    ensures normStart.Length == normEnd.Length ==>
      forall i | 0 <= i < result.Length :: result[i] == blend(normStart[i], normEnd[i])
  {
    result := new Vector3[normEnd.Length](_ => Zero);
    var i := 0;
    while i < result.Length
      invariant 0 <= i <= result.Length
      invariant forall k | 0 <= k < i ::
        result[k] == blend(normStart[k % normStart.Length], normEnd[k % normEnd.Length])
    {
      result[i] := blend(normStart[i % normStart.Length], normEnd[i % normEnd.Length]);
      i := i + 1;
    }
    if normStart.Length == normEnd.Length {
      forall k | 0 <= k < result.Length
        ensures k % normEnd.Length == k
      {
        ModBelow(k, normEnd.Length);
      }
    }
  }
}
