/** The identifier classifier: which path segments are looked up, and as
    what kind of entity. */
module Queries {
  import opened Wrappers
  import opened Text
  import opened Identifiers

  datatype EntityType = Facility | Patient | Encounter

  /** A name to look up: the identifier and the kind of entity it names. */
  datatype Query = Query(id: string, kind: EntityType)

  /** `path.slice(1).split("/")`: the segments after the leading slash. */
  function Segments(path: string): (segs: seq<string>)
    ensures |segs| >= 1
  {
    Split(Tail(path), '/')
  }

  /** The entity kind named by the segment before an identifier; the match
      is exact and case-sensitive. */
  function KeywordType(prev: string): (kind: Option<EntityType>)
    ensures kind == Some(Facility) <==> prev == "facility"
    ensures kind == Some(Patient) <==> prev == "patient"
    ensures kind == Some(Encounter) <==> prev == "encounter"
  {
    if prev == "facility" then Some(Facility)
    else if prev == "patient" then Some(Patient)
    else if prev == "encounter" then Some(Encounter)
    else None
  }

  /** The query for segment `i`, if it has one. Segment 0 has no predecessor
      (`arr[-1]` is `undefined`), so it never has one. */
  function ClassifyAt(segs: seq<string>, i: nat): (q: Option<Query>)
    requires i < |segs|
    ensures q.Some? <==> Qualifies(segs, i)
    ensures q.Some? ==> q.value.id == segs[i] && Some(q.value.kind) == KeywordType(segs[i - 1])
  {
    if i > 0 && IsIdShaped(segs[i]) then
      match KeywordType(segs[i - 1])
      case Some(kind) => Some(Query(segs[i], kind))
      case None => None
    else None
  }

  function Classified(segs: seq<string>): seq<Option<Query>>
  {
    seq(|segs|, i requires 0 <= i < |segs| => ClassifyAt(segs, i))
  }

  /** `idQueries`: the classification of every segment, with the segments
      that have no query filtered out. */
  function IdQueries(path: string): (queries: seq<Query>)
    ensures |queries| <= |Segments(path)|
    ensures forall k :: 0 <= k < |queries| ==> IsIdShaped(queries[k].id)
  {
    Somes(Classified(Segments(path)))
  }

  /** Segment `i` is looked up: it is id-shaped and the segment before it is
      one of the three keywords. */
  ghost predicate Qualifies(segs: seq<string>, i: int)
  {
    0 < i < |segs| && IsIdShaped(segs[i]) && KeywordType(segs[i - 1]).Some?
  }

  /** The segment indices the queries come from, in path order. */
  ghost function QueryPositions(path: string): seq<nat>
  {
    SomePositions(Classified(Segments(path)))
  }

  /** `idQueries` holds one query per qualifying segment, in path order, and
      nothing else: the k-th query comes from the k-th qualifying segment, its
      id is that segment and its kind is named by the segment before it. */
  lemma IdQueriesSpec(path: string)
    ensures |QueryPositions(path)| == |IdQueries(path)|
    ensures StrictlyIncreasing(QueryPositions(path))
    ensures forall k :: 0 <= k < |IdQueries(path)| ==>
              var i := QueryPositions(path)[k];
              && Qualifies(Segments(path), i)
              && IdQueries(path)[k] == Query(Segments(path)[i], KeywordType(Segments(path)[i - 1]).value)
    ensures forall i :: Qualifies(Segments(path), i) ==> i in QueryPositions(path)
  {
    var segs := Segments(path);
    var c := Classified(segs);
    var pos := QueryPositions(path);
    SomesAt(c);
    forall k | 0 <= k < |IdQueries(path)|
      ensures Qualifies(segs, pos[k])
      ensures IdQueries(path)[k] == Query(segs[pos[k]], KeywordType(segs[pos[k] - 1]).value)
    {
      assert c[pos[k]] == ClassifyAt(segs, pos[k]);
    }
    forall i | Qualifies(segs, i)
      ensures i in pos
    {
      assert c[i] == ClassifyAt(segs, i);
    }
  }

  /** Every query id is id-shaped, so it has 36 characters. */
  lemma QueryIds(path: string)
    ensures forall q :: q in IdQueries(path) ==> IsIdShaped(q.id) && |q.id| == 36
  {
    IdQueriesSpec(path);
    forall q | q in IdQueries(path)
      ensures IsIdShaped(q.id) && |q.id| == 36
    {
      var k :| 0 <= k < |IdQueries(path)| && IdQueries(path)[k] == q;
    }
  }
}
