// The adjacency queries on the rows of provenance_edges.
module EdgeQueries {
  import opened Sequences
  import opened Sorting
  import opened Graph

  // Row ids are a primary key.
  ghost predicate Valid(rows: seq<Edge>) {
    forall i, j :: 0 <= i < j < |rows| ==> rows[i].id != rows[j].id
  }

  // The query filters by type only if it is given one that is not empty.
  predicate TypeMatches(ty: Option<string>, e: Edge) {
    if ty.Some? && ty.value != "" then e.edgeType == ty.value else true
  }

  // The edges a query with this type filter can return.
  ghost function Matching(rows: seq<Edge>, ty: Option<string>): set<Edge> {
    set e | e in rows && (ty.None? || ty.value == "" || e.edgeType == ty.value)
  }

  function ByTime(rows: seq<Edge>): seq<Edge> {
    SortDesc(rows, (e: Edge) => e.ts as real)
  }

  function Outgoing(rows: seq<Edge>, n: NodeRef, ty: Option<string>): seq<Edge> {
    ByTime(Filter(rows, (e: Edge) => e.source == n && TypeMatches(ty, e)))
  }

  function Incoming(rows: seq<Edge>, n: NodeRef, ty: Option<string>): seq<Edge> {
    ByTime(Filter(rows, (e: Edge) => e.target == n && TypeMatches(ty, e)))
  }

  // The stored edges that leave n and have the type asked for, each once, newest first.
  lemma OutgoingRows(rows: seq<Edge>, n: NodeRef, ty: Option<string>)
    requires Valid(rows)
    ensures var out := Outgoing(rows, n, ty);
      && NoDup(out)
      && (forall e :: e in out <==> e in rows && e.source == n && (ty.None? || ty.value == "" || e.edgeType == ty.value))
      && (forall i, j :: 0 <= i < j < |out| ==> out[i].ts >= out[j].ts)
  {
    ChosenRows(rows, (e: Edge) => e.source == n && TypeMatches(ty, e));
  }

  // The stored edges that enter n and have the type asked for, each once, newest first.
  lemma IncomingRows(rows: seq<Edge>, n: NodeRef, ty: Option<string>)
    requires Valid(rows)
    ensures var out := Incoming(rows, n, ty);
      && NoDup(out)
      && (forall e :: e in out <==> e in rows && e.target == n && (ty.None? || ty.value == "" || e.edgeType == ty.value))
      && (forall i, j :: 0 <= i < j < |out| ==> out[i].ts >= out[j].ts)
  {
    ChosenRows(rows, (e: Edge) => e.target == n && TypeMatches(ty, e));
  }

  lemma ChosenRows(rows: seq<Edge>, keep: Edge -> bool)
    requires Valid(rows)
    ensures var out := ByTime(Filter(rows, keep));
      && NoDup(out)
      && (forall e :: e in out <==> e in rows && keep(e))
      && (forall i, j :: 0 <= i < j < |out| ==> out[i].ts >= out[j].ts)
  {
    var age := (e: Edge) => e.ts as real;
    FilterNoDup(rows, keep);
    FilterMembers(rows, keep);
    SortNoDup(Filter(rows, keep), age);
    SortMembers(Filter(rows, keep), age);
    SortDescending(Filter(rows, keep), age);
    var out := ByTime(Filter(rows, keep));
    forall i, j | 0 <= i < j < |out| ensures out[i].ts >= out[j].ts {
      assert age(out[i]) >= age(out[j]);
    }
  }

  lemma OutgoingAdjacent(rows: seq<Edge>, n: NodeRef, ty: Option<string>)
    requires Valid(rows)
    ensures NoDup(Outgoing(rows, n, ty))
    ensures forall e :: e in Outgoing(rows, n, ty) <==> e in Matching(rows, ty) && Adjacent(Out, e, n)
    ensures forall e :: e in Outgoing(rows, n, ty) ==> e.source == n && Other(e, n) == e.target
  {
    OutgoingRows(rows, n, ty);
  }

  // The edges a search from n may cross, outgoing ones first.
  function AdjacentRows(rows: seq<Edge>, n: NodeRef, ty: Option<string>, dir: Direction): seq<Edge> {
    (if dir != In then Outgoing(rows, n, ty) else []) + (if dir != Out then Incoming(rows, n, ty) else [])
  }

  lemma AdjacentRowsMembers(rows: seq<Edge>, n: NodeRef, ty: Option<string>, dir: Direction)
    requires Valid(rows)
    ensures forall e :: e in AdjacentRows(rows, n, ty, dir) <==> e in Matching(rows, ty) && Adjacent(dir, e, n)
  {
    OutgoingRows(rows, n, ty);
    IncomingRows(rows, n, ty);
  }
}
