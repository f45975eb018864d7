/**
  Acceptance of a block plan and the parameters of a join: checks in a fixed order, boundaries
  computed once from the segments sorted by index, and the segment and asset offset at a join time.
 */
module BlockPlan {
  import opened Common
  import opened JoinInProgress

  datatype PlanSegment = PlanSegment(index: int, kind: Kind, uri: string, assetOffset: int, duration: int)

  datatype Plan = Plan(startUtc: int, endUtc: int, segments: seq<PlanSegment>)

  datatype Error =
    | InvalidBlockTiming | StaleBlock | InvalidSegmentIndex | SegmentDurationMismatch
    | AssetMissing | InvalidOffset | OffsetExceedsAsset

  datatype Boundary = Boundary(index: int, startCt: int, endCt: int)

  datatype Validation = Accepted(boundaries: seq<Boundary>) | Rejected(error: Error)

  // ---------------------------------------------------------------------------
  // Sorting by index
  // ---------------------------------------------------------------------------

  function Insert(seg: PlanSegment, sorted: seq<PlanSegment>): seq<PlanSegment> {
    if sorted == [] || seg.index <= sorted[0].index then [seg] + sorted
    else [sorted[0]] + Insert(seg, sorted[1..])
  }

  /** The segments in index order. */
  function Sorted(segments: seq<PlanSegment>): seq<PlanSegment> {
    if segments == [] then [] else Insert(segments[0], Sorted(segments[1..]))
  }

  predicate InOrder(segments: seq<PlanSegment>) {
    forall i, j :: 0 <= i < j < |segments| ==> segments[i].index <= segments[j].index
  }

  lemma {:induction false} InsertSorts(seg: PlanSegment, sorted: seq<PlanSegment>)
    requires InOrder(sorted)
    ensures InOrder(Insert(seg, sorted))
    ensures multiset(Insert(seg, sorted)) == multiset(sorted) + multiset{seg}
    ensures |Insert(seg, sorted)| == |sorted| + 1
  {
    if sorted != [] && seg.index > sorted[0].index {
      var rest := Insert(seg, sorted[1..]);
      assert sorted == [sorted[0]] + sorted[1..];
      InsertSorts(seg, sorted[1..]);
      forall j | 0 <= j < |rest|
        ensures sorted[0].index <= rest[j].index
      {
        assert rest[j] in multiset(rest);
      }
      FrontKeepsOrder(sorted[0], rest);
    } else {
      FrontKeepsOrder(seg, sorted);
    }
  }

  lemma FrontKeepsOrder(seg: PlanSegment, sorted: seq<PlanSegment>)
    requires InOrder(sorted) && forall j :: 0 <= j < |sorted| ==> seg.index <= sorted[j].index
    ensures InOrder([seg] + sorted)
  {
  }

  lemma FirstAndRest(segments: seq<PlanSegment>)
    requires segments != []
    ensures multiset(segments) == multiset(segments[1..]) + multiset{segments[0]}
  {
    assert segments == [segments[0]] + segments[1..];
  }

  lemma {:induction false} SortedIsSorted(segments: seq<PlanSegment>)
    ensures InOrder(Sorted(segments)) && multiset(Sorted(segments)) == multiset(segments)
    ensures |Sorted(segments)| == |segments|
  {
    if segments != [] {
      var rest := Sorted(segments[1..]);
      SortedIsSorted(segments[1..]);
      InsertSorts(segments[0], rest);
      FirstAndRest(segments);
      assert Sorted(segments) == Insert(segments[0], rest);
    }
  }

  /** Each position holds the segment of that index. */
  predicate Contiguous(sorted: seq<PlanSegment>) {
    forall i :: 0 <= i < |sorted| ==> sorted[i].index == i
  }

  /** Stated without an order: every index up to the number of segments is there. */
  ghost predicate HasEveryIndex(segments: seq<PlanSegment>) {
    forall k :: 0 <= k < |segments| ==> HasIndex(segments, k)
  }

  ghost predicate HasIndex(segments: seq<PlanSegment>, k: int) {
    exists seg :: seg in segments && seg.index == k
  }

  lemma WithoutOne(sorted: seq<PlanSegment>, p: nat, k: int)
    requires p < |sorted| && HasIndex(sorted, k) && sorted[p].index != k
    ensures HasIndex(sorted[..p] + sorted[p + 1..], k)
  {
    var rest := sorted[..p] + sorted[p + 1..];
    var seg :| seg in sorted && seg.index == k;
    var q :| 0 <= q < |sorted| && sorted[q] == seg;
    assert rest[if q < p then q else q - 1] == seg;
  }

  lemma {:induction false} EveryIndexInOrder(sorted: seq<PlanSegment>)
    requires InOrder(sorted) && HasEveryIndex(sorted)
    ensures Contiguous(sorted)
  {
    var n := |sorted| - 1;
    if n >= 0 {
      assert HasIndex(sorted, n);
      var last :| last in sorted && last.index == n;
      var p :| 0 <= p < |sorted| && sorted[p] == last;
      var rest := sorted[..p] + sorted[p + 1..];
      forall k | 0 <= k < n
        ensures HasIndex(rest, k)
      {
        WithoutOne(sorted, p, k);
      }
      assert p < n ==> sorted[p + 1] == rest[p];
      assert forall i :: 0 <= i < p ==> sorted[i] == rest[i];
      EveryIndexInOrder(rest);
    }
  }

  lemma SortedIsContiguousExactly(segments: seq<PlanSegment>)
    ensures Contiguous(Sorted(segments)) <==> HasEveryIndex(segments)
  {
    var sorted := Sorted(segments);
    SortedIsSorted(segments);
    SameElements(segments, sorted);
    assert forall k :: HasIndex(sorted, k) <==> HasIndex(segments, k);
    if HasEveryIndex(segments) {
      EveryIndexInOrder(sorted);
    }
    if Contiguous(sorted) {
      forall k | 0 <= k < |sorted|
        ensures HasIndex(sorted, k)
      {
        assert sorted[k] in sorted;
      }
    }
  }

  lemma SameElements(a: seq<PlanSegment>, b: seq<PlanSegment>)
    requires multiset(a) == multiset(b)
    ensures forall seg :: seg in a <==> seg in b
  {
    forall seg
      ensures seg in a <==> seg in b
    {
      assert seg in a <==> seg in multiset(a);
      assert seg in b <==> seg in multiset(b);
    }
  }

  // ---------------------------------------------------------------------------
  // Acceptance
  // ---------------------------------------------------------------------------

  function Sum(segments: seq<PlanSegment>): int {
    if segments == [] then 0 else Sum(segments[..|segments| - 1]) + segments[|segments| - 1].duration
  }

  predicate AllPositive(segments: seq<PlanSegment>) {
    forall i :: 0 <= i < |segments| ==> segments[i].duration > 0
  }

  function AssetErrorOf(seg: PlanSegment, assetDuration: string -> int): Option<Error> {
    if seg.kind == Pad then (if seg.uri != "" then Some(InvalidSegmentIndex) else None)
    else if assetDuration(seg.uri) < 0 then Some(AssetMissing)
    else if seg.assetOffset >= assetDuration(seg.uri) then Some(InvalidOffset)
    else None
  }

  /** The error of the first segment, in arrival order, that has one. */
  function AssetError(segments: seq<PlanSegment>, assetDuration: string -> int): Option<Error> {
    if segments == [] then None
    else if AssetErrorOf(segments[0], assetDuration).Some? then AssetErrorOf(segments[0], assetDuration)
    else AssetError(segments[1..], assetDuration)
  }

  lemma {:induction false} NoAssetError(segments: seq<PlanSegment>, assetDuration: string -> int)
    ensures AssetError(segments, assetDuration).None? <==>
            forall seg :: seg in segments ==> AssetErrorOf(seg, assetDuration).None?
  {
    if segments != [] {
      NoAssetError(segments[1..], assetDuration);
      assert segments == [segments[0]] + segments[1..];
    }
  }

  function BoundariesFrom(sorted: seq<PlanSegment>, ct: int): seq<Boundary> {
    if sorted == [] then []
    else
      var end := ct + sorted[0].duration;
      [Boundary(sorted[0].index, ct, end)] + BoundariesFrom(sorted[1..], end)
  }

  /** The first check that fails decides. */
  function Validated(plan: Plan, receipt: int, assetDuration: string -> int): Validation {
    if plan.endUtc <= plan.startUtc then Rejected(InvalidBlockTiming)
    else if plan.endUtc <= receipt then Rejected(StaleBlock)
    else if plan.segments == [] || !Contiguous(Sorted(plan.segments)) then Rejected(InvalidSegmentIndex)
    else if !AllPositive(plan.segments) || Sum(plan.segments) != plan.endUtc - plan.startUtc then
      Rejected(SegmentDurationMismatch)
    else
      match AssetError(plan.segments, assetDuration)
      case Some(error) => Rejected(error)
      case None => Accepted(BoundariesFrom(Sorted(plan.segments), 0))
  }

  /** Pad names no asset; anything else an existing one that is longer than the offset into it. */
  predicate PlayableFrom(seg: PlanSegment, assetDuration: string -> int) {
    if seg.kind == Pad then seg.uri == ""
    else assetDuration(seg.uri) >= 0 && seg.assetOffset < assetDuration(seg.uri)
  }

  /** The first segment, in arrival order, that is not playable decides the error. */
  lemma {:induction false} FirstUnplayableDecides(segments: seq<PlanSegment>, assetDuration: string -> int, i: nat)
    requires i < |segments| && !PlayableFrom(segments[i], assetDuration)
    requires forall j :: 0 <= j < i ==> PlayableFrom(segments[j], assetDuration)
    ensures AssetError(segments, assetDuration) ==
            Some(if segments[i].kind == Pad then InvalidSegmentIndex
                 else if assetDuration(segments[i].uri) < 0 then AssetMissing else InvalidOffset)
  {
    if i > 0 {
      assert PlayableFrom(segments[0], assetDuration);
      FirstUnplayableDecides(segments[1..], assetDuration, i - 1);
    }
  }

  /** What a plan must be, without any order of checks or of segments. */
  ghost predicate Acceptable(plan: Plan, receipt: int, assetDuration: string -> int) {
    && plan.startUtc < plan.endUtc && receipt < plan.endUtc
    && plan.segments != [] && HasEveryIndex(plan.segments)
    && (forall seg :: seg in plan.segments ==> seg.duration > 0 && PlayableFrom(seg, assetDuration))
    && Sum(plan.segments) == plan.endUtc - plan.startUtc
  }

  lemma AcceptedExactly(plan: Plan, receipt: int, assetDuration: string -> int)
    ensures Validated(plan, receipt, assetDuration).Accepted? <==> Acceptable(plan, receipt, assetDuration)
  {
    SortedIsContiguousExactly(plan.segments);
    NoAssetError(plan.segments, assetDuration);
    assert AllPositive(plan.segments) <==> forall seg :: seg in plan.segments ==> seg.duration > 0;
  }

  class BlockPlanValidator {
    const assetDuration: string -> int

    constructor (assetDuration: string -> int)
      ensures this.assetDuration == assetDuration
    {
      this.assetDuration := assetDuration;
    }

    method Validate(plan: Plan, receipt: int) returns (r: Validation)
      ensures r == Validated(plan, receipt, assetDuration)
    {
      if plan.endUtc <= plan.startUtc {
        return Rejected(InvalidBlockTiming);
      }
      if plan.endUtc <= receipt {
        return Rejected(StaleBlock);
      }
      var indicesOk := ValidateSegmentIndices(plan);
      if !indicesOk {
        return Rejected(InvalidSegmentIndex);
      }
      var durationsOk := ValidateDurationSum(plan);
      if !durationsOk {
        return Rejected(SegmentDurationMismatch);
      }
      var error := ValidateAssets(plan);
      if error.Some? {
        return Rejected(error.value);
      }
      var boundaries := ComputeBoundaries(plan);
      return Accepted(boundaries);
    }

    method ValidateSegmentIndices(plan: Plan) returns (ok: bool)
      ensures ok <==> plan.segments != [] && Contiguous(Sorted(plan.segments))
    {
      if plan.segments == [] {
        return false;
      }
      var sorted := Sorted(plan.segments);
      for i := 0 to |sorted|
        invariant forall j :: 0 <= j < i ==> sorted[j].index == j
      {
        if sorted[i].index != i {
          return false;
        }
      }
      return true;
    }

    method ValidateDurationSum(plan: Plan) returns (ok: bool)
      ensures ok <==> AllPositive(plan.segments) && Sum(plan.segments) == plan.endUtc - plan.startUtc
    {
      var sum := 0;
      for i := 0 to |plan.segments|
        invariant AllPositive(plan.segments[..i]) && sum == Sum(plan.segments[..i])
      {
        if plan.segments[i].duration <= 0 {
          return false;
        }
        assert plan.segments[..i + 1][..i] == plan.segments[..i];
        sum := sum + plan.segments[i].duration;
      }
      assert plan.segments[..|plan.segments|] == plan.segments;
      ok := sum == plan.endUtc - plan.startUtc;
    }

    method ValidateAssets(plan: Plan) returns (error: Option<Error>)
      ensures error == AssetError(plan.segments, assetDuration)
    {
      assert plan.segments[0..] == plan.segments;
      for i := 0 to |plan.segments|
        invariant AssetError(plan.segments, assetDuration) == AssetError(plan.segments[i..], assetDuration)
      {
        var seg := plan.segments[i];
        assert plan.segments[i..][1..] == plan.segments[i + 1..];
        if seg.kind == Pad {
          if seg.uri != "" {
            return Some(InvalidSegmentIndex);
          }
          continue;
        }
        var duration := assetDuration(seg.uri);
        if duration < 0 {
          return Some(AssetMissing);
        }
        if seg.assetOffset >= duration {
          return Some(InvalidOffset);
        }
      }
      return None;
    }

    method ComputeBoundaries(plan: Plan) returns (boundaries: seq<Boundary>)
      ensures boundaries == BoundariesFrom(Sorted(plan.segments), 0)
    {
      var sorted := Sorted(plan.segments);
      boundaries := [];
      var ct := 0;
      assert sorted[0..] == sorted;
      for i := 0 to |sorted|
        invariant BoundariesFrom(sorted, 0) == boundaries + BoundariesFrom(sorted[i..], ct)
      {
        var bound := Boundary(sorted[i].index, ct, ct + sorted[i].duration);
        assert sorted[i..][1..] == sorted[i + 1..];
        Regroup(boundaries, [bound], BoundariesFrom(sorted[i + 1..], bound.endCt));
        boundaries := boundaries + [bound];
        ct := bound.endCt;
      }
    }
  }

  // ---------------------------------------------------------------------------
  // The boundaries tile the block
  // ---------------------------------------------------------------------------

  /** Back to back from one content time, each as long as its segment. */
  ghost predicate Tiles(boundaries: seq<Boundary>, sorted: seq<PlanSegment>, from: int) {
    && |boundaries| == |sorted|
    && (forall i :: 0 <= i < |sorted| ==>
          && boundaries[i].index == sorted[i].index
          && boundaries[i].endCt == boundaries[i].startCt + sorted[i].duration)
    && (boundaries != [] ==> boundaries[0].startCt == from)
    && (forall i, j :: 0 <= i < j < |boundaries| && j == i + 1 ==> boundaries[j].startCt == boundaries[i].endCt)
  }

  lemma {:induction false} BoundariesTile(sorted: seq<PlanSegment>, ct: int)
    ensures Tiles(BoundariesFrom(sorted, ct), sorted, ct)
    ensures sorted != [] ==> BoundariesFrom(sorted, ct)[|sorted| - 1].endCt == ct + SumFromFront(sorted)
  {
    if sorted != [] {
      var end := ct + sorted[0].duration;
      BoundariesTile(sorted[1..], end);
      var rest := BoundariesFrom(sorted[1..], end);
      var all := BoundariesFrom(sorted, ct);
      assert all == [Boundary(sorted[0].index, ct, end)] + rest;
      forall i, j | 0 <= i < j < |all| && j == i + 1
        ensures all[j].startCt == all[i].endCt
      {
        if i > 0 {
          assert rest[j - 1].startCt == rest[i - 1].endCt;
        }
      }
    }
  }

  function SumFromFront(segments: seq<PlanSegment>): int {
    if segments == [] then 0 else segments[0].duration + SumFromFront(segments[1..])
  }

  lemma {:induction false} SumOfInsert(seg: PlanSegment, sorted: seq<PlanSegment>)
    ensures SumFromFront(Insert(seg, sorted)) == seg.duration + SumFromFront(sorted)
  {
    if sorted == [] || seg.index <= sorted[0].index {
      assert ([seg] + sorted)[1..] == sorted;
    } else {
      SumOfInsert(seg, sorted[1..]);
      assert ([sorted[0]] + Insert(seg, sorted[1..]))[1..] == Insert(seg, sorted[1..]);
    }
  }

  lemma {:induction false} SumOfSorted(segments: seq<PlanSegment>)
    ensures SumFromFront(Sorted(segments)) == SumFromFront(segments)
  {
    if segments != [] {
      SumOfSorted(segments[1..]);
      SumOfInsert(segments[0], Sorted(segments[1..]));
    }
  }

  lemma {:induction false} SumsAgree(segments: seq<PlanSegment>)
    ensures SumFromFront(segments) == Sum(segments)
  {
    if segments != [] {
      var n := |segments| - 1;
      SumsAgree(segments[..n]);
      SumOfSnoc(segments[..n], segments[n]);
      assert segments[..n] + [segments[n]] == segments;
    }
  }

  lemma {:induction false} SumOfSnoc(segments: seq<PlanSegment>, seg: PlanSegment)
    ensures SumFromFront(segments + [seg]) == SumFromFront(segments) + seg.duration
  {
    if segments == [] {
      assert segments + [seg] == [seg];
      assert [seg][1..] == [];
    } else {
      assert (segments + [seg])[1..] == segments[1..] + [seg];
      SumOfSnoc(segments[1..], seg);
    }
  }

  /** What acceptance says of the sorted segments. */
  lemma AcceptedIsOrdered(plan: Plan, receipt: int, assetDuration: string -> int)
    requires Validated(plan, receipt, assetDuration).Accepted?
    ensures var sorted := Sorted(plan.segments);
            && Contiguous(sorted) && AllPositive(sorted) && |sorted| == |plan.segments|
            && SumFromFront(sorted) == plan.endUtc - plan.startUtc
            && (forall seg :: seg in plan.segments <==> seg in sorted)
  {
    var sorted := Sorted(plan.segments);
    SortedIsSorted(plan.segments);
    SameElements(plan.segments, sorted);
    SumOfSorted(plan.segments);
    SumsAgree(plan.segments);
    forall i | 0 <= i < |sorted|
      ensures sorted[i].duration > 0
    {
      assert sorted[i] in plan.segments;
    }
  }

  /** Whatever order the segments arrive in, an accepted plan's boundaries tile the block in index order. */
  lemma AcceptedBoundariesTile(plan: Plan, receipt: int, assetDuration: string -> int)
    requires Validated(plan, receipt, assetDuration).Accepted?
    ensures var boundaries := Validated(plan, receipt, assetDuration).boundaries;
            && boundaries != [] && Tiles(boundaries, Sorted(plan.segments), 0)
            && boundaries[|boundaries| - 1].endCt == plan.endUtc - plan.startUtc
            && (forall i :: 0 <= i < |boundaries| ==>
                  boundaries[i].index == i && boundaries[i].startCt < boundaries[i].endCt)
  {
    AcceptedIsOrdered(plan, receipt, assetDuration);
    BoundariesTile(Sorted(plan.segments), 0);
  }

  /** Contiguous segments with the same elements are the same sequence. */
  lemma ContiguousIsUnique(x: seq<PlanSegment>, y: seq<PlanSegment>)
    requires Contiguous(x) && Contiguous(y) && |x| == |y|
    requires forall seg :: seg in x ==> seg in y
    ensures x == y
  {
    forall i | 0 <= i < |x|
      ensures x[i] == y[i]
    {
      assert x[i] in y;
    }
  }

  /** Two arrival orders of the same segments are one plan. */
  lemma ArrivalOrderIsIrrelevant(a: seq<PlanSegment>, b: seq<PlanSegment>)
    requires multiset(a) == multiset(b) && HasEveryIndex(a)
    ensures Sorted(a) == Sorted(b)
  {
    SortedIsSorted(a);
    SortedIsSorted(b);
    SameElements(a, b);
    SameElements(a, Sorted(a));
    SameElements(b, Sorted(b));
    assert |multiset(a)| == |a| && |multiset(b)| == |b|;
    assert forall k :: HasIndex(a, k) <==> HasIndex(b, k);
    SortedIsContiguousExactly(a);
    SortedIsContiguousExactly(b);
    ContiguousIsUnique(Sorted(a), Sorted(b));
  }

  // ---------------------------------------------------------------------------
  // Joining
  // ---------------------------------------------------------------------------

  datatype JoinClass = Early | MidBlock | Stale

  datatype Join =
    | Joins(classification: JoinClass, wait: int, ctStart: int, segment: int, assetOffset: int)
    | Refused(error: Error)

  function Classify(tJoin: int, start: int, end: int): JoinClass {
    if tJoin < start then Early else if tJoin >= end then Stale else MidBlock
  }

  function FindSegment(boundaries: seq<Boundary>, ct: int): int {
    if boundaries == [] then -1
    else if boundaries[0].startCt <= ct < boundaries[0].endCt then boundaries[0].index
    else FindSegment(boundaries[1..], ct)
  }

  function SegmentOf(segments: seq<PlanSegment>, index: int): Option<PlanSegment> {
    if segments == [] then None
    else if segments[0].index == index then Some(segments[0])
    else SegmentOf(segments[1..], index)
  }

  function JoinAt(plan: Plan, boundaries: seq<Boundary>, tJoin: int): Join
    requires plan.segments != []
  {
    match Classify(tJoin, plan.startUtc, plan.endUtc)
    case Stale => Refused(StaleBlock)
    case Early => Joins(Early, plan.startUtc - tJoin, 0, 0, plan.segments[0].assetOffset)
    case MidBlock =>
      var ct := tJoin - plan.startUtc;
      var k := FindSegment(boundaries, ct);
      if k < 0 then Refused(OffsetExceedsAsset)
      else
        match SegmentOf(plan.segments, k)
        case None => Refused(InvalidSegmentIndex)
        case Some(seg) =>
          var start := if k < |boundaries| then boundaries[k].startCt else 0;
          Joins(MidBlock, 0, ct, k, seg.assetOffset + (ct - start))
  }

  method FindSegmentForCT(boundaries: seq<Boundary>, ct: int) returns (k: int)
    ensures k == FindSegment(boundaries, ct)
  {
    assert boundaries[0..] == boundaries;
    for i := 0 to |boundaries|
      invariant FindSegment(boundaries, ct) == FindSegment(boundaries[i..], ct)
    {
      assert boundaries[i..][1..] == boundaries[i + 1..];
      if boundaries[i].startCt <= ct < boundaries[i].endCt {
        return boundaries[i].index;
      }
    }
    return -1;
  }

  method ComputeJoinParameters(plan: Plan, boundaries: seq<Boundary>, tJoin: int) returns (r: Join)
    requires plan.segments != [] && Contiguous(Sorted(plan.segments))
    requires boundaries == BoundariesFrom(Sorted(plan.segments), 0)
    ensures r == JoinAt(plan, boundaries, tJoin)
  {
    match Classify(tJoin, plan.startUtc, plan.endUtc) {
      case Stale => return Refused(StaleBlock);
      case Early => return Joins(Early, plan.startUtc - tJoin, 0, 0, plan.segments[0].assetOffset);
      case MidBlock =>
        var elapsed := tJoin - plan.startUtc;
        var k := FindSegmentForCT(boundaries, elapsed);
        if k < 0 {
          return Refused(OffsetExceedsAsset);
        }
        FoundIsAPosition(Sorted(plan.segments), 0, elapsed, 0);
        assert plan.segments[0..] == plan.segments;
        for i := 0 to |plan.segments|
          invariant SegmentOf(plan.segments, k) == SegmentOf(plan.segments[i..], k)
        {
          assert plan.segments[i..][1..] == plan.segments[i + 1..];
          if plan.segments[i].index == k {
            var bound := boundaries[k];
            return Joins(MidBlock, 0, elapsed, k, plan.segments[i].assetOffset + (elapsed - bound.startCt));
          }
        }
        return Refused(InvalidSegmentIndex);
    }
  }

  /** A segment that is found is one of the boundaries'. */
  lemma {:induction false} FoundIsAPosition(sorted: seq<PlanSegment>, from: int, ct: int, first: int)
    requires forall i :: 0 <= i < |sorted| ==> sorted[i].index == first + i
    ensures var k := FindSegment(BoundariesFrom(sorted, from), ct);
            k == -1 || first <= k < first + |sorted|
    ensures |BoundariesFrom(sorted, from)| == |sorted|
  {
    if sorted != [] {
      var end := from + sorted[0].duration;
      FoundIsAPosition(sorted[1..], end, ct, first + 1);
      assert BoundariesFrom(sorted, from)[1..] == BoundariesFrom(sorted[1..], end);
    }
  }

  // ---------------------------------------------------------------------------
  // A join shows what the walker keeps
  // ---------------------------------------------------------------------------

  function AsSegment(seg: PlanSegment): Segment
    requires seg.duration > 0
  {
    Segment(seg.kind, seg.uri, seg.assetOffset, seg.duration)
  }

  function Timeline(segments: seq<PlanSegment>): seq<Segment>
    requires AllPositive(segments)
  {
    if segments == [] then [] else [AsSegment(segments[0])] + Timeline(segments[1..])
  }

  /** The place of a content time in a list of segments. */
  function Place(segments: seq<PlanSegment>, elapsed: nat): nat
    requires AllPositive(segments)
  {
    if segments == [] || elapsed < segments[0].duration then 0
    else 1 + Place(segments[1..], elapsed - segments[0].duration)
  }

  lemma BoundariesStep(sorted: seq<PlanSegment>, from: int)
    requires sorted != []
    ensures var all, rest := BoundariesFrom(sorted, from), BoundariesFrom(sorted[1..], from + sorted[0].duration);
            && |all| == |rest| + 1 && all[0] == Boundary(sorted[0].index, from, from + sorted[0].duration)
            && all[1..] == rest && forall i :: 0 <= i < |rest| ==> all[i + 1] == rest[i]
  {
  }

  lemma {:induction false} BoundariesLength(sorted: seq<PlanSegment>, from: int)
    ensures |BoundariesFrom(sorted, from)| == |sorted|
  {
    if sorted != [] {
      BoundariesLength(sorted[1..], from + sorted[0].duration);
    }
  }

  lemma {:induction false} PlaceIsWithin(sorted: seq<PlanSegment>, from: int, elapsed: nat)
    requires AllPositive(sorted) && elapsed < SumFromFront(sorted)
    ensures Place(sorted, elapsed) < |sorted| == |BoundariesFrom(sorted, from)|
    ensures var k := Place(sorted, elapsed);
            var b := BoundariesFrom(sorted, from)[k];
            b.startCt <= from + elapsed < b.endCt == b.startCt + sorted[k].duration
  {
    var d := sorted[0].duration;
    BoundariesLength(sorted, from);
    BoundariesStep(sorted, from);
    if elapsed >= d {
      PlaceIsWithin(sorted[1..], from + d, elapsed - d);
    }
  }

  lemma {:induction false} PlaceIsFound(sorted: seq<PlanSegment>, from: int, elapsed: nat)
    requires AllPositive(sorted) && elapsed < SumFromFront(sorted)
    ensures Place(sorted, elapsed) < |sorted|
    ensures FindSegment(BoundariesFrom(sorted, from), from + elapsed) == sorted[Place(sorted, elapsed)].index
  {
    var d := sorted[0].duration;
    BoundariesStep(sorted, from);
    if elapsed >= d {
      PlaceIsFound(sorted[1..], from + d, elapsed - d);
    }
  }

  lemma PlaceStep(sorted: seq<PlanSegment>, elapsed: nat)
    requires AllPositive(sorted) && sorted != [] && sorted[0].duration <= elapsed
    ensures Place(sorted, elapsed) == 1 + Place(sorted[1..], elapsed - sorted[0].duration)
    ensures Remaining(Timeline(sorted), elapsed) == Remaining(Timeline(sorted[1..]), elapsed - sorted[0].duration)
  {
    assert Timeline(sorted)[1..] == Timeline(sorted[1..]);
  }

  lemma FirstPlaceIsKept(sorted: seq<PlanSegment>, from: int, elapsed: nat)
    requires AllPositive(sorted) && sorted != [] && elapsed < sorted[0].duration
    ensures Place(sorted, elapsed) == 0 && BoundariesFrom(sorted, from)[0].startCt == from
    ensures var rest := Remaining(Timeline(sorted), elapsed);
            rest != [] && rest[0] == Trimmed(AsSegment(sorted[0]), elapsed)
  {
  }

  lemma {:induction false} PlaceIsKept(sorted: seq<PlanSegment>, from: int, elapsed: nat)
    requires AllPositive(sorted) && elapsed < SumFromFront(sorted)
    ensures Place(sorted, elapsed) < |sorted| == |BoundariesFrom(sorted, from)|
    ensures var k, rest := Place(sorted, elapsed), Remaining(Timeline(sorted), elapsed);
            var into := from + elapsed - BoundariesFrom(sorted, from)[k].startCt;
            0 <= into < sorted[k].duration && rest != [] && rest[0] == Trimmed(AsSegment(sorted[k]), into)
  {
    var d := sorted[0].duration;
    BoundariesStep(sorted, from);
    if elapsed < d {
      FirstPlaceIsKept(sorted, from, elapsed);
      BoundariesLength(sorted, from);
    } else {
      PlaceStep(sorted, elapsed);
      PlaceIsKept(sorted[1..], from + d, elapsed - d);
    }
  }

  lemma {:induction false} SegmentOfIndex(segments: seq<PlanSegment>, seg: PlanSegment)
    requires seg in segments
    requires forall other :: other in segments && other.index == seg.index ==> other == seg
    ensures SegmentOf(segments, seg.index) == Some(seg)
  {
    assert segments == [segments[0]] + segments[1..];
    if segments[0].index != seg.index {
      SegmentOfIndex(segments[1..], seg);
    } else {
      assert segments[0] in segments;
    }
  }

  /**
    Every join inside an accepted block succeeds. It starts in the segment that the walker keeps
    first, at the asset offset the walker gives it, whatever order the segments arrived in.
   */
  lemma MidBlockJoinAgreesWithWalker(plan: Plan, receipt: int, assetDuration: string -> int, tJoin: int)
    requires Validated(plan, receipt, assetDuration).Accepted?
    requires plan.startUtc <= tJoin < plan.endUtc
    ensures var sorted := Sorted(plan.segments);
            AllPositive(sorted) &&
            var r := JoinAt(plan, Validated(plan, receipt, assetDuration).boundaries, tJoin);
            var kept := Remaining(Timeline(sorted), tJoin - plan.startUtc);
            && r.Joins? && r.classification == MidBlock && r.wait == 0 && r.ctStart == tJoin - plan.startUtc
            && 0 <= r.segment < |sorted| && kept != []
            && kept[0].kind == sorted[r.segment].kind && kept[0].uri == sorted[r.segment].uri
            && (kept[0].uri != "" ==> r.assetOffset == kept[0].assetOffset)
  {
    JoinFindsThePlace(plan, receipt, assetDuration, tJoin);
    AcceptedIsOrdered(plan, receipt, assetDuration);
    PlaceIsWithin(Sorted(plan.segments), 0, tJoin - plan.startUtc);
    PlaceIsKept(Sorted(plan.segments), 0, tJoin - plan.startUtc);
  }

  lemma JoinFindsThePlace(plan: Plan, receipt: int, assetDuration: string -> int, tJoin: int)
    requires Validated(plan, receipt, assetDuration).Accepted?
    requires plan.startUtc <= tJoin < plan.endUtc
    ensures var sorted, ct := Sorted(plan.segments), tJoin - plan.startUtc;
            var boundaries := Validated(plan, receipt, assetDuration).boundaries;
            AllPositive(sorted) && Place(sorted, ct) < |sorted| == |boundaries| &&
            var k := Place(sorted, ct);
            JoinAt(plan, boundaries, tJoin) ==
            Joins(MidBlock, 0, ct, k, sorted[k].assetOffset + (ct - boundaries[k].startCt))
  {
    AcceptedIsOrdered(plan, receipt, assetDuration);
    var sorted := Sorted(plan.segments);
    var elapsed := tJoin - plan.startUtc;
    PlaceIsWithin(sorted, 0, elapsed);
    PlaceIsFound(sorted, 0, elapsed);
    var seg := sorted[Place(sorted, elapsed)];
    assert seg in plan.segments;
    forall other | other in plan.segments && other.index == seg.index
      ensures other == seg
    {
      assert other in sorted;
    }
    SegmentOfIndex(plan.segments, seg);
  }

  /** So a viewer who joins mid-block sees what the plan shows at that time. */
  lemma MidBlockJoinShowsThePlan(plan: Plan, receipt: int, assetDuration: string -> int, tJoin: int)
    requires Validated(plan, receipt, assetDuration).Accepted?
    requires plan.startUtc <= tJoin < plan.endUtc
    ensures var sorted := Sorted(plan.segments);
            AllPositive(sorted) &&
            var r := JoinAt(plan, Validated(plan, receipt, assetDuration).boundaries, tJoin);
            var shown := At(Timeline(sorted), tJoin - plan.startUtc);
            r.Joins? && (shown.Media? ==> shown.position == r.assetOffset)
  {
    MidBlockJoinAgreesWithWalker(plan, receipt, assetDuration, tJoin);
    var timeline, elapsed := Timeline(Sorted(plan.segments)), tJoin - plan.startUtc;
    RemainingShifts(timeline, elapsed, 0);
    FirstShown(timeline, elapsed);
  }

  lemma {:induction false} FirstShown(segments: seq<Segment>, elapsed: nat)
    requires Remaining(segments, elapsed) != []
    ensures At(Remaining(segments, elapsed), 0) == Within(Remaining(segments, elapsed)[0], 0)
  {
    if elapsed >= segments[0].duration {
      FirstShown(segments[1..], elapsed - segments[0].duration);
    }
  }

  /** A join at the end or later is refused as stale. */
  lemma LateJoinIsRefused(plan: Plan, receipt: int, assetDuration: string -> int, tJoin: int)
    requires Validated(plan, receipt, assetDuration).Accepted? && plan.endUtc <= tJoin
    ensures plan.segments != []
    ensures JoinAt(plan, Validated(plan, receipt, assetDuration).boundaries, tJoin) == Refused(StaleBlock)
  {
    AcceptedExactly(plan, receipt, assetDuration);
  }

  /** A join before the start takes the asset offset of the segment that arrived first. */
  lemma EarlyJoinIsRightExactly(plan: Plan, receipt: int, assetDuration: string -> int, tJoin: int)
    requires Validated(plan, receipt, assetDuration).Accepted? && tJoin < plan.startUtc
    ensures var sorted := Sorted(plan.segments);
            var r := JoinAt(plan, Validated(plan, receipt, assetDuration).boundaries, tJoin);
            && sorted != [] && r.Joins? && r.segment == 0 && r.ctStart == 0 && tJoin + r.wait == plan.startUtc
            && (plan.segments[0].index == 0 ==> r.assetOffset == sorted[0].assetOffset)
            && (r.assetOffset == sorted[0].assetOffset <==>
                forall seg :: seg in plan.segments && seg.index == 0 ==> seg.assetOffset == plan.segments[0].assetOffset)
  {
    AcceptedIsOrdered(plan, receipt, assetDuration);
    var sorted := Sorted(plan.segments);
    assert sorted[0] in plan.segments;
    assert plan.segments[0] in sorted;
  }

  /** An accepted plan whose segments arrive the other way round joins early at the wrong offset. */
  lemma EarlyJoinCanBeWrong()
    ensures var plan := Plan(0, 2000, [PlanSegment(1, Filler, "b", 700, 1000), PlanSegment(0, Episode, "a", 0, 1000)]);
            var v := Validated(plan, 0, _ => 5000);
            v.Accepted? && JoinAt(plan, v.boundaries, -1) == Joins(Early, 1, 0, 0, 700)
            && Sorted(plan.segments)[0].assetOffset == 0
  {
    var a, b := PlanSegment(0, Episode, "a", 0, 1000), PlanSegment(1, Filler, "b", 700, 1000);
    var segments := [b, a];
    assert segments[1..] == [a] && [a][1..] == [];
    assert Sorted([a]) == [a];
    assert Insert(b, [a]) == [a] + Insert(b, [a][1..]);
    assert Sorted(segments) == [a, b];
    assert segments[..1] == [b] && [b][..0] == [];
    assert Sum(segments) == Sum([b]) + 1000;
    assert AssetError(segments, _ => 5000) == AssetError([a], _ => 5000);
  }
}
