/** The record filter, aggregator and classifier of `display_map`: one
    forward pass over the rows of the tourism dataset that keeps the rows
    whose postal code lies in the Finistère range, sums their coordinates,
    sends one marker per kept row to the group chosen by its price category,
    and finally centres the map on the mean of the kept coordinates. */
module Geolocalisation {
  import opened Results
  import opened PostalCode
  import opened Tariff

  /** The columns of one CSV record that the loop reads; the coordinates are
      the already-parsed values of `gmaplatitude` and `gmaplongitude`. */
  datatype Row = Row(postalCode: string, latitude: real, longitude: real, name: string, tarif: string)

  /** A map marker: its position, icon colour and tooltip, and the index of
      the row it was built from (the row its popup is rendered from). */
  datatype Marker = Marker(latitude: real, longitude: real, colour: Colour, tooltip: string, row: nat)

  /** The markers held by the four destinations, each in the order it
      received them. */
  datatype Groups = Groups(gratuit: seq<Marker>, payant: seq<Marker>, unknown: seq<Marker>, libreParticipation: seq<Marker>)
  {
    function Layer(d: Destination): seq<Marker> {
      match d
      case GratuitCluster => gratuit
      case PayantCluster => payant
      case UnknownCluster => unknown
      case LibreParticipationLayer => libreParticipation
    }

    function Size(): nat {
      |gratuit| + |payant| + |unknown| + |libreParticipation|
    }

    /** `marker.add_to(...)`: the marker joins destination `d`, after the
        markers already there; the other destinations are unchanged. */
    function Add(d: Destination, marker: Marker): (g: Groups)
      ensures g.Layer(d) == Layer(d) + [marker]
      ensures forall e | e != d :: g.Layer(e) == Layer(e)
      ensures g.Size() == Size() + 1
    {
      match d
      case GratuitCluster => this.(gratuit := gratuit + [marker])
      case PayantCluster => this.(payant := payant + [marker])
      case UnknownCluster => this.(unknown := unknown + [marker])
      case LibreParticipationLayer => this.(libreParticipation := libreParticipation + [marker])
    }
  }

  const NoMarkers := Groups([], [], [], [])

  /** What the pass produces: the map centre and the markers of each group. */
  datatype MapView = MapView(centreLatitude: real, centreLongitude: real, groups: Groups)

  /** The two ways the pass fails: `int()` refuses a postal code (the first
      such row ends the run), or no row is kept and the mean divides by zero. */
  datatype RunError = BadPostalCode(row: nat, cause: ParseError) | NoRowKept

  datatype Axis = Latitude | Longitude

  const PostalLow: int := 29000
  const PostalHigh: int := 30000

  /** `code in range(29000, 30000)`: the lower bound is included, the upper is not. */
  predicate InRange(code: int) {
    PostalLow <= code < PostalHigh
  }

  /** The kept codes are exactly those of department 29: their thousands are 29. */
  lemma InRangeDepartment(code: int)
    ensures InRange(code) <==> code / 1000 == 29
  {
  }

  function Centre(v: MapView, axis: Axis): real {
    match axis
    case Latitude => v.centreLatitude
    case Longitude => v.centreLongitude
  }

  function Coordinate(row: Row, axis: Axis): real {
    match axis
    case Latitude => row.latitude
    case Longitude => row.longitude
  }

  /** The marker built for row `i`: its coordinates, the `get_icon` colour and
      the record name as tooltip. */
  function MarkerFor(rows: seq<Row>, i: nat): (m: Marker)
    requires i < |rows|
    ensures m.colour == LayerColour(DestinationOf(rows[i].tarif))
    ensures m.latitude == rows[i].latitude && m.longitude == rows[i].longitude
    ensures m.tooltip == rows[i].name && m.row == i
  {
    Marker(rows[i].latitude, rows[i].longitude, IconColour(rows[i].tarif), rows[i].name, i)
  }

  /** `int()` accepts the postal code of the row once its spaces are gone. */
  predicate CodeParses(row: Row) {
    Normalize(row.postalCode).Success?
  }

  function Code(row: Row): int
    requires CodeParses(row)
  {
    Normalize(row.postalCode).value
  }

  /** The postal codes of the first `k` rows all parse. */
  ghost predicate CodesParse(rows: seq<Row>, k: nat)
    requires k <= |rows|
  {
    forall i | 0 <= i < k :: CodeParses(rows[i])
  }

  /** Proof step of the loop: one more parsed row extends the parsed prefix. */
  lemma CodesParseExtend(rows: seq<Row>, k: nat)
    requires k < |rows| && CodesParse(rows, k) && CodeParses(rows[k])
    ensures CodesParse(rows, k + 1)
  {
  }

  /** Row `i` is the first whose postal code `int()` refuses. */
  ghost predicate IsFirstBadRow(rows: seq<Row>, i: nat) {
    i < |rows| && CodesParse(rows, i) && !CodeParses(rows[i])
  }

  ghost predicate IndicesIn(rows: seq<Row>, idx: seq<nat>) {
    forall j | 0 <= j < |idx| :: idx[j] < |rows|
  }

  ghost predicate Increasing(idx: seq<nat>) {
    forall j1, j2 | 0 <= j1 < j2 < |idx| :: idx[j1] < idx[j2]
  }

  /** The indices, in input order, of the rows among the first `k` that the
      range filter keeps. */
  ghost function KeptIndices(rows: seq<Row>, k: nat): (idx: seq<nat>)
    requires k <= |rows| && CodesParse(rows, k)
    ensures forall j | 0 <= j < |idx| :: idx[j] < k
    decreases k
  {
    if k == 0 then []
    else KeptIndices(rows, k - 1) + (if InRange(Code(rows[k - 1])) then [k - 1] else [])
  }

  /** The sum of one coordinate over the rows listed in `idx`. */
  ghost function Sum(rows: seq<Row>, idx: seq<nat>, axis: Axis): real
    requires IndicesIn(rows, idx)
  {
    if idx == [] then 0.0
    else Sum(rows, idx[..|idx| - 1], axis) + Coordinate(rows[idx[|idx| - 1]], axis)
  }

  /** The groups after the markers of the rows listed in `idx` were added, in
      that order, each to the destination of its category. */
  ghost function Grouped(rows: seq<Row>, idx: seq<nat>): Groups
    requires IndicesIn(rows, idx)
  {
    if idx == [] then NoMarkers
    else
      var i := idx[|idx| - 1];
      Grouped(rows, idx[..|idx| - 1]).Add(DestinationOf(rows[i].tarif), MarkerFor(rows, i))
  }

  /** The outcome of a pass over rows whose postal codes all parse: no row
      kept is a division by zero; otherwise the centre is the mean of the kept
      coordinates and the groups hold the markers of the kept rows. */
  ghost function Expected(rows: seq<Row>): Result<MapView, RunError>
    requires CodesParse(rows, |rows|)
  {
    var idx := KeptIndices(rows, |rows|);
    var count := |idx| as real;
    if |idx| == 0 then Failure(NoRowKept)
    else Success(MapView(Sum(rows, idx, Latitude) / count, Sum(rows, idx, Longitude) / count, Grouped(rows, idx)))
  }

  /** What one more kept row adds to the sums and to the groups. */
  lemma AppendKept(rows: seq<Row>, idx: seq<nat>, i: nat)
    requires IndicesIn(rows, idx) && i < |rows|
    ensures IndicesIn(rows, idx + [i])
    ensures Sum(rows, idx + [i], Latitude) == Sum(rows, idx, Latitude) + rows[i].latitude
    ensures Sum(rows, idx + [i], Longitude) == Sum(rows, idx, Longitude) + rows[i].longitude
    ensures Grouped(rows, idx + [i]) == Grouped(rows, idx).Add(DestinationOf(rows[i].tarif), MarkerFor(rows, i))
  {
    assert (idx + [i])[..|idx|] == idx;
  }

  /** Lines 67-74: the marker joins a cluster or the "Libre participation"
      layer according to an exact comparison of the category. */
  method AddMarker(groups: Groups, tarif: string, marker: Marker) returns (g: Groups)
    ensures g == groups.Add(DestinationOf(tarif), marker)
  {
    if tarif == Gratuit {
      g := groups.(gratuit := groups.gratuit + [marker]);
    } else if tarif == Payant {
      g := groups.(payant := groups.payant + [marker]);
    } else if tarif == NonCommuniques {
      g := groups.(unknown := groups.unknown + [marker]);
    } else {
      g := groups.(libreParticipation := groups.libreParticipation + [marker]);
    }
  }

  /** The loop of `display_map` (lines 44-79) and its final averaging. A
      postal code that `int()` refuses ends the run at its row, with nothing
      produced; otherwise the result is `Expected(rows)`. */
  method DisplayMap(rows: seq<Row>) returns (r: Result<MapView, RunError>)
    ensures CodesParse(rows, |rows|) ==> r == Expected(rows)
    ensures !CodesParse(rows, |rows|) ==>
      && r.Failure? && r.error.BadPostalCode?
      && IsFirstBadRow(rows, r.error.row)
      && r.error.cause == InvalidLiteral(StripSpaces(rows[r.error.row].postalCode))
  {
    var sumLatitude, sumLongitude, count := 0.0, 0.0, 0;
    var groups := NoMarkers;
    ghost var kept: seq<nat> := [];
    for k := 0 to |rows|
      invariant CodesParse(rows, k)
      invariant kept == KeptIndices(rows, k)
      invariant count == |kept|
      invariant sumLatitude == Sum(rows, kept, Latitude)
      invariant sumLongitude == Sum(rows, kept, Longitude)
      invariant groups == Grouped(rows, kept)
    {
      var row := rows[k];
      var code := Normalize(row.postalCode);
      if code.Failure? {
        return Failure(BadPostalCode(k, code.error));
      }
      CodesParseExtend(rows, k);
      if InRange(code.value) {
        count := count + 1;
        sumLatitude := sumLatitude + row.latitude;
        sumLongitude := sumLongitude + row.longitude;
        var marker := Marker(row.latitude, row.longitude, IconColour(row.tarif), row.name, k);
        groups := AddMarker(groups, row.tarif, marker);
        AppendKept(rows, kept, k);
        kept := kept + [k as nat];
      }
    }
    if count == 0 {
      return Failure(NoRowKept);
    }
    r := Success(MapView(sumLatitude / count as real, sumLongitude / count as real, groups));
  }

  /** The filter keeps exactly the rows whose code lies in the range. */
  lemma {:induction false} KeptIndicesExactly(rows: seq<Row>, k: nat)
    requires k <= |rows| && CodesParse(rows, k)
    ensures forall i: nat :: i in KeptIndices(rows, k) <==> i < k && InRange(Code(rows[i]))
  {
    if k > 0 {
      KeptIndicesExactly(rows, k - 1);
    }
  }

  /** The kept rows are listed in input order, each once. */
  lemma {:induction false} KeptIndicesIncreasing(rows: seq<Row>, k: nat)
    requires k <= |rows| && CodesParse(rows, k)
    ensures Increasing(KeptIndices(rows, k))
  {
    if k > 0 {
      KeptIndicesIncreasing(rows, k - 1);
    }
  }

  /** A destination holds the markers of the listed rows sent to it, and
      only those; each of them carries the destination's colour. */
  lemma {:induction false} GroupedMembers(rows: seq<Row>, idx: seq<nat>, d: Destination)
    requires IndicesIn(rows, idx)
    ensures forall m | m in Grouped(rows, idx).Layer(d) ::
      && m.row in idx && m.row < |rows| && m == MarkerFor(rows, m.row)
      && DestinationOf(rows[m.row].tarif) == d && m.colour == LayerColour(d)
    ensures forall i | i in idx && i < |rows| && DestinationOf(rows[i].tarif) == d ::
      MarkerFor(rows, i) in Grouped(rows, idx).Layer(d)
  {
    if idx != [] {
      var front := idx[..|idx| - 1];
      GroupedMembers(rows, front, d);
      assert idx == front + [idx[|idx| - 1]];
    }
  }

  /** The destinations together hold exactly one marker per listed row. */
  lemma {:induction false} GroupedSize(rows: seq<Row>, idx: seq<nat>)
    requires IndicesIn(rows, idx)
    ensures Grouped(rows, idx).Size() == |idx|
  {
    if idx != [] {
      GroupedSize(rows, idx[..|idx| - 1]);
    }
  }

  /** Listed in input order, the markers of each destination stay in input order. */
  lemma {:induction false} GroupedInOrder(rows: seq<Row>, idx: seq<nat>, d: Destination)
    requires IndicesIn(rows, idx) && Increasing(idx)
    ensures forall j1, j2 | 0 <= j1 < j2 < |Grouped(rows, idx).Layer(d)| ::
      Grouped(rows, idx).Layer(d)[j1].row < Grouped(rows, idx).Layer(d)[j2].row
  {
    if idx != [] {
      var front := idx[..|idx| - 1];
      var last := idx[|idx| - 1];
      GroupedInOrder(rows, front, d);
      GroupedMembers(rows, front, d);
      forall m | m in Grouped(rows, front).Layer(d)
        ensures m.row < last
      {
        var j :| 0 <= j < |front| && front[j] == m.row;
      }
    }
  }

  /** Coordinates bounded below by `lo` have a sum of at least `count * lo`. */
  lemma {:induction false} SumAtLeast(rows: seq<Row>, idx: seq<nat>, axis: Axis, lo: real)
    requires IndicesIn(rows, idx)
    requires forall j | 0 <= j < |idx| :: lo <= Coordinate(rows[idx[j]], axis)
    ensures |idx| as real * lo <= Sum(rows, idx, axis)
  {
    if idx != [] {
      var front := idx[..|idx| - 1];
      SumAtLeast(rows, front, axis, lo);
      var n := |front| as real;
      assert |idx| as real * lo == n * lo + lo;
    }
  }

  /** Coordinates bounded above by `hi` have a sum of at most `count * hi`. */
  lemma {:induction false} SumAtMost(rows: seq<Row>, idx: seq<nat>, axis: Axis, hi: real)
    requires IndicesIn(rows, idx)
    requires forall j | 0 <= j < |idx| :: Coordinate(rows[idx[j]], axis) <= hi
    ensures Sum(rows, idx, axis) <= |idx| as real * hi
  {
    if idx != [] {
      var front := idx[..|idx| - 1];
      SumAtMost(rows, front, axis, hi);
      var n := |front| as real;
      assert |idx| as real * hi == n * hi + hi;
    }
  }

  /** Proof step about real division: a quotient by a positive count lies
      between the bounds its numerator allows. */
  lemma MeanBetween(total: real, n: real, lo: real, hi: real)
    requires n > 0.0 && n * lo <= total <= n * hi
    ensures lo <= total / n <= hi
  {
    assert (total / n) * n == total;
  }

  /** The mean of the listed coordinates lies within any bounds that hold
      for each of them. */
  lemma MeanWithin(rows: seq<Row>, idx: seq<nat>, axis: Axis, lo: real, hi: real)
    requires IndicesIn(rows, idx) && |idx| > 0
    requires forall j | 0 <= j < |idx| :: lo <= Coordinate(rows[idx[j]], axis) <= hi
    ensures lo <= Sum(rows, idx, axis) / |idx| as real <= hi
  {
    SumAtLeast(rows, idx, axis, lo);
    SumAtMost(rows, idx, axis, hi);
    MeanBetween(Sum(rows, idx, axis), |idx| as real, lo, hi);
  }

  /** The run fails with a division by zero exactly when no row is in range. */
  lemma NoRowKeptIff(rows: seq<Row>)
    requires CodesParse(rows, |rows|)
    ensures Expected(rows) == Failure(NoRowKept) <==> forall i | 0 <= i < |rows| :: !InRange(Code(rows[i]))
  {
    KeptIndicesExactly(rows, |rows|);
    var idx := KeptIndices(rows, |rows|);
    if idx != [] {
      assert idx[0] in idx;
    }
  }

  lemma ExpectedGroupsAreGrouped(rows: seq<Row>, v: MapView)
    requires CodesParse(rows, |rows|) && Expected(rows) == Success(v)
    ensures IndicesIn(rows, KeptIndices(rows, |rows|))
    ensures v.groups == Grouped(rows, KeptIndices(rows, |rows|))
  {
  }

  /** Every kept row has its marker in the destination of its category, with
      that destination's colour, and in no other; a destination holds
      nothing else. */
  lemma ExpectedGroupMembers(rows: seq<Row>, v: MapView)
    requires CodesParse(rows, |rows|) && Expected(rows) == Success(v)
    ensures forall d, m | m in v.groups.Layer(d) ::
      && m.row < |rows| && InRange(Code(rows[m.row])) && m == MarkerFor(rows, m.row)
      && DestinationOf(rows[m.row].tarif) == d && m.colour == LayerColour(d)
    ensures forall i | 0 <= i < |rows| && InRange(Code(rows[i])) ::
      MarkerFor(rows, i) in v.groups.Layer(DestinationOf(rows[i].tarif))
  {
    var idx := KeptIndices(rows, |rows|);
    ExpectedGroupsAreGrouped(rows, v);
    KeptIndicesExactly(rows, |rows|);
    forall d: Destination
      ensures forall m | m in v.groups.Layer(d) ::
        && m.row < |rows| && InRange(Code(rows[m.row])) && m == MarkerFor(rows, m.row)
        && DestinationOf(rows[m.row].tarif) == d && m.colour == LayerColour(d)
      ensures forall i | i in idx && DestinationOf(rows[i].tarif) == d :: MarkerFor(rows, i) in v.groups.Layer(d)
    {
      GroupedMembers(rows, idx, d);
    }
  }

  /** The destinations together hold one marker per kept row. */
  lemma ExpectedGroupSize(rows: seq<Row>, v: MapView)
    requires CodesParse(rows, |rows|) && Expected(rows) == Success(v)
    ensures v.groups.Size() == |KeptIndices(rows, |rows|)|
  {
    ExpectedGroupsAreGrouped(rows, v);
    GroupedSize(rows, KeptIndices(rows, |rows|));
  }

  /** Within each destination, markers appear in input-row order. */
  lemma ExpectedGroupOrder(rows: seq<Row>, v: MapView, d: Destination)
    requires CodesParse(rows, |rows|) && Expected(rows) == Success(v)
    ensures forall j1, j2 | 0 <= j1 < j2 < |v.groups.Layer(d)| :: v.groups.Layer(d)[j1].row < v.groups.Layer(d)[j2].row
  {
    ExpectedGroupsAreGrouped(rows, v);
    KeptIndicesIncreasing(rows, |rows|);
    GroupedInOrder(rows, KeptIndices(rows, |rows|), d);
  }

  lemma CentreIsMean(rows: seq<Row>, v: MapView, axis: Axis)
    requires CodesParse(rows, |rows|) && Expected(rows) == Success(v)
    ensures |KeptIndices(rows, |rows|)| > 0
    ensures Centre(v, axis) == Sum(rows, KeptIndices(rows, |rows|), axis) / |KeptIndices(rows, |rows|)| as real
  {
  }

  /** The centre lies within any bounds that hold for every kept row; in
      particular, when all kept rows share a coordinate, the centre has it. */
  lemma ExpectedCentreWithin(rows: seq<Row>, v: MapView, axis: Axis, lo: real, hi: real)
    requires CodesParse(rows, |rows|) && Expected(rows) == Success(v)
    requires forall i | 0 <= i < |rows| && InRange(Code(rows[i])) :: lo <= Coordinate(rows[i], axis) <= hi
    ensures lo <= Centre(v, axis) <= hi
  {
    var idx := KeptIndices(rows, |rows|);
    CentreIsMean(rows, v, axis);
    KeptIndicesExactly(rows, |rows|);
    forall j | 0 <= j < |idx|
      ensures lo <= Coordinate(rows[idx[j]], axis) <= hi
    {
      assert idx[j] in idx;
    }
    MeanWithin(rows, idx, axis, lo, hi);
  }

  /** Rows appended after the first `k` do not change what the filter keeps
      among those `k`. */
  lemma {:induction false} KeptIndicesExtend(rows: seq<Row>, extra: seq<Row>, k: nat)
    requires k <= |rows| && CodesParse(rows, k)
    ensures CodesParse(rows + extra, k)
    ensures KeptIndices(rows + extra, k) == KeptIndices(rows, k)
  {
    assert forall i | 0 <= i < k :: (rows + extra)[i] == rows[i];
    if k > 0 {
      KeptIndicesExtend(rows, extra, k - 1);
    }
  }

  lemma {:induction false} SumExtend(rows: seq<Row>, extra: seq<Row>, idx: seq<nat>, axis: Axis)
    requires IndicesIn(rows, idx)
    ensures IndicesIn(rows + extra, idx)
    ensures Sum(rows + extra, idx, axis) == Sum(rows, idx, axis)
  {
    if idx != [] {
      SumExtend(rows, extra, idx[..|idx| - 1], axis);
    }
  }

  lemma {:induction false} GroupedExtend(rows: seq<Row>, extra: seq<Row>, idx: seq<nat>)
    requires IndicesIn(rows, idx)
    ensures IndicesIn(rows + extra, idx)
    ensures Grouped(rows + extra, idx) == Grouped(rows, idx)
  {
    if idx != [] {
      GroupedExtend(rows, extra, idx[..|idx| - 1]);
    }
  }

  /** A row whose code parses but lies outside the range changes nothing:
      the outcome with it appended is the outcome without it. */
  lemma AppendRejectedRow(rows: seq<Row>, row: Row)
    requires CodesParse(rows, |rows|)
    requires CodeParses(row) && !InRange(Code(row))
    ensures CodesParse(rows + [row], |rows| + 1)
    ensures Expected(rows + [row]) == Expected(rows)
  {
    var all := rows + [row];
    KeptIndicesExtend(rows, [row], |rows|);
    assert all[|rows|] == row;
    var idx := KeptIndices(rows, |rows|);
    assert KeptIndices(all, |all|) == idx;
    SumExtend(rows, [row], idx, Latitude);
    SumExtend(rows, [row], idx, Longitude);
    GroupedExtend(rows, [row], idx);
  }
}
