/** Scores, field coverage, candidate tiles and their summary. */
module ShadowProfile {
  import opened Base
  import opened Shadow

  // ---- hundredths ----

  /** n / d rounded to an integer, halves to the even neighbour. */
  function RoundHalfEven(n: int, d: int): int
    requires d > 0
  {
    var q, r := n / d, n % d;
    if 2 * r < d then q else if 2 * r > d then q + 1 else if q % 2 == 0 then q else q + 1
  }

  /** `_clamp` of a value already in hundredths */
  function Clamp(h: int): int {
    if h < 0 then 0 else if h > 100 then 100 else h
  }

  /** `_fraction` of n hundredths by d, in hundredths */
  function Fraction(n: int, d: int): int {
    if d <= 0 || n < 0 then 0 else if n > 100 * d then 100 else RoundHalfEven(n, d)
  }

  function BandOf(score: int): Band {
    if score >= 75 then High else if score >= 50 then Medium else if score >= 25 then Low else Insufficient
  }

  lemma ScaleUp(a: int, b: int, d: int)
    requires d >= 0
    ensures a <= b ==> a * d <= b * d
  {
  }

  lemma OneMore(a: int, d: int)
    ensures (a + 1) * d == a * d + d
  {
  }

  lemma QuotientBetween(n: int, d: int, q: int, r: int, lo: int, hi: int)
    requires d > 0 && lo * d <= n <= hi * d && n == q * d + r && 0 <= r < d
    ensures lo <= q <= hi && (q == hi ==> r == 0)
  {
    OneMore(q, d);
    OneMore(hi, d);
    ScaleUp(q + 1, lo, d);
    ScaleUp(hi + 1, q, d);
  }

  /** Rounding never leaves an interval with integer ends. */
  lemma RoundingStaysBetween(n: int, d: int, lo: int, hi: int)
    requires d > 0 && lo * d <= n <= hi * d
    ensures lo <= RoundHalfEven(n, d) <= hi
  {
    var q, r := n / d, n % d;
    assert n == q * d + r;
    QuotientBetween(n, d, q, r, lo, hi);
  }

  // ---- counting rows ----

  function Count(p: Observation -> bool, obs: seq<Observation>): nat {
    if obs == [] then 0 else Count(p, obs[..|obs| - 1]) + if p(obs[|obs| - 1]) then 1 else 0
  }

  lemma {:induction false} CountAppend(p: Observation -> bool, a: seq<Observation>, b: seq<Observation>)
    ensures Count(p, a + b) == Count(p, a) + Count(p, b)
  {
    if b == [] {
      assert a + b == a;
    } else {
      CountAppend(p, a, b[..|b| - 1]);
      assert (a + b)[..|a + b| - 1] == a + b[..|b| - 1];
    }
  }

  lemma CountOne(p: Observation -> bool, o: Observation)
    ensures Count(p, [o]) == if p(o) then 1 else 0
  {
    assert [o][..0] == [];
  }

  lemma CountRemove(p: Observation -> bool, s: seq<Observation>, i: nat)
    requires i < |s|
    ensures Count(p, s) == Count(p, s[..i] + s[i + 1..]) + if p(s[i]) then 1 else 0
  {
    hide Count;
    CountAppend(p, s[..i], s[i + 1..]);
    CountAppend(p, s[..i] + [s[i]], s[i + 1..]);
    CountAppend(p, s[..i], [s[i]]);
    CountOne(p, s[i]);
    assert s == s[..i] + [s[i]] + s[i + 1..];
  }

  lemma RemoveKeepsRows(a: seq<Observation>, b: seq<Observation>, i: nat)
    requires SameRows(a, b) && a != [] && i < |b| && b[i] == a[|a| - 1]
    ensures SameRows(a[..|a| - 1], b[..i] + b[i + 1..])
  {
    assert a == a[..|a| - 1] + [a[|a| - 1]];
    assert b == b[..i] + [b[i]] + b[i + 1..];
    var x := b[i];
    assert multiset(a) == multiset(a[..|a| - 1]) + multiset([x]);
    assert multiset(b) == multiset(b[..i]) + multiset([x]) + multiset(b[i + 1..]);
    assert multiset(b[..i] + b[i + 1..]) == multiset(b[..i]) + multiset(b[i + 1..]);
    assert multiset(a[..|a| - 1]) == multiset(a) - multiset([x]);
    assert multiset(b[..i] + b[i + 1..]) == multiset(b) - multiset([x]);
  }

  /** Counting rows does not depend on their order. */
  lemma {:induction false} CountIgnoresOrder(p: Observation -> bool, a: seq<Observation>, b: seq<Observation>)
    requires SameRows(a, b)
    ensures Count(p, a) == Count(p, b)
  {
    SameMembers(a, b);
    SameLength(a, b);
    if a != [] {
      var x := a[|a| - 1];
      assert x in b;
      var i :| 0 <= i < |b| && b[i] == x;
      RemoveKeepsRows(a, b, i);
      CountIgnoresOrder(p, a[..|a| - 1], b[..i] + b[i + 1..]);
      CountRemove(p, b, i);
    }
  }

  lemma SameLength(a: seq<Observation>, b: seq<Observation>)
    requires SameRows(a, b)
    ensures |a| == |b|
  {
    assert |multiset(a)| == |a| && |multiset(b)| == |b|;
  }

  // ---- field coverage ----

  datatype FieldName =
    | TileIdField | StatusField | RoleField
    | MeasurementNameField | MeasurementValueField | MeasurementUnitField | ThresholdMinField | ThresholdMaxField
    | PassFailField
    | ProfileIdField | DieIdField | WaferIdField | LotIdField | XField | YField

  /** The field groups, in order. */
  const GROUPS: seq<seq<FieldName>> :=
    [[TileIdField, StatusField, RoleField],
     [MeasurementNameField, MeasurementValueField, MeasurementUnitField, ThresholdMinField, ThresholdMaxField,
      PassFailField],
     [ProfileIdField, DieIdField, WaferIdField, LotIdField], [XField, YField]]

  predicate KnownText(s: string) {
    s != "" && s != UNKNOWN
  }

  /** `_field_present` */
  predicate Present(o: Observation, f: FieldName) {
    match f
    case TileIdField => Truthy(o.tileId)
    case StatusField => KnownText(o.status)
    case RoleField => KnownText(o.role)
    case MeasurementNameField => Truthy(o.measurementName)
    case MeasurementValueField => o.measurementValue.Some?
    case MeasurementUnitField => Truthy(o.measurementUnit)
    case ThresholdMinField => o.thresholdMin.Some?
    case ThresholdMaxField => o.thresholdMax.Some?
    case PassFailField => KnownText(o.passFail)
    case ProfileIdField => o.profileId != ""
    case DieIdField => Truthy(o.dieId)
    case WaferIdField => Truthy(o.waferId)
    case LotIdField => Truthy(o.lotId)
    case XField => o.x.Some?
    case YField => o.y.Some?
  }

  function CountPresent(obs: seq<Observation>, f: FieldName): nat {
    Count(o => Present(o, f), obs)
  }

  function SumPresent(obs: seq<Observation>, fields: seq<FieldName>): nat {
    if fields == [] then 0 else SumPresent(obs, fields[..|fields| - 1]) + CountPresent(obs, fields[|fields| - 1])
  }

  datatype Coverage = Coverage(fields: map<FieldName, int>, overall: int)

  const ALL_FIELDS: seq<FieldName> := GROUPS[0] + GROUPS[1] + GROUPS[2] + GROUPS[3]

  /** `build_field_coverage`, all groups in one map */
  function CoverageOf(obs: seq<Observation>): Coverage {
    Coverage(FieldFractions(obs, ALL_FIELDS), Fraction(100 * SumPresent(obs, ALL_FIELDS), |obs| * |ALL_FIELDS|))
  }

  method CountField(obs: seq<Observation>, f: FieldName) returns (present: nat)
    ensures present == CountPresent(obs, f)
  {
    present := 0;
    for i := 0 to |obs|
      invariant present == CountPresent(obs[..i], f)
    {
      assert obs[..i + 1][..i] == obs[..i];
      if Present(obs[i], f) {
        present := present + 1;
      }
    }
    assert obs[..|obs|] == obs;
  }

  function FieldFractions(obs: seq<Observation>, fields: seq<FieldName>): map<FieldName, int> {
    map f | f in fields :: Fraction(100 * CountPresent(obs, f), |obs|)
  }

  method CoverFields(obs: seq<Observation>, fields: seq<FieldName>)
    returns (fractions: map<FieldName, int>, present: nat, possible: nat)
    ensures fractions == FieldFractions(obs, fields)
    ensures present == SumPresent(obs, fields) && possible == |obs| * |fields|
  {
    hide CountPresent, Fraction;
    fractions, present, possible := map[], 0, 0;
    for i := 0 to |fields|
      invariant fractions == FieldFractions(obs, fields[..i])
      invariant present == SumPresent(obs, fields[..i]) && possible == |obs| * i
    {
      assert fields[..i + 1] == fields[..i] + [fields[i]];
      assert fields[..i + 1][..i] == fields[..i];
      OneMore(i, |obs|);
      var count := CountField(obs, fields[i]);
      present := present + count;
      possible := possible + |obs|;
      fractions := fractions[fields[i] := Fraction(100 * count, |obs|)];
    }
    assert fields[..|fields|] == fields;
  }

  method BuildFieldCoverage(obs: seq<Observation>) returns (coverage: Coverage)
    ensures coverage == CoverageOf(obs)
  {
    hide FieldFractions, SumPresent, Fraction;
    var fractions, present, possible := CoverFields(obs, ALL_FIELDS);
    coverage := Coverage(fractions, Fraction(100 * present, possible));
  }

  lemma {:induction false} SumIgnoresOrder(a: seq<Observation>, b: seq<Observation>, fields: seq<FieldName>)
    requires SameRows(a, b)
    ensures SumPresent(a, fields) == SumPresent(b, fields)
  {
    if fields != [] {
      SumIgnoresOrder(a, b, fields[..|fields| - 1]);
      CountIgnoresOrder(o => Present(o, fields[|fields| - 1]), a, b);
    }
  }

  /** Permuting the observations leaves the field coverage unchanged. */
  lemma CoverageIgnoresOrder(a: seq<Observation>, b: seq<Observation>)
    requires SameRows(a, b)
    ensures CoverageOf(a) == CoverageOf(b)
  {
    hide Fraction, SumPresent, Present;
    SameLength(a, b);
    SumIgnoresOrder(a, b, ALL_FIELDS);
    forall f ensures CountPresent(a, f) == CountPresent(b, f) {
      CountIgnoresOrder(o => Present(o, f), a, b);
    }
    assert FieldFractions(a, ALL_FIELDS) == FieldFractions(b, ALL_FIELDS);
  }

  // ---- candidate tiles ----

  datatype TileStatus = Available | Degraded | BlockedTile | UnknownTile

  /** `_tile_status` */
  function StatusFor(statuses: set<string>, conflict: bool): TileStatus {
    if conflict || "degraded" in statuses || ("pass" in statuses && "fail" in statuses) then Degraded
    else if "fail" in statuses then BlockedTile
    else if "pass" in statuses then Available
    else UnknownTile
  }

  function KnownRole(): Observation -> seq<string> {
    (o: Observation) => if o.role != UNKNOWN && o.role != "" then [o.role] else []
  }

  function RolesOf(group: seq<Observation>): seq<string> {
    FlatMap(KnownRole(), group)
  }

  function Occurrences(items: seq<string>, x: string): nat {
    multiset(items)[x]
  }

  /** `Counter(items).most_common(1)`: the first item, in order of first occurrence, that no item outnumbers. */
  function MostCommonFrom(items: seq<string>, k: nat): Option<string>
    requires k <= |items|
    decreases |items| - k
  {
    if k == |items| then None
    else if forall y :: y in items ==> Occurrences(items, y) <= Occurrences(items, items[k]) then Some(items[k])
    else MostCommonFrom(items, k + 1)
  }

  function MostCommon(items: seq<string>): Option<string> {
    MostCommonFrom(items, 0)
  }

  ghost predicate IsMode(items: seq<string>, x: string) {
    x in items && forall y :: y in items ==> Occurrences(items, y) <= Occurrences(items, x)
  }

  lemma {:induction false} ModeExists(items: seq<string>, n: nat) returns (x: string)
    requires 0 < n <= |items|
    ensures x in items[..n] && forall y :: y in items[..n] ==> Occurrences(items, y) <= Occurrences(items, x)
  {
    assert items[..n] == items[..n - 1] + [items[n - 1]];
    if n == 1 {
      x := items[0];
    } else {
      x := ModeExists(items, n - 1);
      if Occurrences(items, x) < Occurrences(items, items[n - 1]) { x := items[n - 1]; }
    }
  }

  lemma {:induction false} MostCommonFromIsMode(items: seq<string>, k: nat, i: nat)
    requires k <= i < |items| && IsMode(items, items[i])
    ensures MostCommonFrom(items, k).Some? && IsMode(items, MostCommonFrom(items, k).value)
    decreases |items| - k
  {
    if !IsMode(items, items[k]) { MostCommonFromIsMode(items, k + 1, i); }
  }

  /** The role chosen is one no other role outnumbers. */
  lemma MostCommonIsMode(items: seq<string>)
    ensures items == [] ==> MostCommon(items) == None
    ensures items != [] ==> MostCommon(items).Some? && IsMode(items, MostCommon(items).value)
  {
    if items != [] {
      var x := ModeExists(items, |items|);
      assert items[..|items|] == items;
      var i :| 0 <= i < |items| && items[i] == x;
      MostCommonFromIsMode(items, 0, i);
    }
  }

  ghost predicate Tied(items: seq<string>) {
    exists x, y :: x != y && IsMode(items, x) && IsMode(items, y)
  }

  /** Reordering changes the chosen role only on a tie. */
  lemma MostCommonIgnoresOrder(a: seq<string>, b: seq<string>)
    requires multiset(a) == multiset(b) && !Tied(a)
    ensures MostCommon(a) == MostCommon(b)
  {
    MostCommonIsMode(a);
    MostCommonIsMode(b);
    assert forall x :: x in a <==> x in multiset(a);
    assert forall x :: x in b <==> x in multiset(b);
    assert |multiset(a)| == |a| && |multiset(b)| == |b|;
    if a != [] {
      assert a[0] in b;
      assert IsMode(a, MostCommon(b).value);
    }
  }

  /** Any mode is chosen in some order: the one that puts it first. */
  lemma ModeComesFirst(items: seq<string>, x: string) returns (b: seq<string>)
    requires IsMode(items, x)
    ensures multiset(b) == multiset(items) && b != [] && b[0] == x && MostCommon(b) == Some(x)
  {
    var i :| 0 <= i < |items| && items[i] == x;
    b := [x] + items[..i] + items[i + 1..];
    assert items == items[..i] + [x] + items[i + 1..];
    FirstModeIsChosen(items, b);
  }

  lemma FirstModeIsChosen(items: seq<string>, b: seq<string>)
    requires multiset(b) == multiset(items) && b != [] && IsMode(items, b[0])
    ensures MostCommon(b) == Some(b[0])
  {
    forall y | y in b ensures Occurrences(b, y) <= Occurrences(b, b[0]) {
      assert y in multiset(b);
      assert y in multiset(items);
      assert y in items;
    }
  }

  /** The role chosen from a list ignores its order exactly when the list has no tie. */
  lemma MostCommonIgnoresOrderExactly(a: seq<string>)
    ensures !Tied(a) <==> forall b :: multiset(b) == multiset(a) ==> MostCommon(b) == MostCommon(a)
  {
    hide MostCommon, IsMode;
    if Tied(a) {
      var x, y :| x != y && IsMode(a, x) && IsMode(a, y);
      var first := ModeComesFirst(a, x);
      var second := ModeComesFirst(a, y);
      assert MostCommon(first) != MostCommon(a) || MostCommon(second) != MostCommon(a);
    } else {
      forall b | multiset(b) == multiset(a) ensures MostCommon(b) == MostCommon(a) {
        MostCommonIgnoresOrder(a, b);
      }
    }
  }

  function LeastConfidence(group: seq<Observation>): int
    requires group != []
  {
    if |group| == 1 then group[0].confidence
    else
      var front, last := LeastConfidence(group[..|group| - 1]), group[|group| - 1].confidence;
      if last < front then last else front
  }

  lemma {:induction false} LeastIsLeast(group: seq<Observation>)
    requires group != []
    ensures forall o :: o in group ==> LeastConfidence(group) <= o.confidence
    ensures exists o :: o in group && o.confidence == LeastConfidence(group)
  {
    if |group| == 1 {
      assert group[0] in group;
    } else {
      var front := group[..|group| - 1];
      LeastIsLeast(front);
      assert group == front + [group[|group| - 1]];
      var o :| o in front && o.confidence == LeastConfidence(front);
      assert o in group && group[|group| - 1] in group;
    }
  }

  lemma LeastIgnoresOrder(a: seq<Observation>, b: seq<Observation>)
    requires a != [] && b != [] && forall o :: o in a <==> o in b
    ensures LeastConfidence(a) == LeastConfidence(b)
  {
    LeastIsLeast(a);
    LeastIsLeast(b);
  }

  datatype Tile = Tile(id: string, role: string, status: TileStatus, confidence: int, evidence: nat)

  function Statuses(group: seq<Observation>): set<string> {
    set o | o in group :: o.status
  }

  function ConflictTiles(obs: seq<Observation>): set<string> {
    set c | c in MatrixOf(obs).conflicts && c.tile != "" :: c.tile
  }

  function RoleText(role: Option<string>): string {
    match role case Some(text) => text case None => UNKNOWN
  }

  function TileFor(id: string, group: seq<Observation>, conflict: bool): Tile
    requires group != []
  {
    Tile(id, RoleText(MostCommon(RolesOf(group))), StatusFor(Statuses(group), conflict), LeastConfidence(group),
         |group|)
  }

  function TileAt(obs: seq<Observation>): string -> seq<Tile> {
    (id: string) => if OfTile(obs, id) == [] then [] else [TileFor(id, OfTile(obs, id), id in ConflictTiles(obs))]
  }

  /** The tiles of `build_recovery_profile_candidate`. */
  function TilesOf(obs: seq<Observation>): seq<Tile> {
    FlatMap(TileAt(obs), Sorted(Tiles(obs)))
  }

  lemma TileHasRows(obs: seq<Observation>, id: string)
    requires id in Tiles(obs)
    ensures OfTile(obs, id) != [] && id != ""
  {
    var o :| o in obs && Truthy(o.tileId) && o.tileId.value == id;
    assert OnTile(o, id);
    assert o in OfTile(obs, id);
  }

  method BuildCandidateTiles(obs: seq<Observation>) returns (tiles: seq<Tile>)
    ensures tiles == TilesOf(obs)
  {
    hide Tiles, MatrixOf, TileFor, ConflictTiles;
    var matrix := BuildConflictMatrix(obs);
    var conflicting := set c | c in matrix.conflicts && c.tile != "" :: c.tile;
    ConflictTilesMean(obs, conflicting);
    var groups := GroupByTile(obs);
    var ids := Sorted(groups.Keys);
    tiles := [];
    for i := 0 to |ids|
      invariant tiles == FlatMap(TileAt(obs), ids[..i])
    {
      FlatMapSnoc(TileAt(obs), ids, i);
      assert ids[i] in ids;
      TileHasRows(obs, ids[i]);
      tiles := tiles + [TileFor(ids[i], Group(groups, ids[i]), ids[i] in conflicting)];
    }
    assert ids[..|ids|] == ids;
  }

  lemma ConflictTilesMean(obs: seq<Observation>, conflicting: set<string>)
    requires conflicting == set c | c in MatrixOf(obs).conflicts && c.tile != "" :: c.tile
    ensures conflicting == ConflictTiles(obs)
  {
  }

  /** Equal but for the role. */
  ghost predicate SameButRole(a: Tile, b: Tile) {
    a.id == b.id && a.status == b.status && a.confidence == b.confidence && a.evidence == b.evidence
  }

  lemma {:induction false} EvidenceIsCount(obs: seq<Observation>, id: string)
    ensures |OfTile(obs, id)| == Count(o => OnTile(o, id), obs)
  {
    if obs != [] { EvidenceIsCount(obs[..|obs| - 1], id); }
  }

  lemma GroupIgnoresOrder(a: seq<Observation>, b: seq<Observation>, id: string)
    requires SameRows(a, b)
    ensures |OfTile(a, id)| == |OfTile(b, id)|
    ensures forall o :: o in OfTile(a, id) <==> o in OfTile(b, id)
  {
    SameMembers(a, b);
    EvidenceIsCount(a, id);
    EvidenceIsCount(b, id);
    CountIgnoresOrder(o => OnTile(o, id), a, b);
  }

  lemma TileIgnoresOrder(a: seq<Observation>, b: seq<Observation>, id: string)
    requires SameRows(a, b) && id in Tiles(a)
    ensures id in Tiles(b) && OfTile(a, id) != [] && OfTile(b, id) != []
    ensures SameButRole(TileFor(id, OfTile(a, id), id in ConflictTiles(a)),
                        TileFor(id, OfTile(b, id), id in ConflictTiles(b)))
  {
    hide MatrixOf, MostCommon, RolesOf;
    SameMembers(a, b);
    TileHasRows(a, id);
    TileHasRows(b, id);
    GroupIgnoresOrder(a, b, id);
    MatrixIgnoresOrder(a, b);
    LeastIgnoresOrder(OfTile(a, id), OfTile(b, id));
    assert Statuses(OfTile(a, id)) == Statuses(OfTile(b, id));
  }

  lemma {:induction false} OneTileEach(obs: seq<Observation>, ids: seq<string>)
    requires forall k :: 0 <= k < |ids| ==> OfTile(obs, ids[k]) != []
    ensures |FlatMap(TileAt(obs), ids)| == |ids|
    ensures forall k :: 0 <= k < |ids| ==>
              FlatMap(TileAt(obs), ids)[k] == TileFor(ids[k], OfTile(obs, ids[k]), ids[k] in ConflictTiles(obs))
  {
    hide TileFor, ConflictTiles;
    if ids != [] {
      var n := |ids| - 1;
      OneTileEach(obs, ids[..n]);
      FlatMapSnoc(TileAt(obs), ids, n);
      assert ids[..n + 1] == ids;
    }
  }

  /** Permuting the observations leaves the candidate tiles in the same order with the same status, confidence and
      evidence count; only a tile's role may change. */
  lemma TilesIgnoreOrder(a: seq<Observation>, b: seq<Observation>)
    requires SameRows(a, b)
    ensures |TilesOf(a)| == |TilesOf(b)|
    ensures forall k :: 0 <= k < |TilesOf(a)| ==> SameButRole(TilesOf(a)[k], TilesOf(b)[k])
  {
    hide TileFor, ConflictTiles;
    SameMembers(a, b);
    assert Tiles(a) == Tiles(b);
    var ids := Sorted(Tiles(a));
    forall k | 0 <= k < |ids|
      ensures OfTile(a, ids[k]) != [] && OfTile(b, ids[k]) != []
      ensures SameButRole(TileFor(ids[k], OfTile(a, ids[k]), ids[k] in ConflictTiles(a)),
                          TileFor(ids[k], OfTile(b, ids[k]), ids[k] in ConflictTiles(b)))
    {
      assert ids[k] in ids;
      TileIgnoresOrder(a, b, ids[k]);
    }
    OneTileEach(a, ids);
    OneTileEach(b, ids);
  }

  lemma {:induction false} RolesIgnoreOrder(a: seq<Observation>, b: seq<Observation>)
    requires SameRows(a, b)
    ensures multiset(RolesOf(a)) == multiset(RolesOf(b))
  {
    forall r ensures multiset(RolesOf(a))[r] == multiset(RolesOf(b))[r] {
      RoleCount(a, r);
      RoleCount(b, r);
      CountIgnoresOrder(o => HasRole(o, r), a, b);
    }
  }

  predicate HasRole(o: Observation, r: string) {
    o.role == r && r != UNKNOWN && r != ""
  }

  lemma {:induction false} RoleCount(obs: seq<Observation>, r: string)
    ensures multiset(RolesOf(obs))[r] == Count(o => HasRole(o, r), obs)
  {
    if obs != [] {
      var n := |obs| - 1;
      RoleCount(obs[..n], r);
      FlatMapSnoc(KnownRole(), obs, n);
      assert obs[..n + 1] == obs;
    }
  }

  lemma {:induction false} GroupRowsIgnoreOrder(a: seq<Observation>, b: seq<Observation>, id: string)
    requires SameRows(a, b)
    ensures SameRows(OfTile(a, id), OfTile(b, id))
  {
    forall o ensures multiset(OfTile(a, id))[o] == multiset(OfTile(b, id))[o] {
      GroupMultiplicity(a, id, o);
      GroupMultiplicity(b, id, o);
    }
  }

  lemma {:induction false} GroupMultiplicity(obs: seq<Observation>, id: string, o: Observation)
    ensures multiset(OfTile(obs, id))[o] == if OnTile(o, id) then multiset(obs)[o] else 0
  {
    if obs != [] {
      GroupMultiplicity(obs[..|obs| - 1], id, o);
      assert obs == obs[..|obs| - 1] + [obs[|obs| - 1]];
    }
  }

  /** The role of one tile. */
  function RoleAt(obs: seq<Observation>, id: string): Option<string> {
    MostCommon(RolesOf(OfTile(obs, id)))
  }

  lemma UntiedRoleIgnoresOrder(a: seq<Observation>, b: seq<Observation>, id: string)
    requires SameRows(a, b) && !Tied(RolesOf(OfTile(a, id)))
    ensures RoleAt(a, id) == RoleAt(b, id)
  {
    GroupRowsIgnoreOrder(a, b, id);
    RolesIgnoreOrder(OfTile(a, id), OfTile(b, id));
    MostCommonIgnoresOrder(RolesOf(OfTile(a, id)), RolesOf(OfTile(b, id)));
  }

  lemma {:induction false} OfTileAppend(a: seq<Observation>, b: seq<Observation>, id: string)
    ensures OfTile(a + b, id) == OfTile(a, id) + OfTile(b, id)
  {
    if b == [] {
      assert a + b == a;
    } else {
      OfTileAppend(a, b[..|b| - 1], id);
      assert (a + b)[..|a + b| - 1] == a + b[..|b| - 1];
    }
  }

  /** A row put first gives the first role of its tile. */
  lemma FirstRowGivesFirstRole(o: Observation, rest: seq<Observation>, id: string)
    requires OnTile(o, id) && HasRole(o, o.role)
    ensures RolesOf(OfTile([o] + rest, id)) == [o.role] + RolesOf(OfTile(rest, id))
  {
    OfTileAppend([o], rest, id);
    assert OfTile([o], id) == [o];
    FlatMapAppend(KnownRole(), [o], OfTile(rest, id));
    FlatMapOne(KnownRole(), o);
  }

  lemma {:induction false} RoleHasRow(group: seq<Observation>, x: string) returns (o: Observation)
    requires x in RolesOf(group)
    ensures o in group && o.role == x && HasRole(o, x)
  {
    if HasRole(group[0], x) {
      o := group[0];
    } else {
      o := RoleHasRow(group[1..], x);
    }
  }

  /** Any tied role of a tile is its role in some order of the rows. */
  lemma RoleComesFirst(obs: seq<Observation>, id: string, x: string) returns (b: seq<Observation>)
    requires IsMode(RolesOf(OfTile(obs, id)), x)
    ensures SameRows(b, obs) && RoleAt(b, id) == Some(x)
  {
    hide MostCommon, RolesOf;
    var o := RoleHasRow(OfTile(obs, id), x);
    var i :| 0 <= i < |obs| && obs[i] == o;
    var rest := obs[..i] + obs[i + 1..];
    b := [o] + rest;
    assert obs == obs[..i] + [o] + obs[i + 1..];
    FirstRowGivesFirstRole(o, rest, id);
    GroupRowsIgnoreOrder(obs, b, id);
    RolesIgnoreOrder(OfTile(obs, id), OfTile(b, id));
    FirstModeIsChosen(RolesOf(OfTile(obs, id)), RolesOf(OfTile(b, id)));
  }

  /** A tile's role ignores the order of the rows exactly when its roles are not tied. */
  lemma RoleIgnoresOrderExactly(obs: seq<Observation>, id: string)
    ensures !Tied(RolesOf(OfTile(obs, id))) <==> forall b :: SameRows(b, obs) ==> RoleAt(b, id) == RoleAt(obs, id)
  {
    hide IsMode, MostCommon, RolesOf, RoleAt;
    if Tied(RolesOf(OfTile(obs, id))) {
      var x, y :| x != y && IsMode(RolesOf(OfTile(obs, id)), x) && IsMode(RolesOf(OfTile(obs, id)), y);
      var first := RoleComesFirst(obs, id, x);
      var second := RoleComesFirst(obs, id, y);
      assert RoleAt(first, id) != RoleAt(obs, id) || RoleAt(second, id) != RoleAt(obs, id);
    } else {
      forall b | SameRows(b, obs) ensures RoleAt(b, id) == RoleAt(obs, id) {
        UntiedRoleIgnoresOrder(obs, b, id);
      }
    }
  }

  // ---- the tile list as a whole ----

  /** Each tile in the list, by its place. */
  lemma TilesByPlace(obs: seq<Observation>)
    ensures |TilesOf(obs)| == |Sorted(Tiles(obs))|
    ensures forall k :: 0 <= k < |TilesOf(obs)| ==>
              TilesOf(obs)[k].id == Sorted(Tiles(obs))[k]
              && TilesOf(obs)[k].role == RoleText(RoleAt(obs, Sorted(Tiles(obs))[k]))
  {
    hide Tiles, MostCommon, RolesOf, ConflictTiles, StatusFor;
    var ids := Sorted(Tiles(obs));
    forall k | 0 <= k < |ids| ensures OfTile(obs, ids[k]) != [] {
      assert ids[k] in ids;
      TileHasRows(obs, ids[k]);
    }
    OneTileEach(obs, ids);
  }

  /** The tiles stand in strictly ascending order of their ids. */
  lemma TilesAscend(obs: seq<Observation>)
    ensures forall i, j :: 0 <= i < j < |TilesOf(obs)| ==>
              TextLeq(TilesOf(obs)[i].id, TilesOf(obs)[j].id) && TilesOf(obs)[i].id != TilesOf(obs)[j].id
  {
    hide TilesOf, Sorted;
    TilesByPlace(obs);
    SortedAscends(Tiles(obs));
    SortedDistinct(Tiles(obs));
  }

  lemma RoleIsNeverUnknown(obs: seq<Observation>, id: string)
    ensures RoleAt(obs, id) != Some(UNKNOWN)
  {
    MostCommonIsMode(RolesOf(OfTile(obs, id)));
    if RoleAt(obs, id) == Some(UNKNOWN) {
      var o := RoleHasRow(OfTile(obs, id), UNKNOWN);
    }
  }

  /** No order of the rows changes the tile list exactly when no tile's roles are tied. */
  lemma TilesIgnoreOrderExactly(obs: seq<Observation>)
    ensures (forall b :: SameRows(b, obs) ==> TilesOf(b) == TilesOf(obs)) <==>
            (forall id :: id in Tiles(obs) ==> !Tied(RolesOf(OfTile(obs, id))))
  {
    hide TilesOf, Tiles, Tied, RolesOf, RoleAt, Sorted;
    if forall id :: id in Tiles(obs) ==> !Tied(RolesOf(OfTile(obs, id))) {
      forall b | SameRows(b, obs) ensures TilesOf(b) == TilesOf(obs) {
        UntiedTilesIgnoreOrder(obs, b);
      }
    } else {
      var id :| id in Tiles(obs) && Tied(RolesOf(OfTile(obs, id)));
      RoleIgnoresOrderExactly(obs, id);
      var b :| SameRows(b, obs) && RoleAt(b, id) != RoleAt(obs, id);
      OtherRoleOtherTiles(obs, b, id);
    }
  }

  lemma UntiedTilesIgnoreOrder(a: seq<Observation>, b: seq<Observation>)
    requires SameRows(b, a) && forall id :: id in Tiles(a) ==> !Tied(RolesOf(OfTile(a, id)))
    ensures TilesOf(b) == TilesOf(a)
  {
    hide TilesOf, Tiles, Tied, RolesOf, RoleAt, Sorted;
    SameTiles(a, b);
    TilesIgnoreOrder(a, b);
    TilesByPlace(a);
    TilesByPlace(b);
    var ids := Sorted(Tiles(a));
    forall k | 0 <= k < |TilesOf(a)| ensures TilesOf(a)[k] == TilesOf(b)[k] {
      assert ids[k] in ids;
      UntiedRoleIgnoresOrder(a, b, ids[k]);
    }
  }

  lemma SameTiles(a: seq<Observation>, b: seq<Observation>)
    requires SameRows(b, a)
    ensures Tiles(a) == Tiles(b)
  {
    SameMembers(a, b);
  }

  lemma OtherRoleOtherTiles(a: seq<Observation>, b: seq<Observation>, id: string)
    requires SameRows(b, a) && id in Tiles(a) && RoleAt(b, id) != RoleAt(a, id)
    ensures TilesOf(b) != TilesOf(a)
  {
    hide TilesOf, Tiles, RoleAt, Sorted;
    SameTiles(a, b);
    TilesByPlace(a);
    TilesByPlace(b);
    RoleIsNeverUnknown(a, id);
    RoleIsNeverUnknown(b, id);
    assert id in Sorted(Tiles(a));
    var k :| 0 <= k < |Sorted(Tiles(a))| && Sorted(Tiles(a))[k] == id;
    assert TilesOf(a)[k].role != TilesOf(b)[k].role;
  }

  // ---- the confidence summary ----

  function Sum(values: seq<int>): int {
    if values == [] then 0 else Sum(values[..|values| - 1]) + values[|values| - 1]
  }

  function Least(values: seq<int>): int
    requires values != []
  {
    if |values| == 1 then values[0]
    else
      var front, last := Least(values[..|values| - 1]), values[|values| - 1];
      if last < front then last else front
  }

  function Greatest(values: seq<int>): int
    requires values != []
  {
    if |values| == 1 then values[0]
    else
      var front, last := Greatest(values[..|values| - 1]), values[|values| - 1];
      if last > front then last else front
  }

  function CountBand(values: seq<int>, band: Band): nat {
    if values == [] then 0
    else CountBand(values[..|values| - 1], band) + if BandOf(values[|values| - 1]) == band then 1 else 0
  }

  datatype ConfidenceSummary = ConfidenceSummary(tiles: nat, average: int, least: int, greatest: int,
                                                 bands: map<Band, nat>)

  const BANDS: seq<Band> := [High, Medium, Low, Insufficient]

  /** `build_candidate_confidence_summary` over the tiles' confidences */
  function SummaryOf(confidences: seq<int>): ConfidenceSummary {
    ConfidenceSummary(|confidences|, Fraction(Sum(confidences), |confidences|),
                      Clamp(if confidences != [] then Least(confidences) else 0),
                      Clamp(if confidences != [] then Greatest(confidences) else 0),
                      BandCounts(confidences))
  }

  function BandCounts(confidences: seq<int>): map<Band, nat> {
    map b | b in BANDS :: CountBand(confidences, b)
  }

  lemma EveryBandListed(b: Band)
    ensures b in BANDS
  {
    assert BANDS[0] == High && BANDS[1] == Medium && BANDS[2] == Low && BANDS[3] == Insufficient;
  }

  lemma BandStep(confidences: seq<int>, i: nat)
    requires i < |confidences|
    ensures BandOf(confidences[i]) in BandCounts(confidences[..i])
    ensures BandCounts(confidences[..i + 1]) ==
            BandCounts(confidences[..i])[BandOf(confidences[i]) :=
                                         BandCounts(confidences[..i])[BandOf(confidences[i])] + 1]
  {
    assert confidences[..i + 1][..i] == confidences[..i];
    EveryBandListed(BandOf(confidences[i]));
  }

  method BuildConfidenceSummary(confidences: seq<int>) returns (s: ConfidenceSummary)
    ensures s == SummaryOf(confidences)
  {
    var bands := map b | b in BANDS :: 0;
    var sum, least, greatest := 0, 0, 0;
    assert bands == BandCounts(confidences[..0]);
    for i := 0 to |confidences|
      invariant bands == BandCounts(confidences[..i])
      invariant sum == Sum(confidences[..i])
      invariant i > 0 ==> least == Least(confidences[..i]) && greatest == Greatest(confidences[..i])
      invariant i == 0 ==> least == 0 && greatest == 0
    {
      hide BandCounts, BandOf;
      BandStep(confidences, i);
      var c := confidences[i];
      assert confidences[..i + 1][..i] == confidences[..i];
      bands := bands[BandOf(c) := bands[BandOf(c)] + 1];
      sum := sum + c;
      least := if i == 0 || c < least then c else least;
      greatest := if i == 0 || c > greatest then c else greatest;
    }
    assert confidences[..|confidences|] == confidences;
    s := ConfidenceSummary(|confidences|, Fraction(sum, |confidences|), Clamp(least), Clamp(greatest), bands);
  }

  lemma {:induction false} SumBetween(values: seq<int>)
    requires values != []
    ensures Least(values) * |values| <= Sum(values) <= Greatest(values) * |values|
  {
    if |values| > 1 {
      var front := values[..|values| - 1];
      SumBetween(front);
      var n, least, greatest := |front|, Least(values), Greatest(values);
      ScaleUp(least, Least(front), n);
      ScaleUp(Greatest(front), greatest, n);
      OneMore(n, least);
      OneMore(n, greatest);
      Commute(least, n);
      Commute(greatest, n);
      Commute(least, n + 1);
      Commute(greatest, n + 1);
    } else {
      assert values[..0] == [];
    }
  }

  lemma Commute(a: int, b: int)
    ensures a * b == b * a
  {
  }

  lemma FractionStaysBetween(sum: int, n: int, least: int, greatest: int)
    requires n > 0 && least * n <= sum <= greatest * n
    ensures Clamp(least) <= Fraction(sum, n) <= Clamp(greatest)
  {
    ScaleUp(101, least, n);
    ScaleUp(greatest, -1, n);
    ScaleUp(0, least, n);
    ScaleUp(greatest, 100, n);
    if 0 <= sum <= 100 * n {
      RoundingStaysBetween(sum, n, Clamp(least), Clamp(greatest));
    }
  }

  /** The rounded average tile confidence lies between the reported minimum and maximum, and the band counts sum to
      the number of tiles. */
  lemma AverageIsBetween(confidences: seq<int>)
    ensures var s := SummaryOf(confidences); s.least <= s.average <= s.greatest
    ensures CountBand(confidences, High) + CountBand(confidences, Medium) + CountBand(confidences, Low)
            + CountBand(confidences, Insufficient) == SummaryOf(confidences).tiles
  {
    if confidences != [] {
      SumBetween(confidences);
      FractionStaysBetween(Sum(confidences), |confidences|, Least(confidences), Greatest(confidences));
    }
    BandsCover(confidences);
  }

  lemma {:induction false} BandsCover(values: seq<int>)
    ensures CountBand(values, High) + CountBand(values, Medium) + CountBand(values, Low)
            + CountBand(values, Insufficient) == |values|
  {
    if values != [] { BandsCover(values[..|values| - 1]); }
  }

  // ---- conflict warnings on observations ----

  function ConflictWarning(tile: string): string {
    "conflicting_observations:" + tile
  }

  /** `str(observation.tile_id)`: a missing tile id reads as the text "None". */
  function TileText(o: Observation): string {
    if o.tileId.Some? then o.tileId.value else "None"
  }

  predicate Affected(o: Observation, conflicting: set<string>) {
    TileText(o) in conflicting
  }

  /** The observation with its conflict recorded and its score capped. */
  function Warned(o: Observation, conflicting: set<string>): Observation {
    if !Affected(o, conflicting) then o
    else
      var score := Clamp(if o.quality.score < 60 then o.quality.score else 60);
      o.(quality := Quality(score, BandOf(score),
                            Sorted((set w | w in o.quality.warnings) + {ConflictWarning(TileText(o))})))
  }

  function AllWarned(obs: seq<Observation>, conflicting: set<string>): seq<Observation> {
    seq(|obs|, i requires 0 <= i < |obs| => Warned(obs[i], conflicting))
  }

  /** `add_conflict_quality_warnings` */
  method AddConflictWarnings(obs: seq<Observation>, matrix: ConflictMatrix) returns (updated: seq<Observation>)
    ensures updated == AllWarned(obs, set c | c in matrix.conflicts && c.tile != "" :: c.tile)
  {
    var conflicting := set c | c in matrix.conflicts && c.tile != "" :: c.tile;
    if conflicting == {} {
      return obs;
    }
    updated := [];
    for i := 0 to |obs|
      invariant updated == AllWarned(obs, conflicting)[..i]
    {
      var o := obs[i];
      if TileText(o) in conflicting {
        var score := if o.quality.score < 60 then o.quality.score else 60;
        var warnings := (set w | w in o.quality.warnings) + {ConflictWarning(TileText(o))};
        o := o.(quality := Quality(Clamp(score), BandOf(Clamp(score)), Sorted(warnings)));
      }
      updated := updated + [o];
    }
  }

  /** An observation on a conflicting tile never keeps a high band and names the conflict; any other is untouched; a
      second pass changes nothing. */
  lemma WarnedOnce(o: Observation, conflicting: set<string>)
    ensures var u := Warned(o, conflicting);
            && Warned(u, conflicting) == u
            && (Affected(o, conflicting) ==>
                 u.quality.score <= 60 && !u.quality.band.High? && ConflictWarning(TileText(o)) in u.quality.warnings)
            && (!Affected(o, conflicting) ==> u == o)
            && u.(quality := o.quality) == o
  {
    hide ConflictWarning, Sorted;
    var u := Warned(o, conflicting);
    if Affected(o, conflicting) {
      var warnings := (set w | w in o.quality.warnings) + {ConflictWarning(TileText(o))};
      assert (set w | w in u.quality.warnings) + {ConflictWarning(TileText(o))} == warnings;
    }
  }
}
