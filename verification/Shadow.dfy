/** Aggregation of shadow observations: conflict matrix, field coverage, tiles and scores in exact hundredths. */
module Shadow {
  import opened Base

  const UNKNOWN := "unknown"

  /** A normalised observation; numbers other than the confidence are kept as their printed text. */
  datatype Observation = Observation(
    profileId: string, dieId: Option<string>, waferId: Option<string>, lotId: Option<string>, tileId: Option<string>,
    x: Option<string>, y: Option<string>, role: string, status: string, failureType: string,
    measurementName: Option<string>, measurementValue: Option<string>, measurementUnit: Option<string>,
    thresholdMin: Option<string>, thresholdMax: Option<string>, passFail: string, sourceFile: string,
    confidence: int, quality: Quality)

  datatype Band = High | Medium | Low | Insufficient
  datatype Quality = Quality(score: int, band: Band, warnings: seq<string>)

  // ---- grouping ----

  predicate Truthy(o: Option<string>) {
    o.Some? && o.value != ""
  }

  predicate OnTile(o: Observation, tile: string) {
    o.tileId == Some(tile)
  }

  /** The observations of one tile, in row order. */
  function OfTile(obs: seq<Observation>, tile: string): (r: seq<Observation>)
    ensures forall o :: o in r <==> o in obs && OnTile(o, tile)
  {
    if obs == [] then []
    else
      var front, last := OfTile(obs[..|obs| - 1], tile), obs[|obs| - 1];
      assert forall o :: o in obs <==> o in obs[..|obs| - 1] || o == last;
      if OnTile(last, tile) then front + [last] else front
  }

  function Tiles(obs: seq<Observation>): set<string> {
    set o | o in obs && Truthy(o.tileId) :: o.tileId.value
  }

  type Groups = map<string, seq<Observation>>

  function Group(groups: Groups, tile: string): seq<Observation> {
    if tile in groups then groups[tile] else []
  }

  /** Filling the groups in one pass gives every tile its rows in order. */
  method GroupByTile(obs: seq<Observation>) returns (groups: Groups)
    ensures groups.Keys == Tiles(obs)
    ensures forall tile :: tile != "" ==> Group(groups, tile) == OfTile(obs, tile)
  {
    groups := map[];
    for i := 0 to |obs|
      invariant groups.Keys == Tiles(obs[..i])
      invariant forall tile :: tile != "" ==> Group(groups, tile) == OfTile(obs[..i], tile)
    {
      assert obs[..i + 1][..i] == obs[..i];
      TilesExtended(obs, i);
      if Truthy(obs[i].tileId) {
        var tile := obs[i].tileId.value;
        groups := groups[tile := Group(groups, tile) + [obs[i]]];
      }
    }
    assert obs[..|obs|] == obs;
  }

  lemma TilesExtended(obs: seq<Observation>, i: nat)
    requires i < |obs|
    ensures Tiles(obs[..i + 1]) == Tiles(obs[..i]) + (if Truthy(obs[i].tileId) then {obs[i].tileId.value} else {})
  {
    assert obs[..i + 1] == obs[..i] + [obs[i]];
  }

  // ---- distinct values ----

  function ValueSet(f: Observation -> Option<string>, group: seq<Observation>): set<string> {
    set o | o in group && f(o).Some? :: f(o).value
  }

  /** `_values`: the distinct values of a group, sorted. */
  function Values(f: Observation -> Option<string>, group: seq<Observation>): seq<string> {
    Sorted(ValueSet(f, group))
  }

  method CollectValues(f: Observation -> Option<string>, group: seq<Observation>) returns (values: seq<string>)
    ensures values == Values(f, group)
  {
    var found: set<string> := {};
    for i := 0 to |group|
      invariant found == ValueSet(f, group[..i])
    {
      assert group[..i + 1] == group[..i] + [group[i]];
      if f(group[i]).Some? {
        found := found + {f(group[i]).value};
      }
    }
    assert group[..|group|] == group;
    values := Sorted(found);
  }

  function Known(s: string): Option<string> {
    if s == UNKNOWN then None else Some(s)
  }

  function StatusOf(): Observation -> Option<string> { (o: Observation) => Known(o.status) }
  function PassFailOf(): Observation -> Option<string> { (o: Observation) => Known(o.passFail) }
  function FailureTypeOf(): Observation -> Option<string> { (o: Observation) => Known(o.failureType) }
  function RoleOf(): Observation -> Option<string> { (o: Observation) => Known(o.role) }
  function SourceOf(): Observation -> Option<string> { (o: Observation) => Some(o.sourceFile) }

  function MeasurementOf(): Observation -> Option<string> {
    (o: Observation) =>
      if Truthy(o.measurementName) && o.measurementValue.Some?
        then Some(o.measurementName.value + ":" + o.measurementValue.value) else None
  }

  /** `":".join` of the parts that are present. */
  function Joined(parts: seq<Option<string>>): string {
    if parts == [] then ""
    else if parts[0].None? then Joined(parts[1..])
    else
      var rest := Joined(parts[1..]);
      if forall k :: 1 <= k < |parts| ==> parts[k].None? then parts[0].value else parts[0].value + ":" + rest
  }

  function IdentityOf(): Observation -> Option<string> {
    (o: Observation) => Some(Joined([Some(o.profileId), o.dieId, o.waferId, o.lotId]))
  }

  // ---- conflicts ----

  datatype ConflictType = StatusConflict | RoleConflict | MeasurementConflict | IdentityConflict

  datatype TileConflict = TileConflict(
    tile: string, statuses: seq<string>, passFail: seq<string>, failureTypes: seq<string>, roles: seq<string>,
    sources: seq<string>, kind: ConflictType)

  function KindOf(group: seq<Observation>): Option<ConflictType> {
    if |Values(StatusOf(), group)| > 1 || |Values(PassFailOf(), group)| > 1 then Some(StatusConflict)
    else if |Values(RoleOf(), group)| > 1 then Some(RoleConflict)
    else if |Values(MeasurementOf(), group)| > 1 then Some(MeasurementConflict)
    else if |Values(IdentityOf(), group)| > 1 then Some(IdentityConflict)
    else None
  }

  function ConflictAt(obs: seq<Observation>): string -> seq<TileConflict> {
    (tile: string) => ConflictIn(tile, OfTile(obs, tile))
  }

  function ConflictIn(tile: string, group: seq<Observation>): seq<TileConflict> {
    var kind := KindOf(group);
    if kind.None? then []
    else [TileConflict(tile, Values(StatusOf(), group), Values(PassFailOf(), group), Values(FailureTypeOf(), group),
                       Values(RoleOf(), group), Values(SourceOf(), group), kind.value)]
  }

  datatype Counters = Counters(status: nat, role: nat, measurement: nat, identity: nat) {
    function Total(): nat { status + role + measurement + identity }

    function Bump(kind: Option<ConflictType>): Counters {
      match kind
      case None => this
      case Some(StatusConflict) => this.(status := status + 1)
      case Some(RoleConflict) => this.(role := role + 1)
      case Some(MeasurementConflict) => this.(measurement := measurement + 1)
      case Some(IdentityConflict) => this.(identity := identity + 1)
    }
  }

  function CountKinds(obs: seq<Observation>, tiles: seq<string>): Counters {
    if tiles == [] then Counters(0, 0, 0, 0)
    else CountKinds(obs, tiles[..|tiles| - 1]).Bump(KindOf(OfTile(obs, tiles[|tiles| - 1])))
  }

  datatype ConflictMatrix = ConflictMatrix(count: nat, conflicts: seq<TileConflict>, summary: Counters)

  /** `build_conflict_matrix` */
  function MatrixOf(obs: seq<Observation>): ConflictMatrix {
    var tiles := Sorted(Tiles(obs));
    var conflicts := FlatMap(ConflictAt(obs), tiles);
    ConflictMatrix(|conflicts|, conflicts, CountKinds(obs, tiles))
  }

  method ClassifyTile(tile: string, group: seq<Observation>, summary: Counters)
    returns (found: seq<TileConflict>, summary': Counters)
    ensures found == ConflictIn(tile, group) && summary' == summary.Bump(KindOf(group))
  {
    hide Values, StatusOf, PassFailOf, RoleOf, MeasurementOf, IdentityOf, FailureTypeOf, SourceOf;
    var statuses := CollectValues(StatusOf(), group);
    var passFail := CollectValues(PassFailOf(), group);
    var roles := CollectValues(RoleOf(), group);
    var measurements := CollectValues(MeasurementOf(), group);
    var identities := CollectValues(IdentityOf(), group);
    var kind: Option<ConflictType> := None;
    summary' := summary;
    if |statuses| > 1 || |passFail| > 1 {
      kind := Some(StatusConflict);
      summary' := summary'.(status := summary'.status + 1);
    } else if |roles| > 1 {
      kind := Some(RoleConflict);
      summary' := summary'.(role := summary'.role + 1);
    } else if |measurements| > 1 {
      kind := Some(MeasurementConflict);
      summary' := summary'.(measurement := summary'.measurement + 1);
    } else if |identities| > 1 {
      kind := Some(IdentityConflict);
      summary' := summary'.(identity := summary'.identity + 1);
    }
    found := [];
    if kind.Some? {
      var failureTypes := CollectValues(FailureTypeOf(), group);
      var sources := CollectValues(SourceOf(), group);
      found := [TileConflict(tile, statuses, passFail, failureTypes, roles, sources, kind.value)];
    }
  }

  method BuildConflictMatrix(obs: seq<Observation>) returns (matrix: ConflictMatrix)
    ensures matrix == MatrixOf(obs)
  {
    hide ConflictIn, KindOf, Tiles;
    var groups := GroupByTile(obs);
    var tiles := Sorted(groups.Keys);
    var conflicts: seq<TileConflict> := [];
    var summary := Counters(0, 0, 0, 0);
    NoEmptyTile(obs);
    for i := 0 to |tiles|
      invariant conflicts == FlatMap(ConflictAt(obs), tiles[..i])
      invariant summary == CountKinds(obs, tiles[..i])
    {
      FlatMapSnoc(ConflictAt(obs), tiles, i);
      assert tiles[..i + 1][..i] == tiles[..i];
      assert tiles[i] in tiles;
      var found;
      found, summary := ClassifyTile(tiles[i], Group(groups, tiles[i]), summary);
      conflicts := conflicts + found;
    }
    assert tiles[..|tiles|] == tiles;
    matrix := ConflictMatrix(|conflicts|, conflicts, summary);
  }

  lemma NoEmptyTile(obs: seq<Observation>)
    ensures "" !in Tiles(obs)
  {
  }

  // ---- order independence of the matrix ----

  ghost predicate SameRows(a: seq<Observation>, b: seq<Observation>) {
    multiset(a) == multiset(b)
  }

  lemma SameMembers(a: seq<Observation>, b: seq<Observation>)
    requires SameRows(a, b)
    ensures forall o :: o in a <==> o in b
  {
    forall o ensures o in a <==> o in b {
      assert o in a <==> o in multiset(a);
      assert o in b <==> o in multiset(b);
    }
  }

  lemma ValuesIgnoreOrder(f: Observation -> Option<string>, a: seq<Observation>, b: seq<Observation>)
    requires forall o :: o in a <==> o in b
    ensures Values(f, a) == Values(f, b)
  {
    assert ValueSet(f, a) == ValueSet(f, b);
  }

  lemma ConflictIgnoresOrder(tile: string, a: seq<Observation>, b: seq<Observation>)
    requires forall o :: o in a <==> o in b
    ensures ConflictIn(tile, a) == ConflictIn(tile, b) && KindOf(a) == KindOf(b)
  {
    hide Values;
    ValuesIgnoreOrder(StatusOf(), a, b);
    ValuesIgnoreOrder(PassFailOf(), a, b);
    ValuesIgnoreOrder(RoleOf(), a, b);
    ValuesIgnoreOrder(MeasurementOf(), a, b);
    ValuesIgnoreOrder(IdentityOf(), a, b);
    ValuesIgnoreOrder(FailureTypeOf(), a, b);
    ValuesIgnoreOrder(SourceOf(), a, b);
  }

  lemma {:induction false} KindsIgnoreOrder(a: seq<Observation>, b: seq<Observation>, tiles: seq<string>)
    requires forall o :: o in a <==> o in b
    ensures CountKinds(a, tiles) == CountKinds(b, tiles)
    ensures FlatMap(ConflictAt(a), tiles) == FlatMap(ConflictAt(b), tiles)
  {
    hide KindOf, ConflictIn;
    if tiles != [] {
      var n := |tiles| - 1;
      KindsIgnoreOrder(a, b, tiles[..n]);
      ConflictIgnoresOrder(tiles[n], OfTile(a, tiles[n]), OfTile(b, tiles[n]));
      FlatMapSnoc(ConflictAt(a), tiles, n);
      FlatMapSnoc(ConflictAt(b), tiles, n);
      assert tiles[..n + 1] == tiles;
    }
  }

  /** Permuting the observations leaves the conflict matrix unchanged; so does repeating rows. */
  lemma MatrixIgnoresOrder(a: seq<Observation>, b: seq<Observation>)
    requires SameRows(a, b)
    ensures MatrixOf(a) == MatrixOf(b)
  {
    hide CountKinds, FlatMap;
    SameMembers(a, b);
    assert Tiles(a) == Tiles(b);
    KindsIgnoreOrder(a, b, Sorted(Tiles(a)));
  }

  lemma BumpAddsOne(c: Counters, kind: Option<ConflictType>)
    ensures c.Bump(kind).Total() == c.Total() + if kind.Some? then 1 else 0
  {
  }

  lemma OneConflictAtMost(tile: string, group: seq<Observation>)
    ensures |ConflictIn(tile, group)| == if KindOf(group).Some? then 1 else 0
  {
    hide KindOf, Values;
  }

  lemma {:induction false} KindsTotal(obs: seq<Observation>, tiles: seq<string>)
    ensures CountKinds(obs, tiles).Total() == |FlatMap(ConflictAt(obs), tiles)|
  {
    hide KindOf, ConflictIn, FlatMap, Counters.Bump, Counters.Total;
    if tiles == [] {
      FlatMapEmpty(ConflictAt(obs), tiles);
      NoCounters();
    } else {
      var n := |tiles| - 1;
      KindsTotal(obs, tiles[..n]);
      FlatMapSnoc(ConflictAt(obs), tiles, n);
      assert tiles[..n + 1] == tiles;
      OneConflictAtMost(tiles[n], OfTile(obs, tiles[n]));
      BumpAddsOne(CountKinds(obs, tiles[..n]), KindOf(OfTile(obs, tiles[n])));
    }
  }

  lemma NoCounters()
    ensures Counters(0, 0, 0, 0).Total() == 0
  {
  }

  /** The conflict count is the sum of the four summary counters. */
  lemma CountIsSumOfCounters(obs: seq<Observation>)
    ensures MatrixOf(obs).count == MatrixOf(obs).summary.Total()
  {
    KindsTotal(obs, Sorted(Tiles(obs)));
  }
}
