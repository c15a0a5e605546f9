/** What the aggregation says of a tile, over the rows of that tile: its conflict, the conflict's contents and the
    candidate's status. */
module ShadowTheorems {
  import opened Base
  import opened Shadow
  import opened ShadowProfile

  // ---- when two rows clash ----

  predicate Known2(a: string, b: string) {
    a != "unknown" && b != "unknown" && a != b
  }

  predicate Measured(o: Observation) {
    o.measurementName.Some? && o.measurementName.value != "" && o.measurementValue.Some?
  }

  function Part(o: Option<string>): string {
    match o case Some(text) => ":" + text case None => ""
  }

  /** Profile, die, wafer and lot, as far as they are given. */
  function Identity(o: Observation): string {
    o.profileId + Part(o.dieId) + Part(o.waferId) + Part(o.lotId)
  }

  /** Two rows that contradict each other: in known status or known pass/fail, in known role, in what they measured, or
      in what they are about. */
  predicate RowsClash(kind: ConflictType, a: Observation, b: Observation) {
    match kind
    case StatusConflict => Known2(a.status, b.status) || Known2(a.passFail, b.passFail)
    case RoleConflict => Known2(a.role, b.role)
    case MeasurementConflict =>
      && Measured(a) && Measured(b)
      && a.measurementName.value + ":" + a.measurementValue.value != b.measurementName.value + ":"
        + b.measurementValue.value
    case IdentityConflict => Identity(a) != Identity(b)
  }

  ghost predicate Clash(kind: ConflictType, rows: seq<Observation>) {
    exists a, b :: a in rows && b in rows && RowsClash(kind, a, b)
  }

  lemma {:induction false} TwoElements<T>(s: set<T>)
    ensures |s| > 1 <==> exists x, y :: x in s && y in s && x != y
  {
    if x, y :| x in s && y in s && x != y {
      assert |s - {x}| == |s| - 1 && y in s - {x};
    }
    if |s| > 1 {
      var x :| x in s;
      var rest := s - {x};
      assert |rest| == |s| - 1;
      var y :| y in rest;
    }
  }

  /** More than one value is collected exactly when two rows give different ones. */
  lemma ValuesDiffer(f: Observation -> Option<string>, rows: seq<Observation>)
    ensures |Values(f, rows)| > 1 <==>
            exists a, b :: a in rows && b in rows && f(a).Some? && f(b).Some? && f(a).value != f(b).value
  {
    var values := ValueSet(f, rows);
    SortedDistinct(values);
    TwoElements(values);
    if |Values(f, rows)| > 1 {
      var x, y :| x in values && y in values && x != y;
      var a :| a in rows && f(a) == Some(x);
      var b :| b in rows && f(b) == Some(y);
    }
    if a, b :| a in rows && b in rows && f(a).Some? && f(b).Some? && f(a).value != f(b).value {
      assert f(a).value in values && f(b).value in values;
    }
  }

  lemma StatusClash(rows: seq<Observation>)
    ensures Clash(StatusConflict, rows) <==> |Values(StatusOf(), rows)| > 1 || |Values(PassFailOf(), rows)| > 1
  {
    hide Values;
    ValuesDiffer(StatusOf(), rows);
    ValuesDiffer(PassFailOf(), rows);
  }

  lemma RoleClash(rows: seq<Observation>)
    ensures Clash(RoleConflict, rows) <==> |Values(RoleOf(), rows)| > 1
  {
    hide Values;
    ValuesDiffer(RoleOf(), rows);
  }

  lemma MeasurementClash(rows: seq<Observation>)
    ensures Clash(MeasurementConflict, rows) <==> |Values(MeasurementOf(), rows)| > 1
  {
    hide Values;
    ValuesDiffer(MeasurementOf(), rows);
  }

  lemma IdentityIsJoined(o: Observation)
    ensures IdentityOf()(o) == Some(Identity(o))
  {
    var parts := [Some(o.profileId), o.dieId, o.waferId, o.lotId];
    assert parts[1..] == [o.dieId, o.waferId, o.lotId] && parts[1..][1..] == [o.waferId, o.lotId];
    assert parts[1..][1..][1..] == [o.lotId] && parts[1..][1..][1..][1..] == [];
    JoinedText(parts[1..][1..][1..]);
    JoinedText(parts[1..][1..]);
    JoinedText(parts[1..]);
    JoinedText(parts);
    assert Tail(parts[1..]) == Part(o.dieId) + (Part(o.waferId) + (Part(o.lotId) + ""));
    PartsAssociate(o.profileId, Part(o.dieId), Part(o.waferId), Part(o.lotId));
  }

  lemma PartsAssociate(a: string, b: string, c: string, d: string)
    ensures a + (b + (c + (d + ""))) == a + b + c + d
  {
  }

  /** The parts after the first that is given, each with its colon. */
  function Tail(parts: seq<Option<string>>): string {
    if parts == [] then "" else Part(parts[0]) + Tail(parts[1..])
  }

  predicate NoneGiven(parts: seq<Option<string>>) {
    forall k :: 0 <= k < |parts| ==> parts[k].None?
  }

  lemma NoneGivenAfter(parts: seq<Option<string>>)
    requires parts != []
    ensures NoneGiven(parts[1..]) <==> forall k :: 1 <= k < |parts| ==> parts[k].None?
    ensures NoneGiven(parts) <==> parts[0].None? && NoneGiven(parts[1..])
  {
    assert forall k :: 1 <= k < |parts| ==> parts[k] == parts[1..][k - 1];
  }

  lemma {:induction false} TailIsEmptyExactly(parts: seq<Option<string>>)
    ensures NoneGiven(parts) <==> Tail(parts) == ""
  {
    if parts != [] {
      TailIsEmptyExactly(parts[1..]);
      NoneGivenAfter(parts);
    }
  }

  /** Joining gives the first part, then every later one with a colon. */
  lemma {:induction false} JoinedText(parts: seq<Option<string>>)
    ensures parts != [] && parts[0].Some? ==> Joined(parts) == parts[0].value + Tail(parts[1..])
    ensures parts != [] && parts[0].None? ==> Joined(parts) == Joined(parts[1..])
    ensures Tail(parts) != "" ==> Tail(parts) == ":" + Joined(parts)
  {
    hide NoneGiven;
    if parts != [] {
      JoinedText(parts[1..]);
      NoneGivenAfter(parts);
      TailIsEmptyExactly(parts[1..]);
      if parts[0].Some? { assert parts[0].value + "" == parts[0].value; }
    }
  }

  lemma IdentityClash(rows: seq<Observation>)
    ensures Clash(IdentityConflict, rows) <==> |Values(IdentityOf(), rows)| > 1
  {
    hide Values, Joined, Identity;
    ValuesDiffer(IdentityOf(), rows);
    forall o: Observation ensures IdentityOf()(o) == Some(Identity(o)) { IdentityIsJoined(o); }
  }

  /** The conflict of a group of rows is the first kind of clash among them. */
  lemma KindIsFirstClash(rows: seq<Observation>)
    ensures KindOf(rows) == if Clash(StatusConflict, rows) then Some(StatusConflict)
                            else if Clash(RoleConflict, rows) then Some(RoleConflict)
                            else if Clash(MeasurementConflict, rows) then Some(MeasurementConflict)
                            else if Clash(IdentityConflict, rows) then Some(IdentityConflict) else None
  {
    hide Values, Clash;
    StatusClash(rows);
    RoleClash(rows);
    MeasurementClash(rows);
    IdentityClash(rows);
  }

  // ---- the conflict matrix ----

  /** Two rows of one tile clash. */
  ghost predicate TileClash(kind: ConflictType, obs: seq<Observation>, tile: string) {
    exists a, b :: a in obs && b in obs && a.tileId == Some(tile) && b.tileId == Some(tile) && RowsClash(kind, a, b)
  }

  /** The first kind of clash on a tile: status before role before measurement before identity. */
  ghost predicate FirstClash(kind: ConflictType, obs: seq<Observation>, tile: string) {
    && TileClash(kind, obs, tile)
    && (kind != StatusConflict ==> !TileClash(StatusConflict, obs, tile))
    && (kind != StatusConflict && kind != RoleConflict ==> !TileClash(RoleConflict, obs, tile))
    && (kind == IdentityConflict ==> !TileClash(MeasurementConflict, obs, tile))
  }

  lemma TileClashIsClash(kind: ConflictType, obs: seq<Observation>, tile: string)
    ensures TileClash(kind, obs, tile) <==> Clash(kind, OfTile(obs, tile))
  {
    hide RowsClash;
    if TileClash(kind, obs, tile) {
      var a, b :| a in obs && b in obs && a.tileId == Some(tile) && b.tileId == Some(tile) && RowsClash(kind, a, b);
      assert OnTile(a, tile) && OnTile(b, tile);
      assert a in OfTile(obs, tile) && b in OfTile(obs, tile);
    }
  }

  lemma KindOnTile(obs: seq<Observation>, tile: string)
    ensures forall kind :: KindOf(OfTile(obs, tile)) == Some(kind) <==> FirstClash(kind, obs, tile)
    ensures KindOf(OfTile(obs, tile)) == None <==> forall kind :: !TileClash(kind, obs, tile)
  {
    hide Clash, TileClash, KindOf;
    KindIsFirstClash(OfTile(obs, tile));
    TileClashIsClash(StatusConflict, obs, tile);
    TileClashIsClash(RoleConflict, obs, tile);
    TileClashIsClash(MeasurementConflict, obs, tile);
    TileClashIsClash(IdentityConflict, obs, tile);
    forall kind ensures KindOf(OfTile(obs, tile)) == None ==> !TileClash(kind, obs, tile) {
      match kind { case StatusConflict => case RoleConflict => case MeasurementConflict => case IdentityConflict => }
    }
  }

  ghost predicate ListedAs(kind: ConflictType, obs: seq<Observation>, tile: string) {
    exists c :: c in MatrixOf(obs).conflicts && c.tile == tile && c.kind == kind
  }

  lemma ConflictsAre(obs: seq<Observation>)
    ensures forall c :: c in MatrixOf(obs).conflicts <==>
              c.tile in Tiles(obs) && c in ConflictIn(c.tile, OfTile(obs, c.tile))
  {
    hide ConflictIn, Tiles, CountKinds;
    var ids := Sorted(Tiles(obs));
    FlatMapContains(ConflictAt(obs), ids);
    forall c ensures c in MatrixOf(obs).conflicts <==>
                     c.tile in Tiles(obs) && c in ConflictIn(c.tile, OfTile(obs, c.tile)) {
      if c in MatrixOf(obs).conflicts {
        var x :| x in ids && c in ConflictAt(obs)(x);
        ConflictNamesTile(x, OfTile(obs, x), c);
      }
    }
  }

  lemma ConflictNamesTile(tile: string, group: seq<Observation>, c: TileConflict)
    requires c in ConflictIn(tile, group)
    ensures c.tile == tile && KindOf(group) == Some(c.kind)
  {
    hide KindOf, Values;
  }

  lemma ClashingTileIsGrouped(kind: ConflictType, obs: seq<Observation>, tile: string)
    requires TileClash(kind, obs, tile) && tile != ""
    ensures tile in Tiles(obs)
  {
    hide RowsClash;
    var a, b :| a in obs && b in obs && a.tileId == Some(tile) && b.tileId == Some(tile) && RowsClash(kind, a, b);
    assert Truthy(a.tileId);
  }

  /** A tile is listed as a conflict of some kind exactly when that is the first kind of clash among its rows. */
  lemma ListedExactly(kind: ConflictType, obs: seq<Observation>, tile: string)
    ensures ListedAs(kind, obs, tile) <==> tile != "" && FirstClash(kind, obs, tile)
  {
    hide FirstClash, MatrixOf, KindOf, OfTile, TileClash;
    ConflictsAre(obs);
    KindOnTile(obs, tile);
    if ListedAs(kind, obs, tile) {
      var c :| c in MatrixOf(obs).conflicts && c.tile == tile && c.kind == kind;
      ConflictNamesTile(tile, OfTile(obs, tile), c);
      NoEmptyTile(obs);
    }
    if tile != "" && FirstClash(kind, obs, tile) {
      FirstIsClash(kind, obs, tile);
      ClashingTileIsGrouped(kind, obs, tile);
      var c := ConflictIn(tile, OfTile(obs, tile))[0];
      assert c in ConflictIn(tile, OfTile(obs, tile));
    }
  }

  lemma FirstIsClash(kind: ConflictType, obs: seq<Observation>, tile: string)
    requires FirstClash(kind, obs, tile)
    ensures TileClash(kind, obs, tile)
  {
  }

  /** A tile is not listed at all exactly when no two of its rows clash. */
  lemma UnlistedExactly(obs: seq<Observation>, tile: string)
    requires tile != ""
    ensures (forall kind :: !ListedAs(kind, obs, tile)) <==> (forall kind :: !TileClash(kind, obs, tile))
  {
    hide ListedAs, TileClash, KindOf, FirstClash;
    forall kind ensures ListedAs(kind, obs, tile) <==> FirstClash(kind, obs, tile) { ListedExactly(kind, obs, tile); }
    KindOnTile(obs, tile);
    var kind := KindOf(OfTile(obs, tile));
    if kind.Some? {
      assert FirstClash(kind.value, obs, tile);
      FirstIsClash(kind.value, obs, tile);
    } else {
      forall k ensures !FirstClash(k, obs, tile) {
        if FirstClash(k, obs, tile) { FirstIsClash(k, obs, tile); }
      }
    }
  }

  // ---- what a conflict lists ----

  datatype Column = StatusColumn | PassFailColumn | FailureTypeColumn | RoleColumn | SourceColumn

  /** What a row adds to a column: its value, unless it is unknown. */
  function Entry(column: Column, o: Observation): Option<string> {
    match column
    case StatusColumn => if o.status == "unknown" then None else Some(o.status)
    case PassFailColumn => if o.passFail == "unknown" then None else Some(o.passFail)
    case FailureTypeColumn => if o.failureType == "unknown" then None else Some(o.failureType)
    case RoleColumn => if o.role == "unknown" then None else Some(o.role)
    case SourceColumn => Some(o.sourceFile)
  }

  /** The values are those of the tile's rows, sorted and without repetition. */
  ghost predicate Collects(values: seq<string>, obs: seq<Observation>, tile: string, column: Column) {
    && (forall t :: t in values <==> exists o :: o in obs && o.tileId == Some(tile) && Entry(column, o) == Some(t))
    && (forall i, j :: 0 <= i < j < |values| ==> TextLeq(values[i], values[j]) && values[i] != values[j])
  }

  lemma ValuesCollect(f: Observation -> Option<string>, obs: seq<Observation>, tile: string, column: Column)
    requires forall o :: f(o) == Entry(column, o)
    ensures Collects(Values(f, OfTile(obs, tile)), obs, tile, column)
  {
    hide Entry;
    var rows := OfTile(obs, tile);
    SortedAscends(ValueSet(f, rows));
    SortedDistinct(ValueSet(f, rows));
    forall t ensures t in Values(f, rows) <==>
                     exists o :: o in obs && o.tileId == Some(tile) && Entry(column, o) == Some(t) {
      if o :| o in obs && o.tileId == Some(tile) && Entry(column, o) == Some(t) {
        assert OnTile(o, tile);
        assert o in rows && f(o) == Some(t);
      }
      if t in Values(f, rows) {
        var o :| o in rows && f(o) == Some(t);
        assert OnTile(o, tile);
      }
    }
  }

  /** A listed conflict gives the known statuses, pass/fail values, failure types and roles of its tile's rows, and
      their source files. */
  ghost predicate ListsItsRows(c: TileConflict, obs: seq<Observation>) {
    && Collects(c.statuses, obs, c.tile, StatusColumn) && Collects(c.passFail, obs, c.tile, PassFailColumn)
    && Collects(c.failureTypes, obs, c.tile, FailureTypeColumn) && Collects(c.roles, obs, c.tile, RoleColumn)
    && Collects(c.sources, obs, c.tile, SourceColumn)
  }

  lemma ConflictLists(tile: string, group: seq<Observation>, c: TileConflict)
    requires c in ConflictIn(tile, group)
    ensures c.statuses == Values(StatusOf(), group) && c.passFail == Values(PassFailOf(), group)
    ensures c.failureTypes == Values(FailureTypeOf(), group) && c.roles == Values(RoleOf(), group)
    ensures c.sources == Values(SourceOf(), group)
  {
    hide KindOf, Values;
  }

  lemma ConflictsListTheirRows(obs: seq<Observation>)
    ensures forall c :: c in MatrixOf(obs).conflicts ==> ListsItsRows(c, obs)
  {
    hide MatrixOf, Values, Collects, ConflictIn;
    ConflictsAre(obs);
    forall c | c in MatrixOf(obs).conflicts ensures ListsItsRows(c, obs) {
      ConflictLists(c.tile, OfTile(obs, c.tile), c);
      ValuesCollect(StatusOf(), obs, c.tile, StatusColumn);
      ValuesCollect(PassFailOf(), obs, c.tile, PassFailColumn);
      ValuesCollect(FailureTypeOf(), obs, c.tile, FailureTypeColumn);
      ValuesCollect(RoleOf(), obs, c.tile, RoleColumn);
      ValuesCollect(SourceOf(), obs, c.tile, SourceColumn);
    }
  }

  // ---- order and counters ----

  ghost predicate Ascends(conflicts: seq<TileConflict>) {
    forall i, j :: 0 <= i < j < |conflicts| ==>
      TextLeq(conflicts[i].tile, conflicts[j].tile) && conflicts[i].tile != conflicts[j].tile
  }

  lemma {:induction false} ConflictsAscendAlong(obs: seq<Observation>, ids: seq<string>)
    requires forall i, j :: 0 <= i < j < |ids| ==> TextLeq(ids[i], ids[j]) && ids[i] != ids[j]
    ensures Ascends(FlatMap(ConflictAt(obs), ids))
    ensures forall c :: c in FlatMap(ConflictAt(obs), ids) ==> c.tile in ids
  {
    hide ConflictIn, TextLeq, Ascends, KindOf;
    if ids == [] {
      NothingAscends();
    } else {
      var n := |ids| - 1;
      ConflictsAscendAlong(obs, ids[..n]);
      FlatMapSnoc(ConflictAt(obs), ids, n);
      assert ids[..n + 1] == ids;
      OneConflictAtMost(ids[n], OfTile(obs, ids[n]));
      var front, last := FlatMap(ConflictAt(obs), ids[..n]), ConflictIn(ids[n], OfTile(obs, ids[n]));
      forall c | c in last ensures c.tile == ids[n] { ConflictNamesTile(ids[n], OfTile(obs, ids[n]), c); }
      forall c | c in front ensures TextLeq(c.tile, ids[n]) && c.tile != ids[n] {
        var k :| 0 <= k < n && ids[..n][k] == c.tile;
        assert ids[k] == c.tile;
      }
      AscendsSnoc(front, last, ids[n]);
    }
  }

  lemma NothingAscends()
    ensures Ascends([])
  {
  }

  lemma AscendsSnoc(front: seq<TileConflict>, last: seq<TileConflict>, id: string)
    requires Ascends(front) && |last| <= 1 && forall c :: c in last ==> c.tile == id
    requires forall c :: c in front ==> TextLeq(c.tile, id) && c.tile != id
    ensures Ascends(front + last)
  {
    hide TextLeq;
    forall i, j | 0 <= i < j < |front + last|
      ensures TextLeq((front + last)[i].tile, (front + last)[j].tile)
              && (front + last)[i].tile != (front + last)[j].tile
    {
      if j == |front| { assert (front + last)[j] == last[0] && front[i] in front; }
    }
  }

  /** Each tile is listed at most once, and the tiles stand in strictly ascending order. */
  lemma ConflictsAscend(obs: seq<Observation>)
    ensures Ascends(MatrixOf(obs).conflicts)
  {
    hide Tiles, ConflictIn;
    SortedAscends(Tiles(obs));
    SortedDistinct(Tiles(obs));
    ConflictsAscendAlong(obs, Sorted(Tiles(obs)));
  }

  function CountOf(conflicts: seq<TileConflict>, kind: ConflictType): nat {
    if conflicts == [] then 0
    else CountOf(conflicts[..|conflicts| - 1], kind) + if conflicts[|conflicts| - 1].kind == kind then 1 else 0
  }

  ghost predicate Counts(c: Counters, conflicts: seq<TileConflict>) {
    && c.status == CountOf(conflicts, StatusConflict) && c.role == CountOf(conflicts, RoleConflict)
    && c.measurement == CountOf(conflicts, MeasurementConflict) && c.identity == CountOf(conflicts, IdentityConflict)
  }

  lemma CountSnoc(conflicts: seq<TileConflict>, c: TileConflict)
    ensures forall kind :: CountOf(conflicts + [c], kind) == CountOf(conflicts, kind) + if c.kind == kind then 1 else 0
  {
    assert (conflicts + [c])[..|conflicts|] == conflicts;
  }

  lemma {:induction false} KindsCount(obs: seq<Observation>, ids: seq<string>)
    ensures Counts(CountKinds(obs, ids), FlatMap(ConflictAt(obs), ids))
  {
    hide KindOf, ConflictIn, CountOf;
    if ids == [] {
      NothingCounts();
    } else {
      var n := |ids| - 1;
      KindsCount(obs, ids[..n]);
      FlatMapSnoc(ConflictAt(obs), ids, n);
      assert ids[..n + 1] == ids;
      var group := OfTile(obs, ids[n]);
      OneConflictAtMost(ids[n], group);
      var front, last := FlatMap(ConflictAt(obs), ids[..n]), ConflictIn(ids[n], group);
      if KindOf(group).Some? {
        ConflictNamesTile(ids[n], group, last[0]);
        CountSnoc(front, last[0]);
        assert last == [last[0]];
      } else {
        assert front + last == front;
      }
    }
  }

  lemma NothingCounts()
    ensures forall kind :: CountOf([], kind) == 0
  {
  }

  /** Each counter of the summary is the number of listed conflicts of its kind. */
  lemma CountersAreExact(obs: seq<Observation>)
    ensures Counts(MatrixOf(obs).summary, MatrixOf(obs).conflicts)
    ensures MatrixOf(obs).count == |MatrixOf(obs).conflicts|
  {
    hide Counts, CountKinds;
    KindsCount(obs, Sorted(Tiles(obs)));
  }

  // ---- the candidate tiles ----

  ghost predicate HasRow(obs: seq<Observation>, tile: string, status: string) {
    exists o :: o in obs && o.tileId == Some(tile) && o.status == status
  }

  ghost predicate Clashes(obs: seq<Observation>, tile: string) {
    exists kind :: TileClash(kind, obs, tile)
  }

  lemma StatusesAre(obs: seq<Observation>, tile: string, status: string)
    ensures status in Statuses(OfTile(obs, tile)) <==> HasRow(obs, tile, status)
  {
    if o :| o in obs && o.tileId == Some(tile) && o.status == status {
      assert OnTile(o, tile);
      assert o in OfTile(obs, tile);
    }
    if status in Statuses(OfTile(obs, tile)) {
      var o :| o in OfTile(obs, tile) && o.status == status;
      assert OnTile(o, tile);
    }
  }

  lemma ConflictTilesExactly(obs: seq<Observation>, tile: string)
    requires tile != ""
    ensures tile in ConflictTiles(obs) <==> Clashes(obs, tile)
  {
    hide MatrixOf, TileClash, FirstClash;
    UnlistedExactly(obs, tile);
    if tile in ConflictTiles(obs) {
      var c :| c in MatrixOf(obs).conflicts && c.tile == tile;
      assert ListedAs(c.kind, obs, tile);
    }
    if Clashes(obs, tile) {
      var kind :| ListedAs(kind, obs, tile);
    }
  }

  /** A passing and a failing row already clash. */
  lemma PassAndFailClash(obs: seq<Observation>, tile: string)
    requires HasRow(obs, tile, "pass") && HasRow(obs, tile, "fail")
    ensures Clashes(obs, tile)
  {
    var a :| a in obs && a.tileId == Some(tile) && a.status == "pass";
    var b :| b in obs && b.tileId == Some(tile) && b.status == "fail";
    assert RowsClash(StatusConflict, a, b);
    assert TileClash(StatusConflict, obs, tile);
  }

  /** The status of a tile, over its rows: degraded exactly when two rows clash or one is degraded; else blocked if a
      row fails, available if a row passes, unknown if none does either. */
  ghost predicate StatusFitsRows(status: TileStatus, obs: seq<Observation>, tile: string) {
    && (status == Degraded <==> Clashes(obs, tile) || HasRow(obs, tile, "degraded"))
    && (status == BlockedTile <==> status != Degraded && HasRow(obs, tile, "fail"))
    && (status == Available <==> status != Degraded && HasRow(obs, tile, "pass"))
    && (status == UnknownTile <==> status != Degraded && !HasRow(obs, tile, "pass") && !HasRow(obs, tile, "fail"))
  }

  lemma StatusIsExact(obs: seq<Observation>, tile: string)
    requires tile != ""
    ensures StatusFitsRows(StatusFor(Statuses(OfTile(obs, tile)), tile in ConflictTiles(obs)), obs, tile)
  {
    hide Statuses, ConflictTiles, HasRow, Clashes;
    StatusesAre(obs, tile, "degraded");
    StatusesAre(obs, tile, "fail");
    StatusesAre(obs, tile, "pass");
    ConflictTilesExactly(obs, tile);
    if HasRow(obs, tile, "pass") && HasRow(obs, tile, "fail") {
      PassAndFailClash(obs, tile);
    }
  }

  /** A candidate tile over its rows: its status, its least confidence, how many rows it has. */
  ghost predicate TileFitsRows(t: Tile, obs: seq<Observation>) {
    && StatusFitsRows(t.status, obs, t.id)
    && (exists o :: o in obs && o.tileId == Some(t.id) && o.confidence == t.confidence)
    && (forall o :: o in obs && o.tileId == Some(t.id) ==> t.confidence <= o.confidence)
    && t.evidence == Count(o => OnTile(o, t.id), obs)
  }

  lemma TileIsExact(obs: seq<Observation>, tile: string)
    requires tile in Tiles(obs)
    ensures OfTile(obs, tile) != []
    ensures TileFitsRows(TileFor(tile, OfTile(obs, tile), tile in ConflictTiles(obs)), obs)
  {
    hide StatusFitsRows, ConflictTiles, MostCommon, RolesOf, Count, Tiles, StatusFor;
    TileHasRows(obs, tile);
    StatusIsExact(obs, tile);
    LeastIsLeast(OfTile(obs, tile));
    EvidenceIsCount(obs, tile);
    var o :| o in OfTile(obs, tile) && o.confidence == LeastConfidence(OfTile(obs, tile));
    assert OnTile(o, tile);
    forall o | o in obs && o.tileId == Some(tile) ensures LeastConfidence(OfTile(obs, tile)) <= o.confidence {
      assert OnTile(o, tile);
      assert o in OfTile(obs, tile);
    }
  }

  /** Every candidate tile fits its rows, and every tile with rows is a candidate. */
  lemma TilesAreExact(obs: seq<Observation>)
    ensures forall k :: 0 <= k < |TilesOf(obs)| ==> TileFitsRows(TilesOf(obs)[k], obs)
    ensures forall tile :: (exists k :: 0 <= k < |TilesOf(obs)| && TilesOf(obs)[k].id == tile) <==>
                           tile != "" && exists o :: o in obs && o.tileId == Some(tile)
  {
    hide TileFor, TileFitsRows, ConflictTiles, RoleAt;
    var ids := Sorted(Tiles(obs));
    forall k | 0 <= k < |ids|
      ensures OfTile(obs, ids[k]) != []
      ensures TileFitsRows(TileFor(ids[k], OfTile(obs, ids[k]), ids[k] in ConflictTiles(obs)), obs)
    {
      assert ids[k] in ids;
      TileIsExact(obs, ids[k]);
    }
    OneTileEach(obs, ids);
    TilesByPlace(obs);
    forall tile
      ensures (exists k :: 0 <= k < |TilesOf(obs)| && TilesOf(obs)[k].id == tile) <==>
              tile != "" && exists o :: o in obs && o.tileId == Some(tile)
    {
      TileNamed(obs, tile);
      if tile in Tiles(obs) {
        assert tile in ids;
        var k :| 0 <= k < |ids| && ids[k] == tile;
        assert TilesOf(obs)[k].id == tile;
      }
      if k :| 0 <= k < |TilesOf(obs)| && TilesOf(obs)[k].id == tile {
        assert ids[k] in ids;
      }
    }
  }

  lemma TileNamed(obs: seq<Observation>, tile: string)
    ensures tile in Tiles(obs) <==> tile != "" && exists o :: o in obs && o.tileId == Some(tile)
  {
    if o :| o in obs && o.tileId == Some(tile) {
      assert tile != "" ==> Truthy(o.tileId);
    }
  }

  // ---- the role of a tie ----

  lemma {:induction false} FirstModeFrom(items: seq<string>, k: nat) returns (i: nat)
    requires k <= |items| && MostCommonFrom(items, k).Some?
    ensures k <= i < |items| && items[i] == MostCommonFrom(items, k).value
    ensures forall j :: k <= j < i ==> !IsMode(items, items[j])
    decreases |items| - k
  {
    hide Occurrences;
    i := k;
    if !IsMode(items, items[k]) {
      i := FirstModeFrom(items, k + 1);
    }
  }

  /** Among tied roles the one met first is chosen. */
  lemma EarliestModeIsChosen(items: seq<string>)
    requires items != []
    ensures MostCommon(items).Some?
    ensures exists i :: 0 <= i < |items| && items[i] == MostCommon(items).value && IsMode(items, items[i])
                        && forall j :: 0 <= j < i ==> !IsMode(items, items[j])
  {
    MostCommonIsMode(items);
    var i := FirstModeFrom(items, 0);
  }

  // ---- rounding ----

  /** Rounding goes to the nearest integer, and from the middle to the even one. */
  lemma RoundingIsNearest(n: int, d: int)
    requires d > 0
    ensures var r := RoundHalfEven(n, d);
      && -d <= 2 * (n - r * d) <= d
      && (2 * (n - r * d) == d || 2 * (n - r * d) == -d ==> r % 2 == 0)
  {
    var q, r := n / d, n % d;
    assert n == q * d + r;
    OneMore(q, d);
  }

  /** A field's coverage is the nearest hundredth of the share of rows that have it. */
  lemma CoverageIsNearest(obs: seq<Observation>, f: FieldName)
    requires obs != [] && f in ALL_FIELDS
    ensures f in CoverageOf(obs).fields
    ensures var c, n := CoverageOf(obs).fields[f], Count(o => Present(o, f), obs);
      -|obs| <= 2 * (100 * n - c * |obs|) <= |obs|
  {
    hide Present, ALL_FIELDS;
    CountWithin(o => Present(o, f), obs);
    RoundingIsNearest(100 * CountPresent(obs, f), |obs|);
  }

  lemma {:induction false} CountWithin(p: Observation -> bool, obs: seq<Observation>)
    ensures Count(p, obs) <= |obs|
  {
    if obs != [] { CountWithin(p, obs[..|obs| - 1]); }
  }

  /** The bands are the quarters of the scale. */
  lemma BandsAreQuarters(score: int)
    requires 0 <= score <= 100
    ensures BandOf(score) == [Insufficient, Low, Medium, High][if score == 100 then 3 else score / 25]
  {
  }

  // ---- which fields count as present ----

  predicate Stated(text: string) {
    text != "" && text != "unknown"
  }

  predicate Filled(text: Option<string>) {
    match text case Some(t) => t != "" case None => false
  }

  /** A field counts as present when it holds something other than nothing or an empty text, and, for status, role and
      pass/fail, other than "unknown". */
  lemma PresentExactly(o: Observation)
    ensures Present(o, TileIdField) <==> Filled(o.tileId)
    ensures Present(o, StatusField) <==> Stated(o.status)
    ensures Present(o, RoleField) <==> Stated(o.role)
    ensures Present(o, PassFailField) <==> Stated(o.passFail)
    ensures Present(o, MeasurementNameField) <==> Filled(o.measurementName)
    ensures Present(o, MeasurementUnitField) <==> Filled(o.measurementUnit)
    ensures Present(o, ProfileIdField) <==> o.profileId != ""
    ensures Present(o, DieIdField) <==> Filled(o.dieId)
    ensures Present(o, WaferIdField) <==> Filled(o.waferId)
    ensures Present(o, LotIdField) <==> Filled(o.lotId)
    ensures Present(o, MeasurementValueField) <==> o.measurementValue != None
    ensures Present(o, ThresholdMinField) <==> o.thresholdMin != None
    ensures Present(o, ThresholdMaxField) <==> o.thresholdMax != None
    ensures Present(o, XField) <==> o.x != None
    ensures Present(o, YField) <==> o.y != None
  {
  }

  lemma {:induction false} SumWithin(obs: seq<Observation>, fields: seq<FieldName>)
    ensures SumPresent(obs, fields) <= |obs| * |fields|
  {
    if fields != [] {
      var n := |fields| - 1;
      SumWithin(obs, fields[..n]);
      CountWithin(o => Present(o, fields[n]), obs);
      OneMore(n, |obs|);
      assert (n + 1) * |obs| == |obs| * |fields| && n * |obs| == |obs| * n;
    }
  }

  /** The present values over all fifteen fields. */
  lemma OverallCoverageIsNearest(obs: seq<Observation>)
    requires obs != []
    ensures var c, n, d := CoverageOf(obs).overall, SumPresent(obs, ALL_FIELDS), 15 * |obs|;
            -d <= 2 * (100 * n - c * d) <= d
  {
    hide Present;
    assert |ALL_FIELDS| == 15;
    SumWithin(obs, ALL_FIELDS);
    RoundingIsNearest(100 * SumPresent(obs, ALL_FIELDS), |obs| * |ALL_FIELDS|);
  }

  /** A conflict caps the score of its observations at sixty, and leaves lower scores as they are. */
  lemma ScoreIsCapped(o: Observation, conflicting: set<string>)
    requires 0 <= o.quality.score && Affected(o, conflicting)
    ensures var u := Warned(o, conflicting).quality;
      && u.score <= o.quality.score && (o.quality.score > 60 ==> u.score == 60)
      && (o.quality.score <= 60 ==> u.score == o.quality.score)
      && (forall w :: w in u.warnings <==>
            w in o.quality.warnings
            || w == "conflicting_observations:" + (match o.tileId case Some(t) => t case None => "None"))
  {
  }
}
