/**
  The sample-carrier extractor: one record per scene (well) in six parallel
  lists, the array names with their occurrence counts, and, when the
  document declares no scene dimension, the stage position of the first
  plane as a fallback.
 */
module Sample {
  import opened Tree
  import Defaults
  import Text
  import Tally

  /** The Shape node of a scene. */
  datatype ShapeNode = ShapeNode(columnIndex: Option<string>, rowIndex: Option<string>)

  /** A node of Information.Image.Dimensions.S.Scenes.Scene; numbers are text. */
  datatype SceneNode = SceneNode(
    arrayName: Option<string>,
    index: Option<string>,
    name: Option<string>,
    shape: Option<ShapeNode>,
    centerPosition: Option<string>)

  /** What the sample extractor reads of a document: the scene count SizeS
      as the dimension reader reports it, and the scene field. */
  datatype SampleDocument = SampleDocument(sizeS: Option<int>, scenes: Path<SceneNode>)

  /** The outcome of the plane-table lookup at (c=0, t=0, z=0): unavailable
      (any failure of the lookup itself), or the first plane's X and Y
      columns converted with float (None where conversion fails). */
  datatype PlaneTable = Unavailable | FirstPlane(x: Option<real>, y: Option<real>)

  /** The six per-well values one scene contributes. */
  datatype Well = Well(index: int, positionName: string, colId: int, rowId: int, stageX: real, stageY: real)

  /** The extractor's state. */
  datatype SampleInfo = SampleInfo(
    wellArrayNames: seq<string>,
    wellIndices: seq<int>,
    wellPositionNames: seq<string>,
    wellColIds: seq<int>,
    wellRowIds: seq<int>,
    wellCounter: map<string, nat>,
    sceneStageX: seq<real>,
    sceneStageY: seq<real>,
    imageStageX: Option<real>,
    imageStageY: Option<real>)

  const Initial: SampleInfo := SampleInfo([], [], [], [], [], map[], [], [], None, None)

  /** The six per-well lists have one entry per scene read. */
  predicate WellsAligned(s: SampleInfo) {
    && |s.wellIndices| == |s.wellPositionNames| == |s.wellColIds|
    && |s.wellColIds| == |s.wellRowIds| == |s.sceneStageX| == |s.sceneStageY|
  }

  /** The per-well values recorded at position i. */
  function WellAt(s: SampleInfo, i: nat): Well
    requires WellsAligned(s) && i < |s.wellIndices|
  {
    Well(s.wellIndices[i], s.wellPositionNames[i], s.wellColIds[i], s.wellRowIds[i],
         s.sceneStageX[i], s.sceneStageY[i])
  }

  /** well_counter counts well_array_names. */
  ghost predicate CounterExact(s: SampleInfo) {
    Tally.Counts(s.wellCounter, s.wellArrayNames)
  }

  /** t extends s by n wells, keeps everything s recorded, may append array
      names, and leaves the fallback stage position alone. */
  predicate WellGrows(s: SampleInfo, t: SampleInfo, n: nat) {
    && |t.wellIndices| == |s.wellIndices| + n && t.wellIndices[..|s.wellIndices|] == s.wellIndices
    && |t.wellPositionNames| == |s.wellPositionNames| + n
    && t.wellPositionNames[..|s.wellPositionNames|] == s.wellPositionNames
    && |t.wellColIds| == |s.wellColIds| + n && t.wellColIds[..|s.wellColIds|] == s.wellColIds
    && |t.wellRowIds| == |s.wellRowIds| + n && t.wellRowIds[..|s.wellRowIds|] == s.wellRowIds
    && |t.sceneStageX| == |s.sceneStageX| + n && t.sceneStageX[..|s.sceneStageX|] == s.sceneStageX
    && |t.sceneStageY| == |s.sceneStageY| + n && t.sceneStageY[..|s.sceneStageY|] == s.sceneStageY
    && t.imageStageX == s.imageStageX && t.imageStageY == s.imageStageY
  }

  /** The array name one scene contributes: its ArrayName, if present. */
  function NameOf(w: SceneNode): seq<string> {
    if w.arrayName.Some? then [w.arrayName.value] else []
  }

  /** The ArrayName values of the given scenes, in order, skipping scenes
      without one. */
  function ArrayNames(ws: seq<SceneNode>): seq<string> {
    if |ws| == 0 then [] else NameOf(ws[0]) + ArrayNames(ws[1..])
  }

  /** The scene nodes get_well_info reads, in document order: none unless
      SizeS is present. */
  function SceneEntries(doc: SampleDocument): seq<SceneNode> {
    if doc.sizeS.Some? && doc.scenes.Reached? then Nodes(doc.scenes.leaf) else []
  }

  /** A scene's Shape yields both ids: missing Shape gives 0 and 0, present
      Shape converts ColumnIndex and RowIndex. */
  ghost predicate ShapeIds(shape: Option<ShapeNode>, p: Parsers, col: int, row: int) {
    if shape.None? then col == Defaults.ColumnId && row == Defaults.RowId
    else
      && shape.value.columnIndex.Some? && p.toInt(shape.value.columnIndex.value) == Some(col)
      && shape.value.rowIndex.Some? && p.toInt(shape.value.rowIndex.value) == Some(row)
  }

  /** A scene's CenterPosition yields both stage coordinates: missing gives
      0.0 and 0.0, present converts the first and second comma fields. */
  ghost predicate StagePosition(center: Option<string>, p: Parsers, x: real, y: real) {
    if center.None? then x == Defaults.StageX && y == Defaults.StageY
    else
      var fields := Text.Split(center.value, ',');
      |fields| >= 2 && p.toFloat(fields[0]) == Some(x) && p.toFloat(fields[1]) == Some(y)
  }

  /** Every conversion get_well_info applies to the scene succeeds. */
  predicate WellReads(w: SceneNode, p: Parsers) {
    && (w.index.None? || p.toInt(w.index.value).Some?)
    && (w.shape.Some? ==>
          && w.shape.value.columnIndex.Some? && p.toInt(w.shape.value.columnIndex.value).Some?
          && w.shape.value.rowIndex.Some? && p.toInt(w.shape.value.rowIndex.value).Some?)
    && (w.centerPosition.Some? ==>
          var fields := Text.Split(w.centerPosition.value, ',');
          |fields| >= 2 && p.toFloat(fields[0]).Some? && p.toFloat(fields[1]).Some?)
  }

  /** int(shape.ColumnIndex) or int(shape.RowIndex): int(None) is a TypeError. */
  function ShapeIndex(field: Option<string>, fieldName: string, p: Parsers): Result<int> {
    match field
    case None => Err(TypeError(fieldName))
    case Some(t) => ConvertInt(t, fieldName, p)
  }

  /** get_well_info's reading of the six per-well values of one scene. */
  function ReadWell(w: SceneNode, p: Parsers): (r: Result<Well>)
    ensures r.Ok? <==> WellReads(w, p)
    ensures r.Ok? ==>
              && (w.index.None? ==> r.value.index == Defaults.WellIndex)
              && (w.index.Some? ==> p.toInt(w.index.value) == Some(r.value.index))
              && r.value.positionName == w.name.GetOr(Defaults.PositionName)
              && ShapeIds(w.shape, p, r.value.colId, r.value.rowId)
              && StagePosition(w.centerPosition, p, r.value.stageX, r.value.stageY)
  {
    var index := if w.index.None? then Ok(Defaults.WellIndex) else ConvertInt(w.index.value, "Index", p);
    var col := if w.shape.None? then Ok(Defaults.ColumnId) else ShapeIndex(w.shape.value.columnIndex, "ColumnIndex", p);
    var row := if w.shape.None? then Ok(Defaults.RowId) else ShapeIndex(w.shape.value.rowIndex, "RowIndex", p);
    if index.Err? then Err(index.error)
    else if col.Err? then Err(col.error)
    else if row.Err? then Err(row.error)
    else match w.centerPosition
      case None =>
        Ok(Well(index.value, w.name.GetOr(Defaults.PositionName), col.value, row.value,
                Defaults.StageX, Defaults.StageY))
      case Some(center) =>
        var fields := Text.Split(center, ',');
        if |fields| < 2 then Err(IndexError("CenterPosition"))
        else
          var x := ConvertFloat(fields[0], "CenterPosition", p);
          var y := ConvertFloat(fields[1], "CenterPosition", p);
          if x.Err? then Err(x.error)
          else if y.Err? then Err(y.error)
          else Ok(Well(index.value, w.name.GetOr(Defaults.PositionName), col.value, row.value,
                       x.value, y.value))
  }

  /** A CenterPosition without a comma has no second field: the scene
      cannot be read, and once its index and shape ids convert the failure
      is the IndexError of the split. */
  lemma CenterWithoutComma(w: SceneNode, p: Parsers)
    requires w.centerPosition.Some? && ',' !in w.centerPosition.value
    ensures ReadWell(w, p).Err?
    ensures && (w.index.None? || p.toInt(w.index.value).Some?)
            && (w.shape.None? ||
                  (&& w.shape.value.columnIndex.Some? && p.toInt(w.shape.value.columnIndex.value).Some?
                   && w.shape.value.rowIndex.Some? && p.toInt(w.shape.value.rowIndex.value).Some?))
            ==> ReadWell(w, p) == Err(IndexError("CenterPosition"))
  {
    Text.SplitSingleField(w.centerPosition.value, ',');
  }

  /** The six per-well values, each as a function of a well. */
  function IndexOf(v: Well): int { v.index }
  function PositionNameOf(v: Well): string { v.positionName }
  function ColIdOf(v: Well): int { v.colId }
  function RowIdOf(v: Well): int { v.rowId }
  function StageXOf(v: Well): real { v.stageX }
  function StageYOf(v: Well): real { v.stageY }

  /** One value of each well, in order. */
  function Column<U>(vs: seq<Well>, f: Well -> U): (c: seq<U>)
    ensures |c| == |vs| && forall i :: 0 <= i < |vs| ==> c[i] == f(vs[i])
  {
    if |vs| == 0 then [] else [f(vs[0])] + Column(vs[1..], f)
  }

  /** The state s extended by the array names ns and the wells vs: the
      six lists grow by the wells' values, the names by ns, and when ns is
      not empty the counter is recounted over all names. */
  function AppendWells(s: SampleInfo, ns: seq<string>, vs: seq<Well>): (t: SampleInfo)
    ensures WellGrows(s, t, |vs|)
    ensures t.wellArrayNames == s.wellArrayNames + ns
    ensures |ns| == 0 ==> t.wellCounter == s.wellCounter
    ensures CounterExact(s) ==> CounterExact(t)
    ensures WellsAligned(s) ==> WellsAligned(t)
  {
    s.(wellArrayNames := s.wellArrayNames + ns,
       wellCounter := if |ns| == 0 then s.wellCounter else Tally.Tally(s.wellArrayNames + ns),
       wellIndices := s.wellIndices + Column(vs, IndexOf),
       wellPositionNames := s.wellPositionNames + Column(vs, PositionNameOf),
       wellColIds := s.wellColIds + Column(vs, ColIdOf),
       wellRowIds := s.wellRowIds + Column(vs, RowIdOf),
       sceneStageX := s.sceneStageX + Column(vs, StageXOf),
       sceneStageY := s.sceneStageY + Column(vs, StageYOf))
  }

  /** The positions AppendWells adds hold the appended wells, in order. */
  lemma AppendWellsAt(s: SampleInfo, ns: seq<string>, vs: seq<Well>)
    requires WellsAligned(s)
    ensures var t := AppendWells(s, ns, vs);
            WellsAligned(t) && forall i :: 0 <= i < |vs| ==> WellAt(t, |s.wellIndices| + i) == vs[i]
  {
    var t := AppendWells(s, ns, vs);
    var n := |s.wellIndices|;
    forall i | 0 <= i < |vs|
      ensures WellAt(t, n + i) == vs[i]
    {
      assert t.wellIndices[n + i] == Column(vs, IndexOf)[i];
      assert t.wellPositionNames[n + i] == Column(vs, PositionNameOf)[i];
      assert t.wellColIds[n + i] == Column(vs, ColIdOf)[i];
      assert t.wellRowIds[n + i] == Column(vs, RowIdOf)[i];
      assert t.sceneStageX[n + i] == Column(vs, StageXOf)[i];
      assert t.sceneStageY[n + i] == Column(vs, StageYOf)[i];
    }
  }

  /** A column after two appends is the column after one. */
  lemma ColumnCons<U>(a: seq<U>, v: Well, vs: seq<Well>, f: Well -> U)
    ensures (a + Column([v], f)) + Column(vs, f) == a + Column([v] + vs, f)
  {
    assert ([v] + vs)[1..] == vs;
    assert Column([v], f) == [f(v)];
  }

  /** The names and the counter after two appends are those after one. */
  lemma AppendWellsConsNames(s: SampleInfo, n: seq<string>, v: Well, ns: seq<string>, vs: seq<Well>)
    ensures var l := AppendWells(AppendWells(s, n, [v]), ns, vs);
            var r := AppendWells(s, n + ns, [v] + vs);
            l.wellArrayNames == r.wellArrayNames && l.wellCounter == r.wellCounter
  {
    if |ns| == 0 {
      assert n + ns == n;
    } else {
      assert s.wellArrayNames + n + ns == s.wellArrayNames + (n + ns);
    }
  }

  /** The well lists after two appends are those after one. */
  lemma AppendWellsConsLists(s: SampleInfo, n: seq<string>, v: Well, ns: seq<string>, vs: seq<Well>)
    ensures var l := AppendWells(AppendWells(s, n, [v]), ns, vs);
            var r := AppendWells(s, n + ns, [v] + vs);
            && l.wellIndices == r.wellIndices && l.wellPositionNames == r.wellPositionNames
            && l.wellColIds == r.wellColIds && l.wellRowIds == r.wellRowIds
            && l.sceneStageX == r.sceneStageX && l.sceneStageY == r.sceneStageY
  {
    ColumnCons(s.wellIndices, v, vs, IndexOf);
    ColumnCons(s.wellPositionNames, v, vs, PositionNameOf);
    ColumnCons(s.wellColIds, v, vs, ColIdOf);
    ColumnCons(s.wellRowIds, v, vs, RowIdOf);
    ColumnCons(s.sceneStageX, v, vs, StageXOf);
    ColumnCons(s.sceneStageY, v, vs, StageYOf);
  }

  /** Appending one scene's contribution, then more, is appending them all
      at once. */
  lemma AppendWellsCons(s: SampleInfo, n: seq<string>, v: Well, ns: seq<string>, vs: seq<Well>)
    ensures AppendWells(AppendWells(s, n, [v]), ns, vs) == AppendWells(s, n + ns, [v] + vs)
  {
    AppendWellsConsNames(s, n, v, ns, vs);
    AppendWellsConsLists(s, n, v, ns, vs);
  }

  /** get_well_info: the array name (when present, with the counter
      recomputed), then one value appended to each of the six lists. */
  function WellStep(s: SampleInfo, w: SceneNode, p: Parsers): (r: Result<SampleInfo>)
    ensures r.Ok? <==> ReadWell(w, p).Ok?
    ensures r.Ok? ==> WellGrows(s, r.value, 1)
    ensures r.Ok? && WellsAligned(s) ==>
              WellsAligned(r.value) && WellAt(r.value, |s.wellIndices|) == ReadWell(w, p).value
    ensures r.Ok? && w.arrayName.Some? ==> r.value.wellArrayNames == s.wellArrayNames + [w.arrayName.value]
    ensures r.Ok? && w.arrayName.None? ==>
              r.value.wellArrayNames == s.wellArrayNames && r.value.wellCounter == s.wellCounter
    ensures r.Ok? && CounterExact(s) ==> CounterExact(r.value)
  {
    match ReadWell(w, p)
    case Err(e) => Err(e)
    case Ok(v) => Ok(AppendWells(s, NameOf(w), [v]))
  }

  /** The scene loop over a list of scene elements. Reading ArrayName of a
      None or plain element raises AttributeError; the constructor absorbs
      it and keeps the wells already appended. */
  function WellLoop(s: SampleInfo, items: seq<Element<SceneNode>>, p: Parsers): (r: Result<SampleInfo>)
    ensures var ws := LeadingNodes(items);
            r.Ok? <==> forall i :: 0 <= i < |ws| ==> ReadWell(ws[i], p).Ok?
    ensures r.Ok? ==> WellGrows(s, r.value, |LeadingNodes(items)|)
    ensures r.Ok? && CounterExact(s) ==> CounterExact(r.value)
    decreases |items|
  {
    if |items| == 0 || !items[0].Node? then Ok(s)
    else
      assert LeadingNodes(items) == [items[0].node] + LeadingNodes(items[1..]);
      match WellStep(s, items[0].node, p)
      case Err(e) => Err(e)
      case Ok(next) =>
        var r := WellLoop(next, items[1..], p);
        WellGrowsTrans(s, next, r, 1, |LeadingNodes(items[1..])|);
        r
  }

  /** Growing by m wells and then by n is growing by m + n. */
  lemma WellGrowsTrans(a: SampleInfo, b: SampleInfo, c: Result<SampleInfo>, m: nat, n: nat)
    ensures WellGrows(a, b, m) && c.Ok? && WellGrows(b, c.value, n) ==> WellGrows(a, c.value, m + n)
  {
    if WellGrows(a, b, m) && c.Ok? && WellGrows(b, c.value, n) {
      var t := c.value;
      assert t.wellIndices[..|a.wellIndices|] == t.wellIndices[..|b.wellIndices|][..|a.wellIndices|];
      assert t.wellPositionNames[..|a.wellPositionNames|]
          == t.wellPositionNames[..|b.wellPositionNames|][..|a.wellPositionNames|];
      assert t.wellColIds[..|a.wellColIds|] == t.wellColIds[..|b.wellColIds|][..|a.wellColIds|];
      assert t.wellRowIds[..|a.wellRowIds|] == t.wellRowIds[..|b.wellRowIds|][..|a.wellRowIds|];
      assert t.sceneStageX[..|a.sceneStageX|] == t.sceneStageX[..|b.sceneStageX|][..|a.sceneStageX|];
      assert t.sceneStageY[..|a.sceneStageY|] == t.sceneStageY[..|b.sceneStageY|][..|a.sceneStageY|];
    }
  }

  /** The reference reading of a run of scenes: every scene read in order,
      giving all their wells or the first scene's error. */
  function ReadWells(ws: seq<SceneNode>, p: Parsers): (r: Result<seq<Well>>)
    ensures r.Ok? <==> forall i :: 0 <= i < |ws| ==> ReadWell(ws[i], p).Ok?
    ensures r.Ok? ==> |r.value| == |ws| && forall i :: 0 <= i < |ws| ==> ReadWell(ws[i], p) == Ok(r.value[i])
    ensures r.Err? ==> exists i :: && 0 <= i < |ws| && ReadWell(ws[i], p) == Err(r.error)
                                   && forall j :: 0 <= j < i ==> ReadWell(ws[j], p).Ok?
  {
    if |ws| == 0 then Ok([])
    else
      match ReadWell(ws[0], p)
      case Err(e) => Err(e)
      case Ok(v) =>
        var rest := ReadWells(ws[1..], p);
        assert forall i :: 1 <= i < |ws| ==> ws[i] == ws[1..][i - 1];
        match rest
        case Err(e) => Err(e)
        case Ok(vs) => Ok([v] + vs)
  }

  /** The scene loop is the reference reading of the scenes it reaches,
      appended, with their array names, to the state it started from. */
  lemma {:induction false} WellLoopReadsAll(s: SampleInfo, items: seq<Element<SceneNode>>, p: Parsers)
    ensures var ws := LeadingNodes(items);
            WellLoop(s, items, p) ==
              match ReadWells(ws, p)
              case Err(e) => Err(e)
              case Ok(vs) => Ok(AppendWells(s, ArrayNames(ws), vs))
    decreases |items|
  {
    var ws := LeadingNodes(items);
    if |items| == 0 || !items[0].Node? {
      assert ws == [];
      assert AppendWells(s, [], []) == s;
    } else {
      var w := items[0].node;
      assert ws == [w] + LeadingNodes(items[1..]);
      assert ws[1..] == LeadingNodes(items[1..]);
      assert ArrayNames(ws) == NameOf(w) + ArrayNames(ws[1..]);
      match ReadWell(w, p)
      case Err(e) =>
      case Ok(v) =>
        var next := AppendWells(s, NameOf(w), [v]);
        assert WellStep(s, w, p) == Ok(next);
        WellLoopReadsAll(next, items[1..], p);
        match ReadWells(ws[1..], p) {
          case Err(e) =>
          case Ok(vs) => AppendWellsCons(s, NameOf(w), v, ArrayNames(ws[1..]), vs);
        }
    }
  }

  /** CziSampleInfo.__post_init__. A present SizeS, zero included, selects
      the scene path, which never sets the fallback stage position; an
      absent SizeS selects the plane-table fallback, which leaves every
      well list empty and never fails. */
  function ExtractSample(doc: SampleDocument, planes: PlaneTable, p: Parsers): (r: Result<SampleInfo>)
    ensures doc.sizeS.Some? && r.Ok? ==> r.value.imageStageX.None? && r.value.imageStageY.None?
    ensures doc.sizeS.None? ==>
              && r.Ok?
              && r.value.wellArrayNames == [] && r.value.wellCounter == map[]
              && r.value.wellIndices == [] && r.value.wellPositionNames == []
              && r.value.wellColIds == [] && r.value.wellRowIds == []
              && r.value.sceneStageX == [] && r.value.sceneStageY == []
              && (planes.Unavailable? ==> r.value.imageStageX.None? && r.value.imageStageY.None?)
              && (planes.FirstPlane? ==> r.value.imageStageX == planes.x)
              && (planes.FirstPlane? && planes.x.Some? ==> r.value.imageStageY == planes.y)
    ensures r.Ok? && r.value.imageStageY.Some? ==> r.value.imageStageX.Some?
  {
    if doc.sizeS.Some? then
      match doc.scenes
      case Broken => Ok(Initial)
      case Reached(Absent) => Ok(Initial)
      case Reached(Single(w)) => WellStep(Initial, w, p)
      case Reached(Many(items)) => WellLoopReadsAll(Initial, items, p); WellLoop(Initial, items, p)
    else
      match planes
      case Unavailable => Ok(Initial)
      case FirstPlane(x, y) =>
        // float(X) is assigned first; a failing X leaves Y unassigned
        Ok(Initial.(imageStageX := x, imageStageY := if x.Some? then y else None))
  }

  /** A lone scene node is read as a run of one scene. */
  lemma SingleSceneReadsAll(w: SceneNode, p: Parsers)
    ensures WellStep(Initial, w, p) ==
              match ReadWells([w], p)
              case Err(e) => Err(e)
              case Ok(vs) => Ok(AppendWells(Initial, ArrayNames([w]), vs))
  {
    assert [w][1..] == [];
    assert ReadWells([w][1..], p) == Ok([]);
    assert ArrayNames([w]) == NameOf(w) + [] == NameOf(w);
    match ReadWell(w, p) {
      case Err(e) =>
      case Ok(v) =>
        assert [v] + [] == [v];
        assert ReadWells([w], p) == Ok([v]);
    }
  }

  /** The scene section of the constructor is the reference reading of the
      scenes it reaches, appended with their array names to the empty
      state. */
  lemma ExtractSampleReadsAll(doc: SampleDocument, planes: PlaneTable, p: Parsers)
    requires doc.sizeS.Some?
    ensures var ws := SceneEntries(doc);
            ExtractSample(doc, planes, p) ==
              match ReadWells(ws, p)
              case Err(e) => Err(e)
              case Ok(vs) => Ok(AppendWells(Initial, ArrayNames(ws), vs))
  {
    var ws := SceneEntries(doc);
    if doc.scenes.Reached? {
      match doc.scenes.leaf {
        case Absent =>
          assert AppendWells(Initial, [], []) == Initial;
        case Single(w) =>
          SingleSceneReadsAll(w, p);
        case Many(items) =>
          WellLoopReadsAll(Initial, items, p);
      }
    } else {
      assert AppendWells(Initial, [], []) == Initial;
    }
  }

  /** The constructor fails exactly when a scene it reads has a value that
      does not convert; otherwise well position i holds the reading of the
      i-th scene. */
  lemma ExtractSampleReadsScenes(doc: SampleDocument, planes: PlaneTable, p: Parsers)
    ensures var r := ExtractSample(doc, planes, p);
            var ws := SceneEntries(doc);
            && (r.Err? <==> exists i :: 0 <= i < |ws| && ReadWell(ws[i], p).Err?)
            && (r.Ok? ==>
                  && WellsAligned(r.value) && |r.value.wellIndices| == |ws|
                  && forall i :: 0 <= i < |ws| ==> ReadWell(ws[i], p) == Ok(WellAt(r.value, i)))
  {
    if doc.sizeS.Some? {
      ExtractSampleReadsAll(doc, planes, p);
    }
  }

  /** When the constructor succeeds, the six well lists have one entry per
      scene read, the array names are those of the scenes in order, and the
      counter counts them exactly. */
  lemma ExtractSampleWells(doc: SampleDocument, planes: PlaneTable, p: Parsers)
    ensures var r := ExtractSample(doc, planes, p);
            r.Ok? ==>
              && WellsAligned(r.value) && CounterExact(r.value)
              && |r.value.wellIndices| == |SceneEntries(doc)|
              && r.value.wellArrayNames == ArrayNames(SceneEntries(doc))
  {
    if doc.sizeS.Some? {
      ExtractSampleReadsAll(doc, planes, p);
    } else {
      assert CounterExact(Initial);
    }
  }
}
