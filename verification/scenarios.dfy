/**
  What the model's extractors give for concrete documents: what each list
  holds for a small channel document, a small well plate, and the edge cases of the
  scene-count gate, the plane-table fallback and the CenterPosition split.
 */
module Scenarios {
  import opened Tree
  import Defaults
  import Text
  import Tally
  import Channel
  import Sample

  /** Appending a single record adds one value to each display list. */
  lemma AppendOne(s: Channel.ChannelInfo, d: Channel.DisplayRecord)
    ensures Channel.AppendRecords(s, [d]) ==
              s.(dyes := s.dyes + [d.dye], colors := s.colors + [d.color],
                 clims := s.clims + [d.clim], gamma := s.gamma + [d.gamma])
  {
  }

  /** One channel without a Name and no display section: one name, "CH1",
      and no display values, so the name and dye lists differ in length. */
  lemma UnnamedChannelNoDisplay(p: Parsers)
    ensures var doc := Channel.ChannelDocument(true, Reached(Single(Channel.ChannelNode(None))), false, Broken);
            var r := Channel.ExtractChannels(doc, p);
            && r == Ok(Channel.ChannelInfo(["CH1"], [], [], [], []))
            && |r.value.names| != |r.value.dyes|
  {
  }

  /** The two display entries of TwoChannels: EGFP with its own colour and
      limits, then None. */
  function TwoEntries(): seq<Element<Channel.DisplayNode>> {
    [Element.Node(Channel.DisplayNode(Some("EGFP"), Some("#FF00FF00"), Some("0.1"), Some("0.9"), None)), Null]
  }

  /** The lists after the EGFP entry of TwoEntries. */
  function EgfpRead(names: seq<string>): Channel.ChannelInfo {
    Channel.ChannelInfo(names, ["EGFP"], ["#FF00FF00"], [Channel.Limits(0.1, 0.9)], [0.85])
  }

  /** The lists after both entries of TwoEntries. */
  function BothRead(names: seq<string>): Channel.ChannelInfo {
    Channel.ChannelInfo(
      names, ["EGFP", "Dye-CH1"], ["#FF00FF00", "#80808000"],
      [Channel.Limits(0.1, 0.9), Channel.Limits(0.0, 0.5)], [0.85, 0.85])
  }

  /** The display step over the EGFP entry: its own dye, colour and limits,
      and the default gamma. */
  lemma EgfpStep(names: seq<string>, p: Parsers)
    requires p.toFloat("0.1") == Some(0.1) && p.toFloat("0.9") == Some(0.9)
    ensures Channel.DisplayStep(Channel.ChannelInfo(names, [], [], [], []), Some(TwoEntries()[0].node), p)
              == Ok(EgfpRead(names))
  {
    var start := Channel.ChannelInfo(names, [], [], [], []);
    var rec := Channel.DisplayRecord("EGFP", "#FF00FF00", Channel.Limits(0.1, 0.9), 0.85);
    assert Channel.ReadDisplay(Some(TwoEntries()[0].node), p) == Ok(rec);
    AppendOne(start, rec);
  }

  /** The display step over the None entry: the whole default record. */
  lemma NoneStep(names: seq<string>, p: Parsers)
    ensures Channel.DisplayStep(EgfpRead(names), None, p) == Ok(BothRead(names))
  {
    var d := Channel.DefaultRecord;
    AppendOne(EgfpRead(names), d);
    assert Channel.ReadDisplay(None, p) == Ok(d);
    assert ["EGFP"] + [d.dye] == ["EGFP", "Dye-CH1"];
    assert ["#FF00FF00"] + [d.color] == ["#FF00FF00", "#80808000"];
    assert [Channel.Limits(0.1, 0.9)] + [d.clim] == [Channel.Limits(0.1, 0.9), Channel.Limits(0.0, 0.5)];
    assert [0.85] + [d.gamma] == [0.85, 0.85];
  }

  /** The display loop over TwoEntries, from lists already holding names. */
  lemma TwoEntriesLoop(names: seq<string>, p: Parsers)
    requires p.toFloat("0.1") == Some(0.1) && p.toFloat("0.9") == Some(0.9)
    ensures Channel.DisplayLoop(Channel.ChannelInfo(names, [], [], [], []), TwoEntries(), p) ==
              Ok(Channel.ChannelInfo(
                names,
                ["EGFP", "Dye-CH1"],
                ["#FF00FF00", "#80808000"],
                [Channel.Limits(0.1, 0.9), Channel.Limits(0.0, 0.5)],
                [0.85, 0.85]))
  {
    var items := TwoEntries();
    assert items[1..] == [Null] && items[1..][1..] == [];
    var mid := EgfpRead(names);
    var last := BothRead(names);
    EgfpStep(names, p);
    NoneStep(names, p);
    assert Channel.DisplayLoop(last, items[1..][1..], p) == Ok(last);
    assert Channel.DisplayLoop(mid, items[1..], p) == Ok(last);
  }

  /** A named channel and an unnamed one give the name and "CH1". */
  lemma TwoNames()
    ensures Channel.ReadNames([Element.Node(Channel.ChannelNode(Some("DAPI"))), Element.Node(Channel.ChannelNode(None))])
              == ["DAPI", "CH1"]
  {
    var items := [Element.Node(Channel.ChannelNode(Some("DAPI"))), Element.Node(Channel.ChannelNode(None))];
    assert items[1..] == [Element.Node(Channel.ChannelNode(None))];
    assert items[1..][1..] == [];
  }

  /** A channel named DAPI and an unnamed one, with the display entries of
      TwoEntries: present fields are copied, missing ones defaulted one by
      one, the None entry gives the whole default record. */
  lemma TwoChannels(p: Parsers)
    requires p.toFloat("0.1") == Some(0.1) && p.toFloat("0.9") == Some(0.9)
    ensures
      var channels := Many([Element.Node(Channel.ChannelNode(Some("DAPI"))), Element.Node(Channel.ChannelNode(None))]);
      var doc := Channel.ChannelDocument(true, Reached(channels), true, Reached(Many(TwoEntries())));
      Channel.ExtractChannels(doc, p) == Ok(Channel.ChannelInfo(
        ["DAPI", "CH1"],
        ["EGFP", "Dye-CH1"],
        ["#FF00FF00", "#80808000"],
        [Channel.Limits(0.1, 0.9), Channel.Limits(0.0, 0.5)],
        [0.85, 0.85]))
  {
    TwoNames();
    TwoEntriesLoop(["DAPI", "CH1"], p);
  }

  /** An unconvertible Low makes the constructor fail with ValueError. */
  lemma UnconvertibleLow(p: Parsers)
    requires p.toFloat("bright") == None
    ensures
      var entry := Channel.DisplayNode(None, None, Some("bright"), None, None);
      var doc := Channel.ChannelDocument(false, Broken, true, Reached(Single(entry)));
      Channel.ExtractChannels(doc, p) == Err(ValueError("Low"))
  {
  }

  /** A plain element in the display list ends the loop; the entries before
      it are kept and the constructor does not fail. */
  lemma PlainDisplayElement(p: Parsers)
    ensures
      var doc := Channel.ChannelDocument(false, Broken, true, Reached(Many([Null, Other, Null])));
      Channel.ExtractChannels(doc, p) == Ok(Channel.ChannelInfo(
        [], ["Dye-CH1"], ["#80808000"], [Channel.Limits(0.0, 0.5)], [0.85]))
  {
    var items: seq<Element<Channel.DisplayNode>> := [Null, Other, Null];
    assert items[1..] == [Other, Null];
    AppendOne(Channel.ChannelInfo([], [], [], [], []), Channel.DefaultRecord);
  }

  /** Appending one scene's contribution adds one value to each well list. */
  lemma AppendWell(s: Sample.SampleInfo, ns: seq<string>, v: Sample.Well)
    ensures var t := Sample.AppendWells(s, ns, [v]);
            && t.wellIndices == s.wellIndices + [v.index]
            && t.wellPositionNames == s.wellPositionNames + [v.positionName]
            && t.wellColIds == s.wellColIds + [v.colId] && t.wellRowIds == s.wellRowIds + [v.rowId]
            && t.sceneStageX == s.sceneStageX + [v.stageX] && t.sceneStageY == s.sceneStageY + [v.stageY]
            && t.wellArrayNames == s.wellArrayNames + ns
            && t.imageStageX == s.imageStageX && t.imageStageY == s.imageStageY
  {
    assert Sample.Column([v], Sample.IndexOf) == [v.index];
    assert Sample.Column([v], Sample.PositionNameOf) == [v.positionName];
    assert Sample.Column([v], Sample.ColIdOf) == [v.colId];
    assert Sample.Column([v], Sample.RowIdOf) == [v.rowId];
    assert Sample.Column([v], Sample.StageXOf) == [v.stageX];
    assert Sample.Column([v], Sample.StageYOf) == [v.stageY];
  }

  /** The first well of the plate: array A1, index 0, named, with a shape,
      centred at 100.0,200.5. */
  function PlateFirst(): Sample.SceneNode {
    Sample.SceneNode(Some("A1"), Some("0"), Some("A1-1"), Some(Sample.ShapeNode(Some("0"), Some("0"))), Some("100.0,200.5"))
  }

  /** The second well of the plate: array A1, index 1, no name, no shape,
      centred at 300.0,400.5. */
  function PlateSecond(): Sample.SceneNode {
    Sample.SceneNode(Some("A1"), Some("1"), None, None, Some("300.0,400.5"))
  }

  /** The numbers the plate's texts stand for. */
  predicate PlateParsers(p: Parsers) {
    && p.toInt("0") == Some(0) && p.toInt("1") == Some(1)
    && p.toFloat("100.0") == Some(100.0) && p.toFloat("200.5") == Some(200.5)
    && p.toFloat("300.0") == Some(300.0) && p.toFloat("400.5") == Some(400.5)
  }

  /** The first field of x + "," + y is x and the second is y. */
  lemma TwoFields(x: string, y: string)
    requires ',' !in x && ',' !in y
    ensures Text.Split(x + [','] + y, ',') == [x, y]
  {
    Text.SplitAfterField(x, y, ',');
    Text.SplitSingleField(y, ',');
  }

  /** The plate's first scene reads as its well. */
  lemma PlateFirstWell(p: Parsers)
    requires PlateParsers(p)
    ensures Sample.ReadWell(PlateFirst(), p) == Ok(Sample.Well(0, "A1-1", 0, 0, 100.0, 200.5))
  {
    assert "100.0,200.5" == "100.0" + [','] + "200.5";
    TwoFields("100.0", "200.5");
  }

  /** The plate's second scene reads as its well, name and shape defaulted. */
  lemma PlateSecondWell(p: Parsers)
    requires PlateParsers(p)
    ensures Sample.ReadWell(PlateSecond(), p) == Ok(Sample.Well(1, "P1", 0, 0, 300.0, 400.5))
  {
    assert "300.0,400.5" == "300.0" + [','] + "400.5";
    TwoFields("300.0", "400.5");
  }

  /** Counter over two equal names. */
  lemma TallyTwice(a: string)
    ensures Tally.Tally([a, a]) == map[a := 2]
  {
    assert [a, a][..1] == [a];
    assert [a][..0] == [];
  }

  /** The state after the plate's first well. */
  function PlateAfterFirst(): Sample.SampleInfo {
    Sample.SampleInfo(["A1"], [0], ["A1-1"], [0], [0], map["A1" := 1], [100.0], [200.5], None, None)
  }

  /** The scene loop reads the plate's first well. */
  lemma PlateFirstStep(p: Parsers)
    requires PlateParsers(p)
    ensures Sample.WellStep(Sample.Initial, PlateFirst(), p) == Ok(PlateAfterFirst())
  {
    PlateFirstWell(p);
    AppendWell(Sample.Initial, ["A1"], Sample.Well(0, "A1-1", 0, 0, 100.0, 200.5));
    assert [] + ["A1"] == ["A1"];
    assert ["A1"][..0] == [];
  }

  /** The state after both of the plate's wells. */
  function PlateAfterSecond(): Sample.SampleInfo {
    Sample.SampleInfo(
      ["A1", "A1"], [0, 1], ["A1-1", "P1"], [0, 0], [0, 0], map["A1" := 2],
      [100.0, 300.0], [200.5, 400.5], None, None)
  }

  /** Appending the second well's values and its array name to the state
      after the first: every list grows by one and A1 is now counted twice. */
  lemma PlateSecondAppend()
    ensures Sample.AppendWells(PlateAfterFirst(), ["A1"], [Sample.Well(1, "P1", 0, 0, 300.0, 400.5)]) == PlateAfterSecond()
  {
    AppendWell(PlateAfterFirst(), ["A1"], Sample.Well(1, "P1", 0, 0, 300.0, 400.5));
    assert ["A1"] + ["A1"] == ["A1", "A1"];
    TallyTwice("A1");
  }

  /** The scene loop reads the plate's second well after the first. */
  lemma PlateSecondStep(p: Parsers)
    requires PlateParsers(p)
    ensures Sample.WellStep(PlateAfterFirst(), PlateSecond(), p) == Ok(PlateAfterSecond())
  {
    PlateSecondWell(p);
    assert Sample.NameOf(PlateSecond()) == ["A1"];
    PlateSecondAppend();
  }

  /** The scene loop over the plate's two wells. */
  lemma PlateLoop(p: Parsers)
    requires PlateParsers(p)
    ensures Sample.WellLoop(Sample.Initial, [Element.Node(PlateFirst()), Element.Node(PlateSecond())], p)
              == Ok(PlateAfterSecond())
  {
    var items := [Element.Node(PlateFirst()), Element.Node(PlateSecond())];
    assert items[1..] == [Element.Node(PlateSecond())] && items[1..][1..] == [];
    PlateFirstStep(p);
    PlateSecondStep(p);
    assert Sample.WellLoop(PlateAfterSecond(), items[1..][1..], p) == Ok(PlateAfterSecond());
    assert Sample.WellLoop(PlateAfterFirst(), items[1..], p) == Ok(PlateAfterSecond());
  }

  /** A two-well plate on the scene path: one value per well in every list,
      defaults for the second well's name and shape, both array names with
      their count, and no fallback stage position. */
  lemma TwoWellPlate(planes: Sample.PlaneTable, p: Parsers)
    requires PlateParsers(p)
    ensures
      var doc := Sample.SampleDocument(Some(2), Reached(Many([Element.Node(PlateFirst()), Element.Node(PlateSecond())])));
      Sample.ExtractSample(doc, planes, p) == Ok(PlateAfterSecond())
  {
    PlateLoop(p);
  }

  /** A scene count of zero still selects the scene path: a lone scene
      with no fields gives one all-default well. */
  lemma ZeroScenesStillRead(planes: Sample.PlaneTable, p: Parsers)
    ensures
      var doc := Sample.SampleDocument(Some(0), Reached(Single(Sample.SceneNode(None, None, None, None, None))));
      Sample.ExtractSample(doc, planes, p) == Ok(Sample.SampleInfo(
        [], [1], ["P1"], [0], [0], map[], [0.0], [0.0], None, None))
  {
    AppendWell(Sample.Initial, [], Sample.Well(1, "P1", 0, 0, 0.0, 0.0));
  }

  /** A CenterPosition without a comma fails the constructor with the
      IndexError of the split. */
  lemma CenterWithoutCommaFails(planes: Sample.PlaneTable, p: Parsers)
    ensures
      var doc := Sample.SampleDocument(Some(1), Reached(Single(Sample.SceneNode(None, None, None, None, Some("12.5")))));
      Sample.ExtractSample(doc, planes, p) == Err(IndexError("CenterPosition"))
  {
    Sample.CenterWithoutComma(Sample.SceneNode(None, None, None, None, Some("12.5")), p);
  }

  /** Without a scene count the scenes are never read, and the first plane
      gives the stage position; X failing to convert leaves Y unset too. */
  lemma FallbackStage(p: Parsers)
    ensures
      var doc := Sample.SampleDocument(None, Reached(Single(PlateFirst())));
      && Sample.ExtractSample(doc, Sample.FirstPlane(Some(5.0), Some(6.0)), p)
           == Ok(Sample.Initial.(imageStageX := Some(5.0), imageStageY := Some(6.0)))
      && Sample.ExtractSample(doc, Sample.FirstPlane(None, Some(6.0)), p) == Ok(Sample.Initial)
      && Sample.ExtractSample(doc, Sample.Unavailable, p) == Ok(Sample.Initial)
  {
  }
}
