/**
  The channel extractor: channel names from the image dimensions, and the
  display settings (dye, colour, intensity limits, gamma) of every display
  entry, recorded in four parallel lists with a default for every missing
  field.
 */
module Channel {
  import opened Tree
  import Defaults

  /** A node of Information.Image.Dimensions.Channels.Channel. */
  datatype ChannelNode = ChannelNode(name: Option<string>)

  /** A node of DisplaySetting.Channels.Channel; numeric fields are text. */
  datatype DisplayNode = DisplayNode(
    shortName: Option<string>,
    color: Option<string>,
    low: Option<string>,
    high: Option<string>,
    gamma: Option<string>)

  /** What the channel extractor reads of a document: the two presence
      flags computed by the document loader, and the two fields. */
  datatype ChannelDocument = ChannelDocument(
    hasChannels: bool,
    channels: Path<ChannelNode>,
    hasDisp: bool,
    display: Path<DisplayNode>)

  /** An intensity-limits pair [low, high]. */
  datatype Limits = Limits(low: real, high: real)

  /** The display values one display entry contributes. */
  datatype DisplayRecord = DisplayRecord(dye: string, color: string, clim: Limits, gamma: real)

  /** The extractor's state: five append-only lists. */
  datatype ChannelInfo = ChannelInfo(
    names: seq<string>,
    dyes: seq<string>,
    colors: seq<string>,
    clims: seq<Limits>,
    gamma: seq<real>)

  /** The record a None display entry contributes. */
  const DefaultRecord: DisplayRecord :=
    DisplayRecord(Defaults.DyeName, Defaults.Color, Limits(Defaults.Low, Defaults.High), Defaults.Gamma)

  /** The four display lists have one entry per display entry read. */
  predicate Aligned(s: ChannelInfo) {
    |s.dyes| == |s.colors| == |s.clims| == |s.gamma|
  }

  /** The display values recorded at position i. */
  function RecordAt(s: ChannelInfo, i: nat): DisplayRecord
    requires Aligned(s) && i < |s.dyes|
  {
    DisplayRecord(s.dyes[i], s.colors[i], s.clims[i], s.gamma[i])
  }

  /** t extends s by n display records, keeps everything s recorded, and
      leaves the names alone. */
  predicate Grows(s: ChannelInfo, t: ChannelInfo, n: nat) {
    && t.names == s.names
    && |t.dyes| == |s.dyes| + n && t.dyes[..|s.dyes|] == s.dyes
    && |t.colors| == |s.colors| + n && t.colors[..|s.colors|] == s.colors
    && |t.clims| == |s.clims| + n && t.clims[..|s.clims|] == s.clims
    && |t.gamma| == |s.gamma| + n && t.gamma[..|s.gamma|] == s.gamma
  }

  /** The channel nodes the name loop reads, in document order. */
  function ChannelEntries(doc: ChannelDocument): seq<ChannelNode> {
    if doc.hasChannels && doc.channels.Reached? then Nodes(doc.channels.leaf) else []
  }

  /** The display entries get_channel_info is called with, in document order. */
  function DisplayEntries(doc: ChannelDocument): seq<Option<DisplayNode>> {
    if doc.hasDisp && doc.display.Reached? then Entries(doc.display.leaf) else []
  }

  function NameOf(c: ChannelNode): string {
    c.name.GetOr(Defaults.ChannelName)
  }

  /** The name loop over a list of channel elements. Reading Name of a None
      or plain element raises AttributeError; the constructor absorbs it and
      keeps the names already appended. */
  function ReadNames(items: seq<Element<ChannelNode>>): (names: seq<string>)
    ensures |names| == |LeadingNodes(items)|
    ensures forall i :: 0 <= i < |names| ==>
              names[i] == LeadingNodes(items)[i].name.GetOr(Defaults.ChannelName)
  {
    if |items| == 0 then []
    else match items[0]
      case Node(c) => [NameOf(c)] + ReadNames(items[1..])
      case _ => []
  }

  /** The names section: one name per channel node read, in document order,
      the node's Name when present and "CH1" otherwise. */
  function ChannelNames(doc: ChannelDocument): (names: seq<string>)
    ensures |names| == |ChannelEntries(doc)|
    ensures forall i :: 0 <= i < |names| ==>
              names[i] == ChannelEntries(doc)[i].name.GetOr(Defaults.ChannelName)
  {
    if !doc.hasChannels then []
    else match doc.channels
      case Broken => []
      case Reached(Absent) => []
      case Reached(Single(c)) => [NameOf(c)]
      case Reached(Many(items)) => ReadNames(items)
  }

  /** Every numeric field of a display node converts. */
  predicate DisplayReads(d: DisplayNode, p: Parsers) {
    FloatReads(d.low, p) && FloatReads(d.high, p) && FloatReads(d.gamma, p)
  }

  /** An optional numeric display field, defaulted when missing. */
  function FloatField(field: Option<string>, default: real, fieldName: string, p: Parsers): Result<real> {
    match field
    case None => Ok(default)
    case Some(t) => ConvertFloat(t, fieldName, p)
  }

  /** get_channel_info's reading of one entry. Each field is defaulted on
      its own; a None entry gives the whole default record; an unconvertible
      Low, High or Gamma raises ValueError. */
  function ReadDisplay(entry: Option<DisplayNode>, p: Parsers): (r: Result<DisplayRecord>)
    ensures entry.None? ==> r == Ok(DefaultRecord)
    ensures r.Ok? <==> entry.None? || DisplayReads(entry.value, p)
    ensures r.Err? ==> r.error.ValueError?
    ensures r.Ok? && entry.Some? ==>
              && r.value.dye == entry.value.shortName.GetOr(Defaults.DyeName)
              && r.value.color == entry.value.color.GetOr(Defaults.Color)
              && FloatOr(entry.value.low, p, r.value.clim.low, Defaults.Low)
              && FloatOr(entry.value.high, p, r.value.clim.high, Defaults.High)
              && FloatOr(entry.value.gamma, p, r.value.gamma, Defaults.Gamma)
  {
    match entry
    case None => Ok(DefaultRecord)
    case Some(d) =>
      var low := FloatField(d.low, Defaults.Low, "Low", p);
      var high := FloatField(d.high, Defaults.High, "High", p);
      var gamma := FloatField(d.gamma, Defaults.Gamma, "Gamma", p);
      if low.Err? then Err(low.error)
      else if high.Err? then Err(high.error)
      else if gamma.Err? then Err(gamma.error)
      else Ok(DisplayRecord(
        d.shortName.GetOr(Defaults.DyeName),
        d.color.GetOr(Defaults.Color),
        Limits(low.value, high.value),
        gamma.value))
  }

  /** The display lists of s followed by the fields of the given records. */
  function AppendRecords(s: ChannelInfo, ds: seq<DisplayRecord>): (t: ChannelInfo)
    ensures Grows(s, t, |ds|)
    ensures Aligned(s) ==> Aligned(t) && forall i :: 0 <= i < |ds| ==> RecordAt(t, |s.dyes| + i) == ds[i]
  {
    s.(dyes := s.dyes + seq(|ds|, i requires 0 <= i < |ds| => ds[i].dye),
       colors := s.colors + seq(|ds|, i requires 0 <= i < |ds| => ds[i].color),
       clims := s.clims + seq(|ds|, i requires 0 <= i < |ds| => ds[i].clim),
       gamma := s.gamma + seq(|ds|, i requires 0 <= i < |ds| => ds[i].gamma))
  }

  /** get_channel_info: appends one value to each display list. */
  function DisplayStep(s: ChannelInfo, entry: Option<DisplayNode>, p: Parsers): (r: Result<ChannelInfo>)
    ensures r.Ok? <==> ReadDisplay(entry, p).Ok?
    ensures r.Ok? ==> Grows(s, r.value, 1)
    ensures r.Ok? && Aligned(s) ==>
              Aligned(r.value) && RecordAt(r.value, |s.dyes|) == ReadDisplay(entry, p).value
  {
    match ReadDisplay(entry, p)
    case Err(e) => Err(e)
    case Ok(d) =>
      Ok(AppendRecords(s, [d]))
  }

  /** The display loop over a list of display elements. A None element gets
      the default record; a plain element raises AttributeError, which the
      constructor absorbs, keeping what was appended. */
  function DisplayLoop(s: ChannelInfo, items: seq<Element<DisplayNode>>, p: Parsers): (r: Result<ChannelInfo>)
    ensures var es := LeadingEntries(items);
            r.Ok? <==> forall i :: 0 <= i < |es| ==> ReadDisplay(es[i], p).Ok?
    ensures r.Ok? ==> Grows(s, r.value, |LeadingEntries(items)|)
    decreases |items|
  {
    if |items| == 0 || items[0].Other? then Ok(s)
    else
      var entry := if items[0].Node? then Some(items[0].node) else None;
      assert LeadingEntries(items) == [entry] + LeadingEntries(items[1..]);
      match DisplayStep(s, entry, p)
      case Err(e) => Err(e)
      case Ok(next) =>
        var r := DisplayLoop(next, items[1..], p);
        GrowsTrans(s, next, r, 1, |LeadingEntries(items[1..])|);
        r
  }

  /** Growing by m and then by n is growing by m + n. */
  lemma GrowsTrans(a: ChannelInfo, b: ChannelInfo, c: Result<ChannelInfo>, m: nat, n: nat)
    ensures Grows(a, b, m) && c.Ok? && Grows(b, c.value, n) ==> Grows(a, c.value, m + n)
  {
    if Grows(a, b, m) && c.Ok? && Grows(b, c.value, n) {
      var t := c.value;
      assert t.dyes[..|a.dyes|] == t.dyes[..|b.dyes|][..|a.dyes|];
      assert t.colors[..|a.colors|] == t.colors[..|b.colors|][..|a.colors|];
      assert t.clims[..|a.clims|] == t.clims[..|b.clims|][..|a.clims|];
      assert t.gamma[..|a.gamma|] == t.gamma[..|b.gamma|][..|a.gamma|];
    }
  }

  /** The reference reading of a run of entries: every entry read in
      order, giving all their records or the first entry's error. */
  function ReadAll(es: seq<Option<DisplayNode>>, p: Parsers): (r: Result<seq<DisplayRecord>>)
    ensures r.Ok? <==> forall i :: 0 <= i < |es| ==> ReadDisplay(es[i], p).Ok?
    ensures r.Ok? ==> |r.value| == |es| && forall i :: 0 <= i < |es| ==> ReadDisplay(es[i], p) == Ok(r.value[i])
    ensures r.Err? ==> exists i :: && 0 <= i < |es| && ReadDisplay(es[i], p) == Err(r.error)
                                   && forall j :: 0 <= j < i ==> ReadDisplay(es[j], p).Ok?
  {
    if |es| == 0 then Ok([])
    else
      match ReadDisplay(es[0], p)
      case Err(e) => Err(e)
      case Ok(d) =>
        var rest := ReadAll(es[1..], p);
        assert forall i :: 1 <= i < |es| ==> es[i] == es[1..][i - 1];
        match rest
        case Err(e) => Err(e)
        case Ok(ds) => Ok([d] + ds)
  }

  /** Appending one record, then more, is appending them all at once. */
  lemma AppendRecordsCons(s: ChannelInfo, d: DisplayRecord, ds: seq<DisplayRecord>)
    ensures AppendRecords(AppendRecords(s, [d]), ds) == AppendRecords(s, [d] + ds)
  {
    var l := AppendRecords(AppendRecords(s, [d]), ds);
    var r := AppendRecords(s, [d] + ds);
    assert l.dyes == r.dyes;
    assert l.colors == r.colors;
    assert l.clims == r.clims;
    assert l.gamma == r.gamma;
  }

  /** The display loop is the reference reading of the entries it reaches,
      appended to the lists it started from. */
  lemma {:induction false} DisplayLoopReadsAll(s: ChannelInfo, items: seq<Element<DisplayNode>>, p: Parsers)
    ensures DisplayLoop(s, items, p) ==
              match ReadAll(LeadingEntries(items), p)
              case Err(e) => Err(e)
              case Ok(ds) => Ok(AppendRecords(s, ds))
    decreases |items|
  {
    var es := LeadingEntries(items);
    if |items| == 0 || items[0].Other? {
      assert es == [];
      assert AppendRecords(s, []) == s;
    } else {
      var entry := if items[0].Node? then Some(items[0].node) else None;
      assert es == [entry] + LeadingEntries(items[1..]);
      assert es[1..] == LeadingEntries(items[1..]);
      match ReadDisplay(entry, p)
      case Err(e) =>
      case Ok(d) =>
        var next := AppendRecords(s, [d]);
        assert DisplayStep(s, entry, p) == Ok(next);
        DisplayLoopReadsAll(next, items[1..], p);
        match ReadAll(es[1..], p) {
          case Err(e) =>
          case Ok(ds) => AppendRecordsCons(s, d, ds);
        }
    }
  }

  /** CziChannelInfo.__post_init__: the names section, then the display
      section. The two sections are read independently; a missing section
      or a broken path leaves its lists empty and does not fail. */
  function ExtractChannels(doc: ChannelDocument, p: Parsers): (r: Result<ChannelInfo>)
    ensures r.Ok? ==> r.value.names == ChannelNames(doc)
    ensures r.Ok? && (!doc.hasChannels || doc.channels.Broken?) ==> r.value.names == []
    ensures r.Ok? ==> Aligned(r.value) && |r.value.dyes| == |DisplayEntries(doc)|
    ensures DisplayEntries(doc) == [] ==> r == Ok(ChannelInfo(ChannelNames(doc), [], [], [], []))
  {
    var start := ChannelInfo(ChannelNames(doc), [], [], [], []);
    if !doc.hasDisp then Ok(start)
    else match doc.display
      case Broken => Ok(start)
      case Reached(Absent) => Ok(start)
      case Reached(Single(d)) => DisplayStep(start, Some(d), p)
      case Reached(Many(items)) => DisplayLoopReadsAll(start, items, p); DisplayLoop(start, items, p)
  }

  /** The display section of the constructor is the reference reading of
      the display entries it reaches, appended to empty lists. */
  lemma ExtractChannelsReadsAll(doc: ChannelDocument, p: Parsers)
    ensures ExtractChannels(doc, p) ==
              match ReadAll(DisplayEntries(doc), p)
              case Err(e) => Err(e)
              case Ok(ds) => Ok(AppendRecords(ChannelInfo(ChannelNames(doc), [], [], [], []), ds))
  {
    var start := ChannelInfo(ChannelNames(doc), [], [], [], []);
    if doc.hasDisp && doc.display.Reached? {
      match doc.display.leaf
      case Absent =>
        assert AppendRecords(start, []) == start;
      case Single(d) =>
        var es := DisplayEntries(doc);
        assert es == [Some(d)] && es[1..] == [];
        match ReadDisplay(Some(d), p) {
          case Err(e) =>
          case Ok(rec) =>
            assert [rec] + [] == [rec];
            assert ReadAll(es, p) == Ok([rec]);
        }
      case Many(items) =>
        DisplayLoopReadsAll(start, items, p);
    } else {
      assert AppendRecords(start, []) == start;
    }
  }

  /** The constructor fails exactly when a display entry it reads has an
      unconvertible numeric field; otherwise display position i holds the
      reading of the i-th display entry. */
  lemma ExtractChannelsReadsDisplay(doc: ChannelDocument, p: Parsers)
    ensures var r := ExtractChannels(doc, p);
            var es := DisplayEntries(doc);
            && (r.Err? <==> exists i :: 0 <= i < |es| && ReadDisplay(es[i], p).Err?)
            && (r.Ok? ==> forall i :: 0 <= i < |es| ==> ReadDisplay(es[i], p) == Ok(RecordAt(r.value, i)))
  {
    ExtractChannelsReadsAll(doc, p);
  }
}
