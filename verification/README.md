# czitools metadata extractors, modelled in Dafny

This project models two metadata-normalisation extractors of czitools. Each
reads an optional, loosely structured attribute tree (a `Box` parsed from a
CZI document) and turns it into parallel typed lists, with a default for
every missing field.

- **`CziChannelInfo`** (`channel.py`) works in two independent sections.
  - Channel names come from `Dimensions.Channels.Channel`, which may be one
    node or a list. A missing `Name` becomes `"CH1"`.
  - Display entries come from `DisplaySetting.Channels.Channel`. Each entry
    adds one dye, one colour, one `[low, high]` pair and one gamma. Defaults
    are applied field by field, and a `None` entry gets the whole default
    record.
- **`CziSampleInfo`** (`sample.py`) reads the scenes, but only when the
  dimension reader reports a scene count (`SizeS`).
  - Every scene adds one value to each of six per-well lists: index,
    position name, column id, row id, stage X and stage Y.
  - When a scene has an `ArrayName`, the name is appended and the
    name→count `Counter` is recomputed.
  - `CenterPosition` is split on `,` into the stage X and Y texts.
  - Without a scene count, the first plane's stage position is used instead.

## Modules

| file | module | contents |
|---|---|---|
| `tree.dfy` | `Tree` | The `Box` tree. It covers `Option`, what the constructors let escape (`Result` with `ValueError`, `TypeError` and `IndexError`), list elements (`Node`, `Null`, `Other`), "one node or a list" (`Cardinality`), a broken attribute chain (`Path`), and the numeric parsers (`Parsers`). |
| `defaults.dfy` | `Defaults` | Every literal default the extractors substitute. |
| `text.dfy` | `Text` | `str.split` with a one-character separator, and its inverse `Join`. |
| `tally.dfy` | `Tally` | `collections.Counter` as a map, with the `Counts` predicate it satisfies. |
| `channel.dfy` | `Channel` | `CziChannelInfo.__post_init__` and `get_channel_info`. |
| `sample.dfy` | `Sample` | `CziSampleInfo.__post_init__` and `get_well_info`. |
| `scenarios.dfy` | `Scenarios` | What the model's extractors give for concrete documents. |

How the model treats the `Box` tree and exceptions:

- **Missing attributes.** A missing attribute reads as `None`. Asking an
  attribute of `None`, or of a plain value, raises `AttributeError`.
- **What the constructors absorb.** The channel names, display and scene
  sections each catch only `AttributeError`. It ends the section and keeps
  whatever was already appended, which is why a list element that is `None`
  (for names and scenes) or a plain value stops the loop without failing.
  The plane-table fallback is the exception: it absorbs every exception
  (`except Exception`), so it never fails the constructor.
- **Other exceptions.** `ValueError`, `TypeError` and `IndexError` escape
  the constructor and are modelled as `Err`:
  - `ValueError` comes from `float`, `int` or `np.double`;
  - `TypeError` comes from `int(None)` on a `Shape` without `ColumnIndex`
    or `RowIndex`;
  - `IndexError` comes from `split(",")[1]`.
- **Model and reference.** Each loop is modelled step by step, as the source
  runs it (`DisplayLoop`, `WellLoop`). Each loop is also tied by an equation
  lemma to a reference reading (`ReadAll`, `ReadWells`): read every entry
  in order, then append all the results at once (`AppendRecords`,
  `AppendWells`).

A scene count of 0 might be expected to fall back to the plane table, but
the code takes the scene branch whenever `size_s is not None`, and the model
follows the code. A count of 0 therefore still reads the scenes
(`Scenarios.ZeroScenesStillRead`).

## Model

| member | source | states |
|---|---|---|
| `Tree.LeadingNodes` | src/czitools/metadata_tools/channel.py:60-69 | A loop that reads an attribute of every element visits exactly the run of nodes at the head of the list, in order. The element that stops it (if any) is not a node. |
| `Tree.LeadingEntries` | src/czitools/metadata_tools/channel.py:79-83 | The display loop visits nodes as `Some` and `None` elements as `None`, in order. It stops exactly at the first element that is neither. |
| `Text.Split` | src/czitools/metadata_tools/sample.py:102-103 | `split(",")` always yields at least one field, and no field contains the separator. |
| `Text.SplitCount` | src/czitools/metadata_tools/sample.py:102-103 | There is one more field than there are separators, so a text without a comma has no field `[1]`. |
| `Text.JoinSplit` | src/czitools/metadata_tools/sample.py:102-103 | Joining the fields back with the separator gives the original text: nothing is lost or reordered. |
| `Text.SplitJoin` | src/czitools/metadata_tools/sample.py:102-103 | Splitting a join of separator-free fields gives those fields back. |
| `Text.FirstFieldBeforeSeparator` | src/czitools/metadata_tools/sample.py:102-103 | Field `[0]` is the text before the first comma. There is a second field exactly when the text holds a comma, and the rest of the text after that comma is the remaining fields joined. |
| `Tally.Tally` | src/czitools/metadata_tools/sample.py:78 | `Counter(names)` maps exactly the names that occur, each to its number of occurrences. |
| `Channel.ReadNames` | src/czitools/metadata_tools/channel.py:60-69 | The name loop yields one name per leading channel node, in order: the node's `Name`, or `"CH1"` when it has none. |
| `Channel.ChannelNames` | src/czitools/metadata_tools/channel.py:47-69 | The names section gives one name per channel node it reaches (one for a single node, one per leading node of a list), with the `"CH1"` default. A missing section or broken path gives no names. |
| `Channel.ReadDisplay` | src/czitools/metadata_tools/channel.py:89-115 | A `None` entry gives the whole default record. Otherwise each field is the node's own value or its default (`"Dye-CH1"`, `"#80808000"`, 0.0, 0.5, 0.85). Reading fails, always with `ValueError`, exactly when Low, High or Gamma does not convert. |
| `Channel.AppendRecords` | src/czitools/metadata_tools/channel.py:91-110 | Appending records grows all four display lists by the same count. Everything already there is kept and the names are untouched. The appended positions hold the records in order. |
| `Channel.DisplayStep` | src/czitools/metadata_tools/channel.py:89-115 | One call grows dyes, colours, limits and gamma by exactly one each and leaves the names alone. The new position holds the entry's record, and the call fails exactly when the entry's reading fails. |
| `Channel.ReadAll` | src/czitools/metadata_tools/channel.py:79-81 | The reference reading of a run of entries succeeds exactly when every entry reads. It then has one record per entry, in order. Otherwise it fails with the error of the first entry that does not read, as the loop raises it. |
| `Channel.DisplayLoop` | src/czitools/metadata_tools/channel.py:79-81 | The step-by-step display loop succeeds exactly when every entry it reaches reads. It then grows the four display lists by one value per entry reached, keeping what they held and leaving the names alone. Its equation with the reference reading is `Channel.DisplayLoopReadsAll`. |
| `Channel.DisplayLoopReadsAll` | src/czitools/metadata_tools/channel.py:79-83 | The display loop equals the reference reading of the entries it reaches, appended to the state it started from. |
| `Channel.ExtractChannels` | src/czitools/metadata_tools/channel.py:37-87 | The names come from the names section alone, and a missing or broken channels section gives none. The four display lists have equal length, one per display entry. A missing or broken display section leaves them empty and cannot fail. |
| `Channel.ExtractChannelsReadsAll` | src/czitools/metadata_tools/channel.py:73-83 | The constructor's display lists are the reference reading of the display entries appended to empty lists, or its error. |
| `Channel.ExtractChannelsReadsDisplay` | src/czitools/metadata_tools/channel.py:73-115 | The constructor fails exactly when some display entry does not read. Otherwise display position i holds the reading of the i-th display entry. |
| `Sample.ReadWell` | src/czitools/metadata_tools/sample.py:80-109 | A scene reads exactly when every conversion succeeds. Index defaults to 1 and Name to `"P1"`. Shape gives both ids or, when missing, 0 and 0. CenterPosition gives X and Y from split fields 0 and 1 or, when missing, 0.0 and 0.0. |
| `Sample.CenterWithoutComma` | src/czitools/metadata_tools/sample.py:100-105 | A CenterPosition with no comma makes the scene unreadable. Once the index converts and Shape is missing or both of its ids convert, the failure is the `IndexError` of the split. |
| `Sample.AppendWells` | src/czitools/metadata_tools/sample.py:74-109 | All six well lists grow by the same count, keeping what they held. The array names grow by the appended names, the counter is unchanged when none are appended, and an exact counter stays exact. The fallback stage position is untouched. |
| `Sample.AppendWellsAt` | src/czitools/metadata_tools/sample.py:80-109 | On aligned lists, the positions that appending adds hold the appended wells in order: index, position name, both ids and both stage coordinates of each. |
| `Sample.WellStep` | src/czitools/metadata_tools/sample.py:72-109 | One call grows the six lists by exactly one each, and the new position holds the scene's reading. The array names grow by one exactly when ArrayName is present and are otherwise unchanged, counter included. `well_counter` stays an exact count of `well_array_names`. |
| `Sample.ReadWells` | src/czitools/metadata_tools/sample.py:48-50 | The reference reading of a run of scenes succeeds exactly when every scene reads. It then has one well per scene, in order. Otherwise it fails with the error of the first scene that does not read, as the loop raises it. |
| `Sample.WellLoop` | src/czitools/metadata_tools/sample.py:48-50 | The step-by-step scene loop succeeds exactly when every scene it reaches reads. It then grows the six well lists by one value per scene reached, keeping what they held, and an exact counter stays exact. Its equation with the reference reading is `Sample.WellLoopReadsAll`. |
| `Sample.WellLoopReadsAll` | src/czitools/metadata_tools/sample.py:48-53 | The scene loop equals the reference reading of the scenes it reaches, appended with their array names to the state it started from. |
| `Sample.ExtractSample` | src/czitools/metadata_tools/sample.py:29-70 | With a scene count (zero included), the fallback stage position stays unset. Without one, the constructor cannot fail and no well list or counter is touched. The stage position is then the first plane's X, and its Y only when X converted. |
| `Sample.SingleSceneReadsAll` | src/czitools/metadata_tools/sample.py:45-46 | A lone scene node is read exactly as a run of one scene. |
| `Sample.ExtractSampleReadsAll` | src/czitools/metadata_tools/sample.py:39-53 | On the scene path, the constructor's state is the reference reading of the scenes it reaches, appended with their array names to the empty state, or its error. |
| `Sample.ExtractSampleReadsScenes` | src/czitools/metadata_tools/sample.py:39-53 | The constructor fails exactly when some scene it reaches does not read. Otherwise the six lists are aligned, there is one well per scene, and well position i holds the reading of scene i. |
| `Sample.ExtractSampleWells` | src/czitools/metadata_tools/sample.py:39-109 | After construction the six lists have equal length, one entry per scene read. The array names are the scenes' names in order, and `well_counter` counts them exactly. |
| `Scenarios.UnnamedChannelNoDisplay` | src/czitools/metadata_tools/channel.py:53-59 | One unnamed channel and no display section give the names `["CH1"]` and empty display lists, so the name and dye counts differ. |
| `Scenarios.TwoChannels` | src/czitools/metadata_tools/channel.py:47-115 | A named and an unnamed channel, with a full and a `None` display entry. Present fields are copied and missing ones defaulted, one by one. |
| `Scenarios.UnconvertibleLow` | src/czitools/metadata_tools/channel.py:102 | A display Low that does not convert makes the constructor fail with `ValueError`. |
| `Scenarios.PlainDisplayElement` | src/czitools/metadata_tools/channel.py:79-83 | A plain element in the display list ends the loop. The entries before it are kept and the constructor does not fail. |
| `Scenarios.TwoWellPlate` | src/czitools/metadata_tools/sample.py:39-109 | Two wells of one array give two entries per list, both comma-split stage positions, the defaults for the second well, and `{"A1": 2}` as the counter. |
| `Scenarios.ZeroScenesStillRead` | src/czitools/metadata_tools/sample.py:39-46 | A scene count of 0 still reads the scenes: a lone scene with no fields gives one all-default well. |
| `Scenarios.CenterWithoutCommaFails` | src/czitools/metadata_tools/sample.py:100-103 | A CenterPosition without a comma fails the constructor with `IndexError`. |
| `Scenarios.FallbackStage` | src/czitools/metadata_tools/sample.py:55-70 | Without a scene count the scenes are ignored. The first plane gives the stage position, an X that does not convert leaves Y unset, and an unavailable table leaves both unset. |

## Left out

- Loading the document (`get_czimd_box`, the `box` library): the tree is the input value (`ChannelDocument`, `SampleDocument`).
- `has_channels` and `has_disp` are computed by the document loader, so they are inputs.
- `CziDimensions(...).SizeS`: its reader is not part of this model, so the scene count is an `Option<int>` input.
- The plane-table lookup (`get_planetable`, reading the CZI subblocks) is not modelled. Only its outcome is an input: unavailable (any exception in the lookup), or the first plane's X and Y after `float`.
- Numeric conversion: `float`, `int` and `np.double` are abstract parsers (`Parsers`), and `np.double` shares `float`'s parser. Floating-point values are reals.
- Logging, and the `verbose` flag.
- `add_metadata.py` and `microscope.py` are not part of this model. They only test for presence and copy sub-tree references.
- Render settings, RGB/greyscale classification and hex colour decoding are not implemented by the extractors modelled here.
- Leaf values that are neither text nor missing are outside the model, because every leaf field is `Option<string>`. An example is a `Low` that is itself a node, for which `float` raises `TypeError`.
- A `Shape` that is present but not a node (plain text) is outside the model; `Shape` is either missing or a node. In the source it would raise `AttributeError` after the array name, index and position name were appended. The constructor would absorb it and leave the six lists of unequal length.
- State left behind by an escaping exception: `get_channel_info` appends the dye and colour before `float(Low)` can raise, but the exception ends the constructor, so no object exists. The model returns only the error.
- The extractors mutate their lists in place, while the model is functional: each step returns a new state. Calling an extractor twice on the same document gives the same result by construction.
- Sample.ReadWell: its contract says when a scene fails to read and what a successful reading holds, but not which exception a failure raises. The order (Index, ColumnIndex, RowIndex, the `IndexError` of the split, then X, then Y) is in its body. `Sample.CenterWithoutComma` and `Scenarios.CenterWithoutCommaFails` state it for the comma case.
- Channel.ReadDisplay: its contract says a failure is a `ValueError`, but not which of Low, High and Gamma is named. The body tries them in that order.
