/**
  The default-substitution table: the value each extractor records when a
  field of the attribute tree is missing. Every extractor reads its defaults
  from here, so one field has one default.
 */
module Defaults {

  // channel.py: a channel without a Name is "CH1", whatever its position
  const ChannelName: string := "CH1"

  // channel.py: display-setting fields
  const DyeName: string := "Dye-CH1"
  const Color: string := "#80808000"
  const Low: real := 0.0
  const High: real := 0.5
  const Gamma: real := 0.85

  // sample.py: per-well fields
  const WellIndex: int := 1
  const PositionName: string := "P1"
  const ColumnId: int := 0
  const RowId: int := 0
  const StageX: real := 0.0
  const StageY: real := 0.0
}
