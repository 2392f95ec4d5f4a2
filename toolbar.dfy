/** The colour choices of the toolbar. */
module Toolbar {
  import opened Wrappers

  /** The colour a palette button selects: red and blue by id, every other
      button yellow. */
  function PaletteColour(buttonId: string): (c: string)
    ensures (c == "#ff0000") == (buttonId == "red")
    ensures (c == "#0000ff") == (buttonId == "blue")
    ensures (c == "#ffff00") == (buttonId != "red" && buttonId != "blue")
  {
    if buttonId == "red" then "#ff0000"
    else if buttonId == "blue" then "#0000ff"
    else "#ffff00"
  }

  /** The colour `changeColour` stores. Its argument is optional and tested
      for truthiness, so a missing argument and the empty string both fall
      back to the colour picker's value. */
  function ChosenColour(colour: Option<string>, pickerValue: string): (c: string)
    ensures colour.Some? && colour.value != "" ==> c == colour.value
    ensures colour.None? || colour.value == "" ==> c == pickerValue
  {
    if colour.Some? && colour.value != "" then colour.value else pickerValue
  }

  /** A palette button always sets its own colour, whatever the picker holds. */
  lemma PaletteIgnoresPicker(buttonId: string, pickerValue: string)
    ensures ChosenColour(Some(PaletteColour(buttonId)), pickerValue) == PaletteColour(buttonId)
    ensures ChosenColour(Some(PaletteColour(buttonId)), pickerValue) in {"#ff0000", "#0000ff", "#ffff00"}
  {
  }

  /** With no argument, or with an empty one, the picker's value is taken. */
  lemma FalsyColourTakesPicker(colour: Option<string>, pickerValue: string)
    ensures ChosenColour(colour, pickerValue) == pickerValue <==>
            (colour.None? || colour.value == "" || colour.value == pickerValue)
  {
  }
}
