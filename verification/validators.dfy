/** The form-field validators: each returns "" for a valid value and a fixed,
    non-empty reason otherwise. */
module Validators {
  import opened Common

  const FieldRequired := "Field Required"
  const InvalidYear := "Invalid Year"
  const TitleTooLong := "Title must be less than 300 characters"
  const FilenameTooLong := "Filename must be less than 300 characters"
  const CopyrightTooLong := "Copyright must be less than 500 characters"

  /** `YEAR`: `parsed` is what `parseInt` makes of the text (`None` for NaN)
      and `currentYear` the year of the client's clock. */
  function Year(parsed: Option<int>, currentYear: int): (r: string)
    ensures r == "" <==> parsed.Some? && 1000 <= parsed.value <= currentYear
    ensures r == "" || r == InvalidYear
  {
    if parsed.None? then InvalidYear
    else if parsed.value < 1000 || parsed.value > currentYear then InvalidYear
    else ""
  }

  /** `METADATA` accepts every selection. */
  function Metadata(ids: seq<int>): (r: string)
    ensures r == ""
  {
    ""
  }

  /** `TITLE`: required, at most 300 characters. */
  function Title(title: string): (r: string)
    ensures r == FieldRequired <==> title == ""
    ensures r == TitleTooLong <==> |title| > 300
    ensures r == "" <==> 0 < |title| <= 300
  {
    if title == "" then FieldRequired
    else if |title| > 300 then TitleTooLong
    else ""
  }

  /** `DESCRIPTION`: required. */
  function Description(description: string): (r: string)
    ensures r == FieldRequired <==> description == ""
    ensures r == "" <==> description != ""
  {
    if description == "" then FieldRequired else ""
  }

  /** `FILE`: `fileName` is the chosen file's name, `None` when no file is chosen. */
  function File(fileName: Option<string>): (r: string)
    ensures r == FieldRequired <==> fileName.None?
    ensures r == FilenameTooLong <==> fileName.Some? && |fileName.value| > 300
    ensures r == "" <==> fileName.Some? && |fileName.value| <= 300
  {
    if fileName.None? then FieldRequired
    else if |fileName.value| > 300 then FilenameTooLong
    else ""
  }

  /** `COPYRIGHT`: fewer than 500 characters. */
  function Copyright(copyright: string): (r: string)
    ensures r == "" <==> |copyright| < 500
    ensures r == "" || r == CopyrightTooLong
  {
    if |copyright| >= 500 then CopyrightTooLong else ""
  }

  /** `RIGHTS_STATEMENT` accepts every value. */
  function RightsStatement(rightsStatement: string): (r: string)
    ensures r == ""
  {
    ""
  }

  /** The boundary values: a 300-character title and a 499-character
      copyright pass, a 500-character copyright does not. */
  lemma Boundaries(title: string, copyright: string)
    requires |title| == 300 && |copyright| == 499
    ensures Title(title) == "" && Copyright(copyright) == ""
    ensures Copyright(copyright + "x") == CopyrightTooLong
  {
  }
}
