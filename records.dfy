/** A match record as it appears in the `matches` array of the dataset. */
module Records {
  import opened Wrappers

  /**
   * Every field may be missing from the JSON document. `ts` is the kickoff
   * time in epoch seconds; `date` and `time` are passed through untouched.
   */
  datatype MatchRecord = MatchRecord(
    ts: Option<int>,
    date: Option<string>,
    time: Option<string>,
    league: Option<string>,
    home: Option<string>,
    away: Option<string>)

  /** `m.ts || 0`: a missing kickoff time counts as 0. */
  function TsOrZero(m: MatchRecord): int {
    m.ts.GetOr(0)
  }

  /** `(field || '')`: a missing text field counts as the empty string. */
  function TextOrEmpty(field: Option<string>): string {
    field.GetOr("")
  }

  /** `field || fallback`: JavaScript truthiness, so the empty string is replaced too. */
  function TextOr(field: Option<string>, fallback: string): (r: string)
    ensures field.Some? && field.value != "" ==> r == field.value
    ensures (field.None? || field.value == "") ==> r == fallback
  {
    match field
    case Some(s) => if s != "" then s else fallback
    case None => fallback
  }
}
