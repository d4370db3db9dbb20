/**
 * The mapping from the level a user picks to the question band it draws from.
 */
module Difficulty {
  import opened Wrappers
  import opened Text

  /** Why no band was found: `int()` raised on the input, or the integer is below 1. */
  datatype BandError = NotAnInteger | InvalidLevel

  const Confirmation: string := "confirmation"

  /** The inputs, after `strip().lower()`, that select the confirmation band. */
  const ConfirmationAliases: set<string> := {"confirmation", "confirm", "c"}

  /** Every band `level_to_band` can return. */
  const Bands: set<string> := {Confirmation, "l1-4", "l5-7", "l8-10", "l12-14", "l15-16", "l17"}

  /** The band of an integer level; `None` for levels below 1. Level 11 falls in "l12-14". */
  function BandOfLevel(level: int): (r: Option<string>)
    ensures r.None? <==> level <= 0
    ensures r.Some? ==> r.value in Bands && r.value != Confirmation
  {
    if 1 <= level <= 4 then Some("l1-4")
    else if 5 <= level <= 7 then Some("l5-7")
    else if 8 <= level <= 10 then Some("l8-10")
    else if 11 <= level <= 14 then Some("l12-14")
    else if 15 <= level <= 16 then Some("l15-16")
    else if level >= 17 then Some("l17")
    else None
  }

  /** `level_to_band(selected_level)`. */
  function LevelToBand(selected: string): (r: Result<string, BandError>)
    ensures r.Ok? ==> r.value in Bands
    ensures r.Ok? && r.value == Confirmation <==> Lower(Trim(selected)) in ConfirmationAliases
  {
    var s := Lower(Trim(selected));
    if s in ConfirmationAliases then Ok(Confirmation)
    else
      match ParseInt(s)
      case None => Err(NotAnInteger)
      case Some(level) =>
        match BandOfLevel(level)
        case None => Err(InvalidLevel)
        case Some(band) => Ok(band)
  }

  /** An input that is not an alias and parses as an integer gets that integer's band, with
      levels below 1 refused; one that does not parse is refused by `int()`. */
  lemma NumericInput(selected: string)
    requires Lower(Trim(selected)) !in ConfirmationAliases
    ensures var p := ParseInt(Lower(Trim(selected)));
      (p.None? ==> LevelToBand(selected) == Err(NotAnInteger))
      && (p.Some? && p.value <= 0 ==> LevelToBand(selected) == Err(InvalidLevel))
      && (p.Some? && p.value > 0 ==> LevelToBand(selected) == Ok(BandOfLevel(p.value).value))
  {
  }

  /** A string that does not start with `c` is none of the aliases. */
  lemma NotAlias(s: string)
    requires |s| >= 1 && s[0] != 'c'
    ensures s !in ConfirmationAliases
  {
    assert "confirmation"[0] == 'c' && "confirm"[0] == 'c' && "c"[0] == 'c';
  }

  /** A printed integer selects the band of that integer. */
  lemma PrintedLevel(n: int)
    ensures LevelToBand(IntToString(n)) == if n <= 0 then Err(InvalidLevel) else Ok(BandOfLevel(n).value)
  {
    var s := IntToString(n);
    IntToStringPlain(n);
    LowerOfLowerCase(s);
    assert Lower(Trim(s)) == s;
    NotAlias(s);
    ParseIntToString(n);
    NumericInput(s);
  }

  /** The bands of the printed levels, range by range; 11 is included in "l12-14". */
  lemma PrintedLevels(n: int)
    ensures 1 <= n <= 4 ==> LevelToBand(IntToString(n)) == Ok("l1-4")
    ensures 5 <= n <= 7 ==> LevelToBand(IntToString(n)) == Ok("l5-7")
    ensures 8 <= n <= 10 ==> LevelToBand(IntToString(n)) == Ok("l8-10")
    ensures 11 <= n <= 14 ==> LevelToBand(IntToString(n)) == Ok("l12-14")
    ensures 15 <= n <= 16 ==> LevelToBand(IntToString(n)) == Ok("l15-16")
    ensures n >= 17 ==> LevelToBand(IntToString(n)) == Ok("l17")
    ensures n <= 0 ==> LevelToBand(IntToString(n)) == Err(InvalidLevel)
  {
    PrintedLevel(n);
    BandRanges(LevelToBand(IntToString(n)), n);
  }

  lemma BandRanges(r: Result<string, BandError>, n: int)
    requires r == if n <= 0 then Err(InvalidLevel) else Ok(BandOfLevel(n).value)
    ensures 1 <= n <= 4 ==> r == Ok("l1-4")
    ensures 5 <= n <= 7 ==> r == Ok("l5-7")
    ensures 8 <= n <= 10 ==> r == Ok("l8-10")
    ensures 11 <= n <= 14 ==> r == Ok("l12-14")
    ensures 15 <= n <= 16 ==> r == Ok("l15-16")
    ensures n >= 17 ==> r == Ok("l17")
    ensures n <= 0 ==> r == Err(InvalidLevel)
  {
  }
}
