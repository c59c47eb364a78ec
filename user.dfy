/** The Gender field of a user profile and its conversions to and from text. */
module User {

  datatype Gender = Male | Female | Unknown {

    /** `Into<String> for &Gender`: the name of the variant. */
    function ToString(): (s: string)
      ensures GenderFromString(s) == this
      ensures IsGenderName(s)
    {
      match this
      case Male => "Male"
      case Female => "Female"
      case Unknown => "Unknown"
    }
  }

  /** The three strings `ToString` produces. */
  predicate IsGenderName(s: string) {
    s == "Male" || s == "Female" || s == "Unknown"
  }

  /**
   * `From<String> for Gender`: an exact, case-sensitive match on "Male" and
   * "Female"; every other string, the empty one included, is Unknown.
   */
  function GenderFromString(value: string): (g: Gender)
    ensures g == Male <==> value == "Male"
    ensures g == Female <==> value == "Female"
    ensures g == Unknown <==> value != "Male" && value != "Female"
  {
    match value
    case "Male" => Male
    case "Female" => Female
    case _ => Unknown
  }

  /** Reading a string back and printing it keeps the three names and turns anything else into "Unknown". */
  lemma FromStringThenToString(value: string)
    ensures GenderFromString(value).ToString() == if IsGenderName(value) then value else "Unknown"
  {
  }

  /** Different genders print differently. */
  lemma ToStringInjective(a: Gender, b: Gender)
    ensures a.ToString() == b.ToString() ==> a == b
  {
  }

  /** Every gender is reached by reading some string. */
  lemma EveryGenderIsParsed(g: Gender)
    ensures exists value :: GenderFromString(value) == g
  {
    assert GenderFromString(g.ToString()) == g;
  }

  /** Reading is case-sensitive and "Unknown" is not special. */
  lemma OtherSpellingsAreUnknown()
    ensures GenderFromString("male") == Unknown
    ensures GenderFromString("FEMALE") == Unknown
    ensures GenderFromString("Unknown") == Unknown
    ensures GenderFromString("") == Unknown
  {
  }
}
