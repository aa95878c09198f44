/** The dashboard heading: a greeting chosen by the hour and the user's first
    name, or "there". */
module DashboardHeader {
  import opened Wrappers
  import opened Strings

  const Morning: string := "Good morning"
  const Afternoon: string := "Good afternoon"
  const Evening: string := "Good evening"

  /** `getGreeting`: morning before 12, afternoon before 18, evening after. */
  function Greeting(hour: int): (r: string)
    ensures r == Morning <==> hour < 12
    ensures r == Afternoon <==> 12 <= hour < 18
    ensures r == Evening <==> hour >= 18
  {
    if hour < 12 then Morning else if hour < 18 then Afternoon else Evening
  }

  /** Noon is afternoon and six o'clock in the evening is evening. */
  lemma GreetingBoundaries()
    ensures Greeting(11) == Morning && Greeting(12) == Afternoon
    ensures Greeting(17) == Afternoon && Greeting(18) == Evening
  {
  }

  /** `user?.firstName || "there"`. */
  function DisplayName(firstName: Option<string>): (r: string)
    ensures r != ""
    ensures firstName.Some? && firstName.value != "" ==> r == firstName.value
    ensures firstName.None? || firstName.value == "" ==> r == "there"
  {
    if firstName.Some? && firstName.value != "" then firstName.value else "there"
  }

  /** The heading `{greeting}, {name}`: the greeting, then ", ", then the name. */
  function Heading(hour: int, firstName: Option<string>): (r: string)
    ensures StartsWith(r, Greeting(hour) + ", ")
    ensures r[|Greeting(hour)| + 2..] == DisplayName(firstName)
  {
    Greeting(hour) + ", " + DisplayName(firstName)
  }
}
