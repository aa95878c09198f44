/** The dashboard page header: the same greeting by hour, with ", <first name>"
    only when the user has a first name. */
module DashboardPageHeader {
  import opened Wrappers
  import opened Strings
  import DashboardHeader

  /** The initial value of `greeting`, overwritten on every path. */
  const Welcome: string := "Welcome to B-Workspace"

  /** The text after the greeting: ", <first name>" for a non-empty name, else "". */
  function NameSuffix(firstName: Option<string>): (r: string)
    ensures firstName.Some? && firstName.value != "" ==> r == ", " + firstName.value
    ensures firstName.None? || firstName.value == "" ==> r == ""
  {
    if firstName.Some? && firstName.value != "" then ", " + firstName.value else ""
  }

  /** The heading: the greeting variable starts as the welcome text and is then
      set by the hour. */
  method Heading(hour: int, firstName: Option<string>) returns (heading: string)
    ensures heading == DashboardHeader.Greeting(hour) + NameSuffix(firstName)
    ensures !StartsWith(heading, Welcome)
  {
    var greeting := Welcome;
    if hour < 12 {
      greeting := "Good morning";
    } else if hour < 18 {
      greeting := "Good afternoon";
    } else {
      greeting := "Good evening";
    }
    heading := greeting + NameSuffix(firstName);
    assert heading[0] == 'G' && Welcome[0] == 'W';
  }

  /** With a first name both headers show the same text; without one this header
      shows the bare greeting where the dashboard header adds ", there". */
  lemma SameAsDashboardHeader(hour: int, firstName: Option<string>)
    ensures firstName.Some? && firstName.value != "" ==>
              DashboardHeader.Heading(hour, firstName) == DashboardHeader.Greeting(hour) + NameSuffix(firstName)
    ensures firstName.None? || firstName.value == "" ==>
              DashboardHeader.Heading(hour, firstName) == DashboardHeader.Greeting(hour) + NameSuffix(firstName) + ", there"
  {
    var g, name := DashboardHeader.Greeting(hour), DashboardHeader.DisplayName(firstName);
    if firstName.Some? && firstName.value != "" {
      assert g + ", " + name == g + (", " + name);
    } else {
      assert NameSuffix(firstName) == "";
      assert g + "" == g;
    }
  }
}
