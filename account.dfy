/** The account settings section: the full name typed in is split into the first
    and last name sent to the user record. */
module Account {
  import opened Wrappers
  import opened Strings

  /** `name.split(" ")[0]`. */
  function FirstName(name: string): (r: string)
    ensures ' ' !in r
    ensures ' ' !in name ==> r == name
    ensures ' ' in name ==> r == name[..IndexOf(name, ' ').value]
  {
    SplitFirst(name, ' ');
    Split(name, ' ')[0]
  }

  /** `name.split(" ").slice(1).join(" ")`: everything after the first space, inner
      spaces kept, or "" without a space. */
  function LastName(name: string): (r: string)
    ensures ' ' !in name ==> r == ""
    ensures ' ' in name ==> r == name[IndexOf(name, ' ').value + 1..]
  {
    SplitFirst(name, ' ');
    if ' ' in name then
      JoinSplit(name[IndexOf(name, ' ').value + 1..], ' ');
      Join(Split(name, ' ')[1..], ' ')
    else Join(Split(name, ' ')[1..], ' ')
  }

  /** With a space in the name, the two parts joined by a space give the name back. */
  lemma NameRoundTrip(name: string)
    requires ' ' in name
    ensures FirstName(name) + " " + LastName(name) == name
  {
    var k := IndexOf(name, ' ').value;
    assert name == name[..k] + [' '] + name[k + 1..];
  }

  /** A leading space leaves the first name empty and the rest as the last name. */
  lemma LeadingSpace(name: string)
    requires |name| > 0 && name[0] == ' '
    ensures FirstName(name) == "" && LastName(name) == name[1..]
  {
    IndexOfAt(name, ' ', 0);
  }

  /** The update sent to the user record. */
  datatype NameUpdate = NameUpdate(firstName: string, lastName: string)

  /** The section's state: the edit flag and the typed name. */
  class Settings {
    var isEditing: bool
    var name: string

    constructor (fullName: Option<string>)
      ensures !isEditing && name == fullName.GetOr("")
    {
      isEditing := false;
      name := fullName.GetOr("");
    }

    /** `handleSave`: without a signed-in user nothing is sent and the update counts as
        done; otherwise the split name is sent. Edit mode ends unless the update
        fails (`updateFails` stands for the rejection of `user.update`). */
    method HandleSave(signedIn: bool, updateFails: bool) returns (sent: Option<NameUpdate>)
      modifies this
      ensures signedIn ==> sent == Some(NameUpdate(FirstName(old(name)), LastName(old(name))))
      ensures !signedIn ==> sent == None
      ensures isEditing == (if signedIn && updateFails then old(isEditing) else false)
      ensures name == old(name)
    {
      if signedIn {
        sent := Some(NameUpdate(FirstName(name), LastName(name)));
        if updateFails {
          return;
        }
      } else {
        sent := None;
      }
      isEditing := false;
    }
  }
}
