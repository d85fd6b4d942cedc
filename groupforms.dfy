/** `validateName` of src/web/groups/validate.go: the check of the name on
    the create-group form, which writes its message into the caller's
    message record. */
module GroupForms {
  import opened FormValidation

  /** `messages.CreateGroup`: the message shown beside the name field. */
  class CreateGroupMessage {
    var name: string

    constructor ()
      ensures name == ""
    {
      name := "";
    }
  }

  /** validate.go:9-22: a blank name and a name off the pattern get their
      own messages; an accepted name leaves the message as it was. */
  method ValidateName(name: string, msg: CreateGroupMessage) returns (valid: bool)
    modifies msg
    ensures valid <==> NameShape(name)
    ensures msg.name == if Blank(name) then "Group name cannot be empty!"
                        else if !NameShape(name) then "Group name " + NameRule
                        else old(msg.name)
  {
    TrimSpaceEmpty(name);
    NamePatternIff(name);
    valid := false;
    if TrimSpace(name) == "" {
      BlankIsNoName(name);
      msg.name := "Group name cannot be empty!";
    } else if !NamePattern(name) {
      msg.name := "Group name " + NameRule;
    } else {
      valid := true;
    }
  }
}
