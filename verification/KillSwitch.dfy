/** The HALT file: its existence is the whole state. */
module KillSwitch {
  import opened Wrappers

  class Switch {
    var file: Option<string>

    constructor ()
      ensures file == None
    {
      file := None;
    }

    predicate IsEngaged()
      reads this
    {
      file != None
    }

    /** The first reason wins: a later one is only logged. */
    method Engage(reason: string)
      modifies this
      ensures file == Some(old(file).GetOr(reason))
    {
      if IsEngaged() {
        return;
      }
      file := Some(reason);
    }

    method Disengage() returns (removed: bool)
      modifies this
      ensures !IsEngaged() && removed == old(IsEngaged())
    {
      if !IsEngaged() {
        return false;
      }
      file := None;
      return true;
    }
  }
}
