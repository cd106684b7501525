/** The module-level `_session` holder: one shared HTTP session, created on first use and
    closed at reactor shutdown. */
module Sessions {

  /** A `txrequests.Session`; all the holder does to it is close it. */
  class Session {
    var closed: bool

    constructor ()
      ensures !closed
    {
      closed := false;
    }

    method Close()
      modifies this
      ensures closed
    {
      closed := true;
    }
  }

  /** The global `_session`, plus the number of "before shutdown" triggers registered
      for `closeSession`. */
  class SessionHolder {
    var current: Session?
    var shutdownHooks: nat

    constructor ()
      ensures current == null && shutdownHooks == 0
    {
      current := null;
      shutdownHooks := 0;
    }

    /** `getSession`: create and hold a session (registering a shutdown trigger) only when
        none is held, then return the held one. */
    method GetSession() returns (s: Session)
      modifies this
      ensures current == s
      ensures old(current) != null ==> s == old(current) && shutdownHooks == old(shutdownHooks)
      ensures old(current) == null ==> fresh(s) && !s.closed && shutdownHooks == old(shutdownHooks) + 1
    {
      if current == null {
        current := new Session();
        shutdownHooks := shutdownHooks + 1;
      }
      s := current;
    }

    /** `setSession`: the given value (possibly `None`) becomes the held one. */
    method SetSession(s: Session?)
      modifies this
      ensures current == s && shutdownHooks == old(shutdownHooks)
    {
      current := s;
    }

    /** `closeSession`: close the held session, if any, and leave the holder empty. */
    method CloseSession()
      modifies this, current
      ensures current == null && shutdownHooks == old(shutdownHooks)
      ensures old(current) != null ==> old(current).closed
    {
      if current != null {
        current.Close();
        current := null;
      }
    }
  }

  /** Two `getSession` calls in a row hand out the same session, and at most one
      shutdown trigger is registered between them. */
  method GetSessionTwice(holder: SessionHolder) returns (first: Session, second: Session)
    modifies holder
    ensures first == second && holder.current == first
    ensures holder.shutdownHooks <= old(holder.shutdownHooks) + 1
  {
    first := holder.GetSession();
    second := holder.GetSession();
  }
}
