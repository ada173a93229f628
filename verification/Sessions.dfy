/** Login sessions: the expiry slides with every accepted use, up to a fixed
    age.  A use reads the clock twice, in the database for the expiry and in
    the application for the age. */
module Sessions {

  datatype Happening = Use(db: int, app: int) | Revocation

  datatype Lifetime = Lifetime(createdAt: int, ttl: nat, absolute: nat)

  // ---- What a session should do, told by its whole past ----

  predicate RevokedIn(past: seq<Happening>) {
    Revocation in past
  }

  /** A use is accepted unless the session was revoked, more than the sliding
      time has passed since the last accepted use, or the session is too
      old. */
  predicate Accepts(l: Lifetime, past: seq<Happening>, use: Happening)
    requires use.Use?
    decreases |past|, 1
  {
    !RevokedIn(past) && use.db < LastAccepted(l, past) + l.ttl && use.app < l.createdAt + l.absolute
  }

  /** The time of the last accepted use, or of the creation. */
  function LastAccepted(l: Lifetime, past: seq<Happening>): int
    decreases |past|, 0
  {
    if past == [] then l.createdAt
    else
      var before, last := past[..|past| - 1], past[|past| - 1];
      if last.Use? && Accepts(l, before, last) then last.app else LastAccepted(l, before)
  }

  predicate EverAccepted(l: Lifetime, past: seq<Happening>) {
    past != []
    && ((past[|past| - 1].Use? && Accepts(l, past[..|past| - 1], past[|past| - 1]))
        || EverAccepted(l, past[..|past| - 1]))
  }

  /** Once a use is rejected, every later one is. */
  lemma {:induction false} RejectedForGood(l: Lifetime, past: seq<Happening>, use: Happening, between: seq<Happening>,
                                           later: Happening)
    requires use.Use? && later.Use? && !Accepts(l, past, use)
    requires use.db <= later.db && use.app <= later.app
    requires forall i :: 0 <= i < |between| && between[i].Use? ==> use.db <= between[i].db && use.app <= between[i].app
    ensures !Accepts(l, past + [use] + between, later)
    ensures LastAccepted(l, past + [use] + between) == LastAccepted(l, past)
  {
    var all := past + [use] + between;
    assert use == all[|past|];
    if between == [] {
      assert all[..|past|] == past && all[|all| - 1] == use;
    } else {
      var n := |between| - 1;
      assert all[..|all| - 1] == past + [use] + between[..n] && all[|all| - 1] == between[n];
      RejectedForGood(l, past, use, between[..n], if between[n].Use? then between[n] else later);
    }
    if RevokedIn(past) {
      var i :| 0 <= i < |past| && past[i] == Revocation;
      assert all[i] == Revocation;
    }
  }

  /** Uses that follow each other, and the creation, within the sliding time
      are all accepted until the session is too old or is revoked. */
  lemma {:induction false} KeptAlive(l: Lifetime, past: seq<Happening>, use: Happening)
    requires use.Use? && !RevokedIn(past) && use.app < l.createdAt + l.absolute
    requires forall i :: 0 <= i < |past| ==> past[i].Use? && past[i].app < l.createdAt + l.absolute
    requires forall i :: 0 < i < |past| ==> past[i].db < past[i - 1].app + l.ttl
    requires use.db < (if past == [] then l.createdAt else past[|past| - 1].app) + l.ttl
    requires past != [] ==> past[0].db < l.createdAt + l.ttl
    ensures Accepts(l, past, use)
    decreases |past|
  {
    if past != [] {
      var n := |past| - 1;
      assert RevokedIn(past[..n]) ==> RevokedIn(past);
      KeptAlive(l, past[..n], past[n]);
    }
  }

  // ---- What the stored session does ----

  function Deadline(l: Lifetime): int {
    l.createdAt + l.absolute
  }

  function Min(a: int, b: int): int {
    if a <= b then a else b
  }

  class Session {
    const life: Lifetime
    var expiresAt: int
    var revoked: bool
    ghost var past: seq<Happening>
    ghost var clock: int

    /** The stored expiry never passes the deadline after an accepted use. */
    ghost predicate Valid()
      reads this
    {
      && expiresAt == (if EverAccepted(life, past) then Min(LastAccepted(life, past) + life.ttl, Deadline(life))
                       else life.createdAt + life.ttl)
      && (!EverAccepted(life, past) ==> LastAccepted(life, past) == life.createdAt)
      && (RevokedIn(past) ==> revoked)
      && (revoked ==> RevokedIn(past) || clock >= Deadline(life))
    }

    constructor (now: int, ttl: nat, absolute: nat)
      ensures Valid() && life == Lifetime(now, ttl, absolute) && past == [] && clock == now
    {
      life := Lifetime(now, ttl, absolute);
      expiresAt, revoked, past, clock := now + ttl, false, [], now;
    }

    /** Looks the session up, and pushes its expiry forward if it is still
        good; a session that has become too old is revoked.  The answer depends
        on the whole past only through what Accepts says. */
    method GetValid(db: int, app: int) returns (accepted: bool)
      requires Valid() && clock <= db <= app
      modifies this
      ensures Valid() && past == old(past) + [Use(db, app)] && clock == app
      ensures accepted <==> Accepts(life, old(past), Use(db, app))
      ensures accepted ==> expiresAt <= life.createdAt + life.absolute
      ensures !accepted ==> expiresAt == old(expiresAt)
      ensures revoked <==> old(revoked) || (old(expiresAt) > db && app >= life.createdAt + life.absolute)
    {
      accepted := false;
      if !revoked && expiresAt > db {
        if app >= Deadline(life) {
          revoked := true;
        } else {
          expiresAt := Min(app + life.ttl, Deadline(life));
          accepted := true;
        }
      }
      ghost var before, now := past, past + [Use(db, app)];
      past, clock := now, app;
      assert now[..|before|] == before;
      assert RevokedIn(now) <==> RevokedIn(before) by {
        assert forall h :: h in now <==> h in before || h == Use(db, app);
      }
    }

    method Revoke()
      requires Valid()
      modifies this
      ensures Valid() && past == old(past) + [Revocation] && clock == old(clock)
      ensures forall use: Happening :: use.Use? ==> !Accepts(life, past, use)
    {
      ghost var before := past;
      revoked := true;
      past := past + [Revocation];
      assert past[..|before|] == before && past[|before|] == Revocation;
    }
  }
}
