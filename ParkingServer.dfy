/**
 The server's state as objects: one pool of spots shared by every
 connection, one session per connection with its own `held` flag, and the
 server that accepts sessions and applies their commands one at a time.
 Each command runs as one atomic step, standing for the critical section
 the server's lock guards; any interleaving of sessions is a sequence of
 Deliver calls, and every one of them keeps the conservation law.
 */
module ParkingServer {
  import opened Text
  import opened Decimal
  import opened Protocol

  /** The shared counter of free spots. */
  class Pool {
    var available: int

    constructor ()
      ensures available == InitialSpots
    {
      available := InitialSpots;
    }
  }

  /** The state of one connection's handler. */
  class Session {
    const pool: Pool
    var held: bool
    /** False once the handler has left its loop and closed the connection. */
    var connected: bool

    constructor (pool: Pool)
      ensures this.pool == pool && !held && connected
    {
      this.pool := pool;
      held := false;
      connected := true;
    }

    /** Handles one received message under the lock; `continues` is false
        when the loop breaks, which closes the connection. */
    method Handle(message: string) returns (reply: Option<string>, continues: bool)
      requires connected
      modifies this, pool
      ensures var o := Step(old(pool.available), old(held), message);
        && pool.available == o.available && held == o.held
        && reply == o.reply && continues == o.continues
      ensures connected == continues
    {
      if message == [] {
        connected := false;
        return None, false;
      }
      var command := Strip(message);
      continues := true;
      if command == QueryToken {
        reply := Some(IntToDecimal(pool.available));
      } else if command == AcquireToken {
        if pool.available > 0 && !held {
          pool.available := pool.available - 1;
          held := true;
          reply := Some("1");
        } else {
          reply := Some("0");
        }
      } else if command == ReleaseToken {
        if held {
          pool.available := pool.available + 1;
          held := false;
          reply := Some("1");
        } else {
          reply := Some("0");
        }
        if reply == Some("1") {
          continues := false;
        }
      } else {
        reply := Some("-1");
      }
      connected := continues;
    }

    /** The handler's loop over the messages that arrive, in order, with no
        other session interleaved: it stops at the first message that ends
        the loop and returns the replies it sent and how many messages it
        read. */
    method Serve(messages: seq<string>) returns (sent: seq<string>, consumed: nat)
      requires connected
      modifies this, pool
      ensures Run(old(pool.available), old(held), messages)
           == Transcript(pool.available, held, sent, consumed, connected)
    {
      sent, consumed := [], 0;
      while consumed < |messages| && connected
        invariant consumed <= |messages|
        invariant Run(old(pool.available), old(held), messages[..consumed])
               == Transcript(pool.available, held, sent, consumed, connected)
        decreases |messages| - consumed
      {
        RunExtend(old(pool.available), old(held), messages, consumed);
        var reply, _ := Handle(messages[consumed]);
        sent := sent + Sent(reply);
        consumed := consumed + 1;
      }
      if consumed < |messages| {
        RunStaysClosed(old(pool.available), old(held), messages, consumed);
      } else {
        assert messages[..consumed] == messages;
      }
    }
  }

  /** The server process: the pool, and (for the proof) every session it has
      accepted, finished ones included, since a finished session may still
      hold its spot. */
  class Server {
    const pool: Pool
    ghost var sessions: set<Session>

    ghost function Holders(): set<Session>
      reads this, sessions
    {
      set t | t in sessions && t.held
    }

    /** Conservation: free spots plus spots held by sessions is the initial
        number of spots, and the count is never negative. */
    ghost predicate Valid()
      reads this, pool, sessions
      ensures Valid() ==> 0 <= pool.available <= InitialSpots
      ensures Valid() && Holders() == {} ==> pool.available == InitialSpots
    {
      && (forall t :: t in sessions ==> t.pool == pool)
      && 0 <= pool.available
      && pool.available + |Holders()| == InitialSpots
    }

    constructor ()
      ensures Valid() && fresh(pool) && sessions == {}
      ensures pool.available == InitialSpots
    {
      pool := new Pool();
      sessions := {};
    }

    /** A new connection: a session that holds nothing. */
    method Accept() returns (s: Session)
      requires Valid()
      modifies this
      ensures Valid() && fresh(s) && s.pool == pool && !s.held && s.connected
      ensures sessions == old(sessions) + {s}
      ensures Holders() == old(Holders())
    {
      ghost var before := Holders();
      s := new Session(pool);
      sessions := sessions + {s};
      assert Holders() == before;
    }

    /** One command of session `s`, applied atomically between any other
        sessions' commands. Only `s` and the pool change. */
    method Deliver(s: Session, message: string) returns (reply: Option<string>, continues: bool)
      requires Valid() && s in sessions && s.connected
      modifies s, pool
      ensures Valid()
      ensures var o := Step(old(pool.available), old(s.held), message);
        && pool.available == o.available && s.held == o.held
        && reply == o.reply && continues == o.continues && s.connected == continues
      ensures Holders() == if s.held then old(Holders()) + {s} else old(Holders()) - {s}
    {
      ghost var before := Holders();
      ghost var wasHeld := s.held;
      StepConserves(pool.available, s.held, message);
      reply, continues := s.Handle(message);
      assert Holders() == if s.held then before + {s} else before - {s};
      if s.held && !wasHeld {
        assert s !in before;
      } else if !s.held && wasHeld {
        assert s in before;
      }
    }
  }

  /** Two sessions: the first takes a spot, the second sees one spot fewer,
      then the first drops its connection without releasing. The spot stays
      taken. */
  method DroppedHolderKeepsSpot() returns (first: Option<string>, seen: Option<string>, after: Option<string>)
    ensures first == Some("1") && seen == Some("9") && after == Some("9")
  {
    var server := new Server();
    var a := server.Accept();
    var b := server.Accept();
    AcquireTokenIsStripped();
    QueryTokenIsStripped();
    assert IntToDecimal(9) == "9";
    var go;
    first, go := server.Deliver(a, AcquireToken);
    assert server.pool.available == 9;
    seen, go := server.Deliver(b, QueryToken);
    var dropped;
    dropped, go := server.Deliver(a, []);
    assert server.pool.available == 9 && a.held;
    after, go := server.Deliver(b, QueryToken);
  }

  /** One session queries, takes a spot, tries to take a second one, and
      releases; a second session watches the count. The release ends the
      first session, so the last query comes from the second. */
  method AcquireReleaseRoundTrip() returns (replies: seq<Option<string>>)
    ensures replies == [Some("10"), Some("1"), Some("0"), Some("9"), Some("1"), Some("10")]
  {
    var server := new Server();
    var a := server.Accept();
    var b := server.Accept();
    AcquireTokenIsStripped();
    QueryTokenIsStripped();
    ReleaseTokenIsStripped();
    assert IntToDecimal(10) == "10" && IntToDecimal(9) == "9";
    var r0, r1, r2, r3, r4, r5, go;
    r0, go := server.Deliver(a, QueryToken);
    r1, go := server.Deliver(a, AcquireToken);
    r2, go := server.Deliver(a, AcquireToken);
    r3, go := server.Deliver(b, QueryToken);
    r4, go := server.Deliver(a, ReleaseToken);
    assert !a.connected;
    r5, go := server.Deliver(b, QueryToken);
    replies := [r0, r1, r2, r3, r4, r5];
  }
}
