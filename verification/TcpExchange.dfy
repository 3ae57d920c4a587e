/** One TCP exchange: its current connection, the context of its latest reader, and the mutex that guards both. */
module TcpExchange {
  import opened Model
  import opened Generations

  /** The context of a generation. */
  class Context {
    var cancelled: bool

    constructor ()
      ensures !cancelled
    {
      cancelled := false;
    }

    method Cancel()
      modifies this
      ensures cancelled
    {
      cancelled := true;
    }
  }

  /** Connections and readers are known by number, in the order in which they are made. */
  class TCPExchange {
    var conn: Option<nat>
    var cancel: Option<nat>
    var mutex: Mutex

    /** How many connections have been made, and those that are open. */
    var conns: nat
    var open: set<nat>

    /** The context from which each reader's own was derived, and the readers whose own was cancelled. */
    var readers: seq<Context>
    var stopped: set<nat>

    /** No connection is left open but the current one. */
    predicate Valid()
      reads this
    {
      && (conn.Some? ==> conn.value < conns)
      && (forall c :: c in open ==> conn == Some(c))
      && (cancel.Some? ==> cancel.value < |readers|)
    }

    /** The reader's own context is cancelled, or the one it was derived from. */
    predicate ReaderDone(r: nat)
      requires r < |readers|
      reads this, readers[r]
    {
      r in stopped || readers[r].cancelled
    }

    constructor ()
      ensures Valid() && conn == None && cancel == None && mutex.Free? && open == {} && readers == []
    {
      conn, cancel, mutex := None, None, Free;
      conns, open, readers, stopped := 0, {}, [], {};
    }

    /** The first half of Connect takes the mutex and starts to dial. */
    method Dial(ctx: Context, reconnect: bool)
      requires Valid() && mutex.Free?
      modifies this`mutex
      ensures Valid() && mutex == Dialing(ctx.cancelled, reconnect)
    {
      mutex := Dialing(ctx.cancelled, reconnect);
    }

    /**
     The second half: a dial that started under a cancelled context fails, any other may do either. An earlier
     connection is closed only once there is a new one.
     */
    method Dialed(reachable: bool) returns (err: bool)
      requires Valid() && mutex.Dialing?
      modifies this`conn, this`mutex, this`conns, this`open
      ensures Valid() && mutex.Free?
      ensures err <==> old(mutex.dead) || !reachable
      ensures err ==> conn == old(conn) && conns == old(conns) && open == old(open)
      ensures !err ==> conn == Some(old(conns)) && conns == old(conns) + 1 && open == {old(conns)}
    {
      err := mutex.dead || !reachable;
      if !err {
        var made := conns;
        conns, open := conns + 1, open + {made};
        if conn.Some? {
          open := open - {conn.value};
        }
        conn := Some(made);
      }
      mutex := Free;
    }

    /** Connect holds the mutex all the time. */
    method Connect(ctx: Context, reachable: bool) returns (err: bool)
      requires Valid() && mutex.Free?
      modifies this`conn, this`mutex, this`conns, this`open
      ensures Valid() && mutex.Free?
      ensures err <==> ctx.cancelled || !reachable
      ensures err ==> conn == old(conn) && conns == old(conns) && open == old(open)
      ensures !err ==> conn == Some(old(conns)) && conns == old(conns) + 1 && open == {old(conns)}
    {
      Dial(ctx, false);
      err := Dialed(reachable);
    }

    /**
     The latest reader's context replaces the one before without cancelling it. Without a connection nothing is
     read, and the context is cancelled at once; otherwise it is done when the given one is.
     */
    method ReadPrices(ctx: Context) returns (reading: bool, reader: nat, currentConn: Option<nat>)
      requires Valid()
      modifies this`cancel, this`readers, this`stopped
      ensures Valid() && reader == |old(readers)| && cancel == Some(reader) && readers == old(readers) + [ctx]
      ensures currentConn == conn && (reading <==> conn.Some?)
      ensures stopped == if reading then old(stopped) else old(stopped) + {reader}
      ensures reading && reader !in stopped ==> (ReaderDone(reader) <==> ctx.cancelled)
    {
      reader, currentConn := |readers|, conn;
      readers, cancel, reading := readers + [ctx], Some(reader), currentConn.Some?;
      if !reading {
        stopped := stopped + {reader};
      }
    }

    /** What a reader does when it ends: it cancels the latest reader, itself or not, and closes its connection. */
    method EndReader(currentConn: nat)
      requires Valid()
      modifies this`cancel, this`stopped, this`open
      ensures Valid() && cancel == None && open == old(open) - {currentConn}
      ensures stopped == if old(cancel).Some? then old(stopped) + {old(cancel).value} else old(stopped)
    {
      if cancel.Some? {
        stopped, cancel := stopped + {cancel.value}, None;
      }
      open := open - {currentConn};
    }

    /** Every connection the exchange ever made is closed afterwards, even if closing the last one is an error. */
    method Close(fails: bool) returns (err: bool)
      requires Valid() && mutex.Free?
      modifies this`conn, this`cancel, this`stopped, this`open
      ensures Valid() && conn == None && cancel == None && open == {}
      ensures stopped == if old(cancel).Some? then old(stopped) + {old(cancel).value} else old(stopped)
      ensures err <==> old(conn).Some? && fails
    {
      err := false;
      if cancel.Some? {
        stopped, cancel := stopped + {cancel.value}, None;
      }
      if conn.Some? {
        open, err := open - {conn.value}, fails;
        conn := None;
      }
    }
  }
}
