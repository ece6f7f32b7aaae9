/**
 * The remote store, seen from the client: a SQL Server database whose stored
 * procedures are run as `EXEC Name ?, ?, ...` with positional arguments.
 * Each service function opens its own connection, executes one procedure and
 * closes the connection; the model keeps only the executed calls, in order.
 */
module Db {

  /** A value passed to, or read back from, a stored procedure. */
  datatype Value = Text(s: string) | Int(i: int) | Real(r: real)

  /** One `cursor.execute("EXEC procedure ?, ...", args...)`. */
  datatype RemoteCall = Exec(procedure: string, args: seq<Value>)

  /** What a call that fetches rows gives back: the rows, or the exception raised on the way. */
  datatype Reply<T> = Returned(value: T) | Raised(msg: string)

  /** What a call that only commits gives back. */
  datatype Outcome = Done | Failed(msg: string)

  /** The database as an opaque collaborator: it remembers every call it was asked to run. */
  class Database {
    var calls: seq<RemoteCall>

    constructor ()
      ensures calls == []
    {
      calls := [];
    }

    method Execute(call: RemoteCall)
      modifies this`calls
      ensures calls == old(calls) + [call]
    {
      calls := calls + [call];
    }
  }
}
