/**
  The connection to the database (pkg/db/connection.go). What becomes of each statement is not up to
  the program: `replies` says it for every statement ever sent, in the order of sending, and
  `statements` counts them. So a method that reports an error can be asked which statement failed.
*/
module Connections {

  /** Executed and answered; not executed; or executed, but the answer never arrived. */
  datatype Reply = Done | Refused | Unanswered

  class Connection {
    const replies: nat -> Reply
    var statements: nat

    constructor (replies: nat -> Reply)
      ensures this.replies == replies && statements == 0
    {
      this.replies := replies;
      statements := 0;
    }

    /** One of the statements from number `from` up to, but without, number `to` was not answered. */
    ghost predicate Trouble(from: nat, to: nat) {
      exists n: nat :: from <= n < to && replies(n) != Done
    }

    method Send() returns (reply: Reply)
      modifies this
      ensures statements == old(statements) + 1
      ensures reply == replies(old(statements))
      ensures reply != Done <==> Trouble(old(statements), statements)
    {
      reply := replies(statements);
      statements := statements + 1;
    }

    /** For a statement of which only success or failure matters. */
    method Exec() returns (ok: bool)
      modifies this
      ensures statements == old(statements) + 1
      ensures ok <==> replies(old(statements)) == Done
      ensures !ok <==> Trouble(old(statements), statements)
    {
      var reply := Send();
      ok := reply == Done;
    }
  }
}
