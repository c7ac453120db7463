/**
 * Chat participants and the output they produce. Console output is kept as a
 * sequence of abstract events rather than formatted text.
 */
module Users {

  /** One line written to standard output by the chat. */
  datatype Event =
    | Announced(message: string)                  // the chat's line that opens a broadcast
    | Received(recipient: User, message: string)  // one subscriber's receipt line

  /** The process's standard output, as the events written to it so far. */
  class Console {
    var output: seq<Event>

    constructor ()
      ensures output == []
    {
      output := [];
    }
  }

  /** A chat participant. Its identity is the object itself; `name` is only a
      label (two users with the same name are different subscribers). */
  class User {
    const name: string

    constructor (name: string)
      ensures this.name == name
    {
      this.name := name;
    }

    /** Receives one message: writes a receipt line tagged with this user. */
    method Update(message: string, console: Console)
      modifies console
      ensures console.output == old(console.output) + [Received(this, message)]
    {
      console.output := console.output + [Received(this, message)];
    }
  }
}
