/** The records shared by the chat page, the login page and the API route. */
module Types {

  /** An optional value: `null` in the client code, a missing property in a request. */
  datatype Option<T> = None | Some(value: T)

  /** A chat participant: the signed-in user or one of the contacts. */
  datatype User = User(id: string, name: string, email: string, avatar: string)

  /** Delivery status of a message; the three string literals of the status union. */
  datatype Status = Sent | Delivered | Read

  /** A message. `timestamp` is a clock reading in milliseconds since the epoch. */
  datatype Message = Message(
    id: string,
    senderId: string,
    receiverId: string,
    text: string,
    timestamp: int,
    status: Status)

  /** A conversation with one contact. `unread` is an unconstrained number in the
      interface, so it is an `int` here and its bounds are proved from the operations. */
  datatype Conversation = Conversation(id: string, user: User, lastMessage: Message, unread: int)

  /** The literal that stands for a status in the interface. */
  function StatusName(s: Status): (name: string)
    ensures name == "sent" || name == "delivered" || name == "read"
  {
    match s
    case Sent => "sent"
    case Delivered => "delivered"
    case Read => "read"
  }

  /** Reads a status literal back; anything but the three literals is rejected. */
  function ParseStatus(name: string): (r: Option<Status>)
    ensures r.Some? <==> name == "sent" || name == "delivered" || name == "read"
    ensures r.Some? ==> StatusName(r.value) == name
  {
    if name == "sent" then Some(Sent)
    else if name == "delivered" then Some(Delivered)
    else if name == "read" then Some(Read)
    else None
  }

  /** Every status has exactly one literal, and reading it back gives the status. */
  lemma StatusNameRoundTrip(s: Status)
    ensures ParseStatus(StatusName(s)) == Some(s)
    ensures forall t: Status :: StatusName(t) == StatusName(s) ==> t == s
  {
  }
}
