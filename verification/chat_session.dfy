/** The chat page's session state and the events that change it. Each React state
    variable is a field, each handler a method; the browser timers that `handleSendMessage`
    schedules are the field `pending`, one entry per reply not yet delivered, holding what
    the reply callback captured when it was scheduled. */
module ChatPage {
  import opened Types
  import opened Text
  import opened Conversations

  /** What the browser storage holds under "user" when the page mounts. */
  datatype StoredSession = NoStoredUser | Unparseable | StoredUser(user: User)

  /** A scheduled reply: the contact and user ids, the conversation id that was active at
      send time, and the delay the timer was given. */
  datatype PendingReply = PendingReply(peerId: string, selfId: string, conversationId: string, delay: real)

  class ChatSession {
    var user: Option<User>
    var contacts: seq<User>
    var conversations: seq<Conversation>
    var activeConversation: Option<string>
    var messages: seq<Message>
    var newMessage: string
    var isTyping: bool
    var hiddenChats: seq<string>
    var pending: seq<PendingReply>

    /** The session invariant: every conversation is keyed by its contact's id and has an
        unread count of 0 to 5, no conversation is with the signed-in user, the hidden list has
        no repeats, the typing indicator is only on while a reply is scheduled, and every
        scheduled delay lies in [1000, 3000) ms. */
    ghost predicate Valid()
      reads this
    {
      && WellFormed(conversations)
      && (user.Some? ==> forall c :: c in conversations ==> c.id != user.value.id)
      && Distinct(hiddenChats)
      && (isTyping ==> pending != [])
      && (forall p :: p in pending ==> 1000.0 <= p.delay < 3000.0)
    }

    /** The initial values of the page's state hooks. */
    constructor ()
      ensures Valid()
      ensures user == None && contacts == [] && conversations == [] && activeConversation == None
      ensures messages == [] && newMessage == "" && !isTyping && hiddenChats == [] && pending == []
    {
      user := None;
      contacts := [];
      conversations := [];
      activeConversation := None;
      messages := [];
      newMessage := "";
      isTyping := false;
      hiddenChats := [];
      pending := [];
    }

    /** The mount effect. Without a readable stored user nothing changes (the page redirects to
        the login page). Otherwise the user is loaded, the eight drawn users other than the user
        become the contacts, each gets a conversation, and when there is at least one the first
        becomes active with a ten-message history. `rolls` are the `Math.random()` draws for the
        unread counts, `now` is `Date.now()`, `gen` stands for `generateRandomMessage`. */
    method Mount(stored: StoredSession, drawn: seq<User>, rolls: seq<(real, real)>, now: int,
                 gen: DemoRequest -> Message)
      requires Valid()
      requires |drawn| == 8 && |rolls| == 8 && forall i :: 0 <= i < 8 ==> ValidRoll(rolls[i])
      modifies this
      ensures Valid()
      ensures !stored.StoredUser? ==> unchanged(this)
      ensures stored.StoredUser? ==>
        var u := stored.user;
        var cs := ContactsExcept(drawn, u.id);
        && user == Some(u) && contacts == cs
        && conversations == DemoConversations(cs, u.id, gen, rolls)
        && (cs != [] ==> activeConversation == Some(cs[0].id) && messages == History(gen, u.id, cs[0].id, now, 10))
        && (cs == [] ==> activeConversation == old(activeConversation) && messages == old(messages))
        && newMessage == old(newMessage) && isTyping == old(isTyping)
        && hiddenChats == old(hiddenChats) && pending == old(pending)
    {
      if !stored.StoredUser? {
        return;
      }
      var u := stored.user;
      var cs := ContactsExcept(drawn, u.id);
      var convs := DemoConversations(cs, u.id, gen, rolls);
      DemoConversationsShape(drawn, u.id, gen, rolls);
      user, contacts, conversations := Some(u), cs, convs;
      if |convs| > 0 {
        activeConversation, messages := Some(convs[0].id), History(gen, u.id, convs[0].user.id, now, 10);
      }
    }

    /** `handleConversationChange(id)`: the id becomes active whether or not a conversation has
        it; conversations with that id get `unread == 0`; the displayed list is replaced by an
        eight-message history only when the id is found and a user is loaded. */
    method SelectConversation(id: string, now: int, gen: DemoRequest -> Message)
      requires Valid()
      modifies this
      ensures Valid()
      ensures activeConversation == Some(id)
      ensures conversations == ResetUnread(old(conversations), id)
      ensures var found := Find(old(conversations), id);
        if found.Some? && old(user).Some? then
          messages == History(gen, old(user).value.id, found.value.user.id, now, 8)
        else messages == old(messages)
      ensures user == old(user) && contacts == old(contacts) && newMessage == old(newMessage)
      ensures isTyping == old(isTyping) && hiddenChats == old(hiddenChats) && pending == old(pending)
    {
      var found := Find(conversations, id);
      var reset := ResetUnread(conversations, id);
      ResetUnreadWellFormed(conversations, id);
      SameIdsAvoid(conversations, reset, user);
      activeConversation := Some(id);
      conversations := reset;
      if found.Some? && user.Some? {
        messages := History(gen, user.value.id, found.value.user.id, now, 8);
      }
    }

    /** The compose box's change handler. */
    method EditCompose(text: string)
      requires Valid()
      modifies this`newMessage
      ensures Valid() && newMessage == text
    {
      newMessage := text;
    }

    /** `handleSendMessage`. A send is accepted only when the trimmed compose text is non-empty,
        a user is loaded, the active id is present and non-empty (an empty id is falsy), and a
        conversation has that id; otherwise nothing changes. An accepted send appends one `sent`
        message from the user to the contact, clears the compose text, makes it the active
        conversation's last message, turns the typing indicator on and schedules one reply.
        `now` is the clock reading, `roll` the `Math.random()` draw for the delay. */
    method SendMessage(now: nat, roll: real) returns (accepted: bool)
      requires Valid()
      requires 0.0 <= roll < 1.0
      modifies this
      ensures Valid()
      ensures accepted <==>
        && Trim(old(newMessage)) != ""
        && old(user).Some?
        && old(activeConversation).Some? && old(activeConversation).value != ""
        && Find(old(conversations), old(activeConversation).value).Some?
      ensures !accepted ==> unchanged(this)
      ensures accepted ==>
        var self := old(user).value;
        var id := old(activeConversation).value;
        var peer := Find(old(conversations), id).value.user;
        var sent := OutgoingMessage(now, self.id, peer.id, old(newMessage));
        && messages == old(messages) + [sent]
        && newMessage == "" && isTyping
        && conversations == SetLastMessage(old(conversations), id, sent)
        && pending == old(pending) + [PendingReply(peer.id, self.id, id, ReplyDelay(roll))]
        && user == old(user) && contacts == old(contacts) && activeConversation == old(activeConversation)
        && hiddenChats == old(hiddenChats)
    {
      if Trim(newMessage) == "" || user.None? || activeConversation.None? || activeConversation.value == "" {
        return false;
      }
      var id := activeConversation.value;
      var found := Find(conversations, id);
      if found.None? {
        return false;
      }
      var self := user.value;
      var peer := found.value.user;
      var sent := OutgoingMessage(now, self.id, peer.id, newMessage);
      RecordSend(id, sent, PendingReply(peer.id, self.id, id, ReplyDelay(roll)));
      accepted := true;
    }

    /** The state updates of an accepted send. */
    method RecordSend(id: string, sent: Message, reply: PendingReply)
      requires Valid()
      requires 1000.0 <= reply.delay < 3000.0
      modifies this
      ensures Valid()
      ensures messages == old(messages) + [sent] && newMessage == "" && isTyping
      ensures conversations == SetLastMessage(old(conversations), id, sent)
      ensures pending == old(pending) + [reply]
      ensures user == old(user) && contacts == old(contacts) && activeConversation == old(activeConversation)
      ensures hiddenChats == old(hiddenChats)
    {
      var updated := SetLastMessage(conversations, id, sent);
      SetLastMessageWellFormed(conversations, id, sent);
      SameIdsAvoid(conversations, updated, user);
      messages, newMessage, conversations, isTyping, pending := messages + [sent], "", updated, true, pending + [reply];
    }

    /** The reply timer of `pending[k]` firing: the typing indicator goes off, a `delivered`
        reply from the captured contact to the captured user is appended to whatever list is
        displayed now, and only conversations with the id that was active at send time get it as
        their last message. No unread count changes. */
    method FireReply(k: nat, now: nat, text: string)
      requires Valid()
      requires k < |pending|
      modifies this
      ensures Valid()
      ensures var p := old(pending)[k];
        var reply := ReplyMessage(now, p.peerId, p.selfId, text);
        && !isTyping
        && messages == old(messages) + [reply]
        && conversations == SetLastMessage(old(conversations), p.conversationId, reply)
        && pending == old(pending)[..k] + old(pending)[k + 1..]
      ensures user == old(user) && contacts == old(contacts) && activeConversation == old(activeConversation)
      ensures newMessage == old(newMessage) && hiddenChats == old(hiddenChats)
    {
      var p := pending[k];
      isTyping := false;
      var reply := ReplyMessage(now, p.peerId, p.selfId, text);
      var updated := SetLastMessage(conversations, p.conversationId, reply);
      SetLastMessageWellFormed(conversations, p.conversationId, reply);
      SameIdsAvoid(conversations, updated, user);
      messages := messages + [reply];
      conversations := updated;
      assert forall q :: q in pending[..k] + pending[k + 1..] ==> q in pending;
      pending := pending[..k] + pending[k + 1..];
    }

    /** `handleNewChat`: no active conversation and an empty list; the registry is untouched. */
    method NewChat()
      requires Valid()
      modifies this`activeConversation, this`messages
      ensures Valid()
      ensures activeConversation == None && messages == []
    {
      activeConversation := None;
      messages := [];
    }

    /** The hide-chat checkbox of the settings dialog. */
    method ToggleHiddenChat(id: string)
      requires Valid()
      modifies this`hiddenChats
      ensures Valid()
      ensures hiddenChats == ToggleHidden(old(hiddenChats), id)
    {
      ToggleHiddenDistinct(hiddenChats, id);
      hiddenChats := ToggleHidden(hiddenChats, id);
    }

    /** The conversations the sidebar lists: exactly the ones whose id is not hidden, in order. */
    function Sidebar(): (r: seq<Conversation>)
      reads this
      ensures forall c :: c in r <==> c in conversations && c.id !in hiddenChats
    {
      Visible(conversations, hiddenChats)
    }
  }

  /** Switching away while a reply is pending, as the page is written: the reply is appended to
      the newly displayed history of the other contact, and only the original conversation's
      last message moves. */
  method SwitchThenReply(s: ChatSession, other: string, now: nat, gen: DemoRequest -> Message, text: string)
    requires s.Valid() && s.user.Some? && |s.pending| == 1
    requires Find(s.conversations, other).Some? && other != s.pending[0].conversationId
    modifies s
    ensures s.Valid() && s.activeConversation == Some(other)
    ensures var p := old(s.pending[0]);
      var peer := Find(old(s.conversations), other).value.user.id;
      && |s.messages| == 9
      && s.messages[..8] == History(gen, old(s.user).value.id, peer, now, 8)
      && s.messages[8] == ReplyMessage(now, p.peerId, p.selfId, text)
      && s.pending == []
  {
    s.SelectConversation(other, now, gen);
    s.FireReply(0, now, text);
  }
}
