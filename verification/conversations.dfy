/** The pure pieces of the chat page: the `find` and `map` expressions it runs over the
    conversation list, the hidden-chat toggle and sidebar filter, the demo data it builds
    on mount and on a conversation switch, and the messages a send and its reply create. */
module Conversations {
  import opened Types
  import opened Text

  const TenMinutes: int := 1000 * 60 * 10

  // ---------------------------------------------------------------------------
  // Lookup and update by id

  /** Position of the first conversation with this id, as `Array.prototype.find` scans. */
  function FirstIndexOf(convs: seq<Conversation>, id: string): (r: Option<nat>)
    ensures r.Some? ==> r.value < |convs| && convs[r.value].id == id
    ensures r.Some? ==> forall j :: 0 <= j < r.value ==> convs[j].id != id
    ensures r.None? <==> forall j :: 0 <= j < |convs| ==> convs[j].id != id
  {
    if convs == [] then None
    else if convs[0].id == id then Some(0)
    else match FirstIndexOf(convs[1..], id)
      case None => None
      case Some(k) => Some(k + 1)
  }

  /** `conversations.find((c) => c.id === id)`. */
  function Find(convs: seq<Conversation>, id: string): (r: Option<Conversation>)
    ensures r.Some? ==> r.value in convs && r.value.id == id
    ensures r.None? <==> forall c :: c in convs ==> c.id != id
    ensures r.Some? ==> FirstIndexOf(convs, id).Some? && r.value == convs[FirstIndexOf(convs, id).value]
  {
    match FirstIndexOf(convs, id)
    case None => None
    case Some(k) => Some(convs[k])
  }

  /** `convs.map((conv) => conv.id === id ? f(conv) : conv)`. */
  function UpdateWhere(convs: seq<Conversation>, id: string, f: Conversation -> Conversation): (r: seq<Conversation>)
    ensures |r| == |convs|
    ensures forall i :: 0 <= i < |convs| ==> r[i] == if convs[i].id == id then f(convs[i]) else convs[i]
  {
    if convs == [] then []
    else [if convs[0].id == id then f(convs[0]) else convs[0]] + UpdateWhere(convs[1..], id, f)
  }

  function Ids(convs: seq<Conversation>): (r: seq<string>)
    ensures |r| == |convs| && forall i :: 0 <= i < |convs| ==> r[i] == convs[i].id
  {
    seq(|convs|, i requires 0 <= i < |convs| => convs[i].id)
  }

  /** The unread reset of a conversation switch: the matching conversations get `unread == 0`,
      keep their user and last message, and every other conversation is unchanged. */
  function ResetUnread(convs: seq<Conversation>, id: string): (r: seq<Conversation>)
    ensures Ids(r) == Ids(convs)
    ensures forall i :: 0 <= i < |convs| && convs[i].id == id ==>
      r[i].unread == 0 && r[i].user == convs[i].user && r[i].lastMessage == convs[i].lastMessage
    ensures forall i :: 0 <= i < |convs| && convs[i].id != id ==> r[i] == convs[i]
  {
    UpdateWhere(convs, id, (c: Conversation) => c.(unread := 0))
  }

  /** The `lastMessage` update of a send and of a reply: the matching conversations point at `m`,
      keep their user and unread count, and every other conversation is unchanged. */
  function SetLastMessage(convs: seq<Conversation>, id: string, m: Message): (r: seq<Conversation>)
    ensures Ids(r) == Ids(convs)
    ensures forall i :: 0 <= i < |convs| && convs[i].id == id ==>
      r[i].lastMessage == m && r[i].user == convs[i].user && r[i].unread == convs[i].unread
    ensures forall i :: 0 <= i < |convs| && convs[i].id != id ==> r[i] == convs[i]
  {
    UpdateWhere(convs, id, (c: Conversation) => c.(lastMessage := m))
  }

  /** Updates by id never change which ids can be found. */
  lemma {:induction false} FindAfterSameIds(convs: seq<Conversation>, convs': seq<Conversation>, id: string)
    requires Ids(convs') == Ids(convs)
    ensures Find(convs', id).Some? <==> Find(convs, id).Some?
  {
    assert |convs'| == |Ids(convs')| == |convs|;
    if Find(convs, id).Some? {
      var k := FirstIndexOf(convs, id).value;
      assert Ids(convs')[k] == Ids(convs)[k];
      assert convs'[k] in convs';
    }
  }

  /** Updates by id never bring in a conversation with the signed-in user. */
  lemma {:induction false} SameIdsAvoid(convs: seq<Conversation>, convs': seq<Conversation>, user: Option<User>)
    requires Ids(convs') == Ids(convs)
    requires user.Some? ==> forall c :: c in convs ==> c.id != user.value.id
    ensures user.Some? ==> forall c :: c in convs' ==> c.id != user.value.id
  {
    if user.Some? {
      assert |convs'| == |Ids(convs')| == |convs|;
      forall c | c in convs' ensures c.id != user.value.id {
        var i :| 0 <= i < |convs'| && convs'[i] == c;
        assert Ids(convs')[i] == Ids(convs)[i];
        assert convs[i] in convs;
      }
    }
  }

  /** No update raises an unread count: the page only ever resets it. */
  lemma NoUpdateRaisesUnread(convs: seq<Conversation>, id: string, m: Message)
    ensures forall i :: 0 <= i < |convs| ==> ResetUnread(convs, id)[i].unread <= convs[i].unread || convs[i].unread < 0
    ensures forall i :: 0 <= i < |convs| ==> SetLastMessage(convs, id, m)[i].unread == convs[i].unread
  {
  }

  /** Every conversation carries its contact's id and an unread count the page can produce. */
  ghost predicate WellFormed(convs: seq<Conversation>) {
    forall c :: c in convs ==> c.id == c.user.id && 0 <= c.unread <= 5
  }

  lemma {:induction false} ResetUnreadWellFormed(convs: seq<Conversation>, id: string)
    requires WellFormed(convs)
    ensures WellFormed(ResetUnread(convs, id))
  {
    var r := ResetUnread(convs, id);
    assert |r| == |Ids(r)| == |convs|;
    forall c | c in r ensures c.id == c.user.id && 0 <= c.unread <= 5 {
      var i :| 0 <= i < |r| && r[i] == c;
      assert Ids(r)[i] == Ids(convs)[i];
      assert convs[i] in convs;
    }
  }

  lemma {:induction false} SetLastMessageWellFormed(convs: seq<Conversation>, id: string, m: Message)
    requires WellFormed(convs)
    ensures WellFormed(SetLastMessage(convs, id, m))
  {
    var r := SetLastMessage(convs, id, m);
    assert |r| == |Ids(r)| == |convs|;
    forall c | c in r ensures c.id == c.user.id && 0 <= c.unread <= 5 {
      var i :| 0 <= i < |r| && r[i] == c;
      assert Ids(r)[i] == Ids(convs)[i];
      assert convs[i] in convs;
    }
  }

  // ---------------------------------------------------------------------------
  // Hidden chats and the sidebar

  /** `prev.filter((id) => id !== x)`: every occurrence of `x` goes, the rest stays in order. */
  function RemoveAll(s: seq<string>, x: string): (r: seq<string>)
    ensures |r| <= |s|
    ensures forall y :: y in r <==> y in s && y != x
  {
    if s == [] then []
    else if s[0] == x then RemoveAll(s[1..], x)
    else [s[0]] + RemoveAll(s[1..], x)
  }

  /** The hidden-chat checkbox: removes `id` when it is hidden, appends it otherwise. */
  function ToggleHidden(hidden: seq<string>, id: string): (r: seq<string>)
    ensures id in r <==> id !in hidden
    ensures forall y :: y != id ==> (y in r <==> y in hidden)
  {
    if id in hidden then RemoveAll(hidden, id) else hidden + [id]
  }

  /** Toggling the same chat twice gives back the same set of hidden ids. */
  lemma ToggleTwiceRestoresMembership(hidden: seq<string>, id: string)
    ensures forall y :: y in ToggleHidden(ToggleHidden(hidden, id), id) <==> y in hidden
  {
  }

  /** ... but not always the same list: a chat toggled twice moves to the end. */
  lemma ToggleTwiceMayReorder()
    ensures ToggleHidden(ToggleHidden(["a", "b"], "a"), "a") == ["b", "a"]
  {
    assert RemoveAll(["a", "b"], "a") == ["b"] by {
      assert ["a", "b"][1..] == ["b"];
      assert ["b"][1..] == [];
    }
  }

  predicate Distinct(s: seq<string>) {
    forall i, j :: 0 <= i < j < |s| ==> s[i] != s[j]
  }

  lemma {:induction false} RemoveAllDistinct(s: seq<string>, x: string)
    requires Distinct(s)
    ensures Distinct(RemoveAll(s, x))
  {
    if s != [] {
      RemoveAllDistinct(s[1..], x);
      if s[0] != x {
        var t := RemoveAll(s[1..], x);
        assert s[0] !in s[1..];
        assert s[0] !in t;
        assert RemoveAll(s, x) == [s[0]] + t;
      }
    }
  }

  /** The hidden list never holds an id twice. */
  lemma ToggleHiddenDistinct(hidden: seq<string>, id: string)
    requires Distinct(hidden)
    ensures Distinct(ToggleHidden(hidden, id))
  {
    if id in hidden {
      RemoveAllDistinct(hidden, id);
    }
  }

  /** The sidebar: `conversations.filter((conv) => !hiddenChats.includes(conv.id))`. */
  function Visible(convs: seq<Conversation>, hidden: seq<string>): (r: seq<Conversation>)
    ensures |r| <= |convs|
    ensures forall c :: c in r <==> c in convs && c.id !in hidden
  {
    if convs == [] then []
    else if convs[0].id in hidden then Visible(convs[1..], hidden)
    else [convs[0]] + Visible(convs[1..], hidden)
  }

  /** The sidebar keeps the original order: filtering a concatenation filters each part in place. */
  lemma {:induction false} VisibleAppend(a: seq<Conversation>, b: seq<Conversation>, hidden: seq<string>)
    ensures Visible(a + b, hidden) == Visible(a, hidden) + Visible(b, hidden)
  {
    if a == [] {
      assert a + b == b;
    } else {
      assert (a + b)[1..] == a[1..] + b;
      VisibleAppend(a[1..], b, hidden);
    }
  }

  /** With nothing hidden the sidebar is the whole list. */
  lemma {:induction false} VisibleNothingHidden(convs: seq<Conversation>, hidden: seq<string>)
    requires forall c :: c in convs ==> c.id !in hidden
    ensures Visible(convs, hidden) == convs
  {
    if convs != [] {
      VisibleNothingHidden(convs[1..], hidden);
    }
  }

  // ---------------------------------------------------------------------------
  // Demo data

  /** The arguments of one `generateRandomMessage(fromId, toId, asLastMessage, timestamp?)` call. */
  datatype DemoRequest = DemoRequest(fromId: string, toId: string, asLastMessage: bool, at: Option<int>)

  /** `generateRandomMessage` is not part of this model: it is a function parameter. A generator
      honours its arguments when the message it returns has the requested sender, receiver and
      timestamp; the demo-history lemmas about messages assume this and nothing more. */
  ghost predicate Honours(gen: DemoRequest -> Message) {
    forall q :: gen(q).senderId == q.fromId && gen(q).receiverId == q.toId
      && (q.at.Some? ==> gen(q).timestamp == q.at.value)
  }

  /** The `Array.from({ length: count }, (_, i) => ...)` history requests: odd positions are
      written by the signed-in user, even ones by the contact, at `now - (count - i) * 10 min`. */
  function HistoryRequests(selfId: string, peerId: string, now: int, count: nat): (r: seq<DemoRequest>)
    ensures |r| == count
  {
    seq(count, i requires 0 <= i < count =>
      var at := Some(now - (count - i) * TenMinutes);
      if i % 2 != 0 then DemoRequest(selfId, peerId, false, at) else DemoRequest(peerId, selfId, false, at))
  }

  /** The history opens with the contact, alternates its direction, and moves forward in time
      in ten-minute steps, ending ten minutes before `now`. */
  lemma HistoryRequestsShape(selfId: string, peerId: string, now: int, count: nat)
    ensures var r := HistoryRequests(selfId, peerId, now, count);
      && (count > 0 ==> r[0].fromId == peerId && r[0].toId == selfId)
      && (forall i :: 0 <= i < count - 1 ==> r[i + 1].fromId == r[i].toId && r[i + 1].toId == r[i].fromId)
      && (forall i :: 0 <= i < count ==> r[i].at.Some? && !r[i].asLastMessage)
      && (forall i :: 0 <= i < count - 1 ==> r[i + 1].at.value == r[i].at.value + TenMinutes)
      && (count > 0 ==> r[count - 1].at.value == now - TenMinutes)
  {
    var r := HistoryRequests(selfId, peerId, now, count);
    forall i | 0 <= i < count - 1
      ensures r[i + 1].fromId == r[i].toId && r[i + 1].toId == r[i].fromId
    {
      assert (i + 1) % 2 != 0 <==> i % 2 == 0;
    }
  }

  /** The generated history: one generator call per request, in order. */
  function History(gen: DemoRequest -> Message, selfId: string, peerId: string, now: int, count: nat): (r: seq<Message>)
    ensures |r| == count
  {
    var q := HistoryRequests(selfId, peerId, now, count);
    seq(count, i requires 0 <= i < count => gen(q[i]))
  }

  /** With a generator that honours its arguments, a history holds only messages between
      the user and that contact, in strictly increasing time, alternating sender. */
  lemma HistoryBetweenPair(gen: DemoRequest -> Message, selfId: string, peerId: string, now: int, count: nat)
    requires Honours(gen)
    ensures var h := History(gen, selfId, peerId, now, count);
      && (forall i :: 0 <= i < count ==>
            (h[i].senderId == selfId && h[i].receiverId == peerId) || (h[i].senderId == peerId && h[i].receiverId == selfId))
      && (forall i :: 0 <= i < count ==> h[i].senderId == (if i % 2 == 0 then peerId else selfId))
      && (forall i, j :: 0 <= i < j < count ==> h[i].timestamp < h[j].timestamp)
      && (forall i :: 0 <= i < count ==> h[i].timestamp < now)
  {
    var h := History(gen, selfId, peerId, now, count);
    var q := HistoryRequests(selfId, peerId, now, count);
    forall i | 0 <= i < count
      ensures h[i].timestamp == now - (count - i) * TenMinutes
      ensures h[i].senderId == (if i % 2 == 0 then peerId else selfId)
      ensures h[i].receiverId == (if i % 2 == 0 then selfId else peerId)
    {
      assert h[i] == gen(q[i]);
    }
  }

  /** The mount roll for a contact's unread count: `Math.random() > 0.7 ? Math.floor(Math.random() * 5) + 1 : 0`. */
  function UnreadFromRolls(first: real, second: real): (n: int)
    requires 0.0 <= second < 1.0
    ensures n == 0 || 1 <= n <= 5
    ensures n == 0 <==> first <= 0.7
  {
    if first > 0.7 then (second * 5.0).Floor + 1 else 0
  }

  /** `randomUsers.filter((contact) => contact.id !== selfId)`. */
  function ContactsExcept(users: seq<User>, selfId: string): (r: seq<User>)
    ensures |r| <= |users|
    ensures forall u :: u in r <==> u in users && u.id != selfId
  {
    if users == [] then []
    else if users[0].id == selfId then ContactsExcept(users[1..], selfId)
    else [users[0]] + ContactsExcept(users[1..], selfId)
  }

  /** The filter keeps the drawn order and any repeats: filtering a concatenation filters each
      part in place. */
  lemma {:induction false} ContactsExceptAppend(a: seq<User>, b: seq<User>, selfId: string)
    ensures ContactsExcept(a + b, selfId) == ContactsExcept(a, selfId) + ContactsExcept(b, selfId)
  {
    if a == [] {
      assert a + b == b;
    } else {
      assert (a + b)[1..] == a[1..] + b;
      ContactsExceptAppend(a[1..], b, selfId);
    }
  }

  predicate ValidRoll(roll: (real, real)) {
    0.0 <= roll.0 < 1.0 && 0.0 <= roll.1 < 1.0
  }

  /** The demo conversations of mount: one per contact, in contact order. */
  function DemoConversations(contacts: seq<User>, selfId: string, gen: DemoRequest -> Message,
                             rolls: seq<(real, real)>): (r: seq<Conversation>)
    requires |rolls| >= |contacts| && forall i :: 0 <= i < |rolls| ==> ValidRoll(rolls[i])
    ensures |r| == |contacts|
  {
    seq(|contacts|, i requires 0 <= i < |contacts| =>
      assert ValidRoll(rolls[i]);
      Conversation(contacts[i].id, contacts[i],
                   gen(DemoRequest(contacts[i].id, selfId, true, None)),
                   UnreadFromRolls(rolls[i].0, rolls[i].1)))
  }

  /** Mount yields exactly one conversation per contact, keyed by the contact's id, none of them
      with the signed-in user, each with an unread count of 0 or 1 to 5. */
  lemma DemoConversationsShape(users: seq<User>, selfId: string, gen: DemoRequest -> Message,
                               rolls: seq<(real, real)>)
    requires |rolls| >= |users| && forall i :: 0 <= i < |rolls| ==> ValidRoll(rolls[i])
    ensures var contacts := ContactsExcept(users, selfId);
      var r := DemoConversations(contacts, selfId, gen, rolls);
      && (forall i :: 0 <= i < |r| ==> r[i].id == contacts[i].id && r[i].user == contacts[i])
      && WellFormed(r)
      && (forall c :: c in r ==> c.id != selfId && c.user in users)
  {
    var contacts := ContactsExcept(users, selfId);
    var r := DemoConversations(contacts, selfId, gen, rolls);
    forall c | c in r ensures c.id == c.user.id && 0 <= c.unread <= 5 && c.id != selfId && c.user in users {
      var i :| 0 <= i < |r| && r[i] == c;
      assert ValidRoll(rolls[i]);
      assert c.unread == UnreadFromRolls(rolls[i].0, rolls[i].1);
      assert contacts[i] in contacts;
    }
  }

  /** Mount makes the first conversation active without resetting its unread count, so the
      active conversation starts with unread messages whenever its first roll exceeds 0.7. */
  lemma MountActiveMayHaveUnread(contacts: seq<User>, selfId: string, gen: DemoRequest -> Message,
                                 rolls: seq<(real, real)>)
    requires |rolls| >= |contacts| && forall i :: 0 <= i < |rolls| ==> ValidRoll(rolls[i])
    requires contacts != []
    ensures rolls[0].0 > 0.7 ==> DemoConversations(contacts, selfId, gen, rolls)[0].unread >= 1
    ensures rolls[0].0 <= 0.7 ==> DemoConversations(contacts, selfId, gen, rolls)[0].unread == 0
  {
    var r := DemoConversations(contacts, selfId, gen, rolls);
    assert ValidRoll(rolls[0]);
    assert r[0].unread == UnreadFromRolls(rolls[0].0, rolls[0].1);
  }

  // ---------------------------------------------------------------------------
  // Sending and the simulated reply

  /** The message `handleSendMessage` appends: id and timestamp from the clock, sender the user,
      receiver the contact, the trimmed compose text, status `sent`. */
  function OutgoingMessage(now: nat, selfId: string, peerId: string, compose: string): (m: Message)
    ensures m.senderId == selfId && m.receiverId == peerId && m.status == Sent
    ensures m.text == Trim(compose) && m.timestamp == now
    ensures AllDigits(m.id) && DecimalValue(m.id) == now
  {
    DecimalRoundTrip(now);
    Message(NatToDecimal(now), selfId, peerId, Trim(compose), now, Sent)
  }

  /** The message the reply timer appends: id one past its clock reading, sender the contact
      captured at send time, receiver the user, text from the reply source, status `delivered`. */
  function ReplyMessage(now: nat, peerId: string, selfId: string, text: string): (m: Message)
    ensures m.senderId == peerId && m.receiverId == selfId && m.status == Delivered
    ensures m.text == text && m.timestamp == now
    ensures AllDigits(m.id) && DecimalValue(m.id) == now + 1
  {
    DecimalRoundTrip(now + 1);
    Message(NatToDecimal(now + 1), peerId, selfId, text, now, Delivered)
  }

  /** `1000 + Math.random() * 2000`, for a roll in [0, 1). */
  function ReplyDelay(roll: real): (d: real)
    requires 0.0 <= roll < 1.0
    ensures 1000.0 <= d < 3000.0
  {
    1000.0 + roll * 2000.0
  }

  /** A reply read at or after its send has a larger numeric id and a different id:
      the reply id is its clock reading plus one. */
  lemma ReplyIdAfterSentId(sentAt: nat, replyAt: nat, selfId: string, peerId: string, compose: string, text: string)
    requires sentAt <= replyAt
    ensures var sent := OutgoingMessage(sentAt, selfId, peerId, compose);
      var reply := ReplyMessage(replyAt, peerId, selfId, text);
      DecimalValue(reply.id) > DecimalValue(sent.id) && reply.id != sent.id
  {
  }

  /** When the reply clock has moved on by the timer delay, the reply comes at least one
      second after the message it answers. */
  lemma ReplyAtLeastOneSecondLater(sentAt: nat, replyAt: nat, roll: real)
    requires 0.0 <= roll < 1.0
    requires replyAt as real >= sentAt as real + ReplyDelay(roll)
    ensures replyAt >= sentAt + 1000
    ensures DecimalValue(NatToDecimal(replyAt + 1)) > DecimalValue(NatToDecimal(sentAt)) + 1000
  {
    DecimalRoundTrip(replyAt + 1);
    DecimalRoundTrip(sentAt);
  }
}
