/** The chat-message router (`/v1/chat_messages`): POST stores an encrypted
    message and answers with its non-sensitive columns; GET selects the
    caller's messages, orders them by creation time and decrypts each one on
    its own, putting a placeholder in place of any message that fails to
    decrypt.

    The `chat_messages` table is a sequence of rows in insertion order. The
    cipher is outside the model: `encrypt` is the cipher as called once for
    this send (its random IV included) and `decrypt` is any partial function,
    `None` standing for the exception it throws. */
module ChatMessages {
  import opened Http
  import opened Seqs

  /** The three hex strings the cipher produces and `decrypt` consumes. */
  datatype Envelope = Envelope(iv: string, encryptedText: string, tag: string)

  /** A row of `chat_messages`; NULL columns are `None`. */
  datatype MessageRow = MessageRow(
    id: nat,
    senderId: string,
    receiverId: Option<string>,
    encryptedContent: string,
    iv: string,
    authTag: string,
    createdAt: int,
    readStatus: bool,
    messageType: Option<string>)

  /** The columns the insert's `RETURNING` clause sends back: no ciphertext,
      IV or tag. */
  datatype MessageReceipt = MessageReceipt(
    id: nat,
    senderId: string,
    receiverId: Option<string>,
    createdAt: int,
    readStatus: bool,
    messageType: Option<string>)

  /** One entry of the list response: the row without `encrypted_content`,
      `iv` and `auth_tag`, plus the content. `decryptionError == false` stands
      for the key being absent from the JSON object. */
  datatype MessageView = MessageView(
    id: nat,
    senderId: string,
    receiverId: Option<string>,
    createdAt: int,
    readStatus: bool,
    messageType: Option<string>,
    content: string,
    decryptionError: bool)

  const DefaultMessageType := "text"
  const Placeholder := "[Could not decrypt message]"

  function Sealed(m: MessageRow): Envelope
  {
    Envelope(m.iv, m.encryptedContent, m.authTag)
  }

  function Receipt(m: MessageRow): MessageReceipt
  {
    MessageReceipt(m.id, m.senderId, m.receiverId, m.createdAt, m.readStatus, m.messageType)
  }

  /** `messageType = 'text'` in the destructuring: the default replaces only a
      missing member; an explicit null is stored as NULL. */
  function StoredType(messageType: Field): Option<string>
  {
    if messageType.Undefined? then Some(DefaultMessageType) else Bound(messageType)
  }

  /** One step of the response `map`: a row that decrypts keeps its
      metadata and gets its plaintext; a row that does not gets the
      placeholder and the error flag. */
  function DecryptRow(m: MessageRow, decrypt: Envelope -> Option<string>): (v: MessageView)
    ensures v.id == m.id && v.senderId == m.senderId && v.receiverId == m.receiverId
    ensures v.createdAt == m.createdAt && v.readStatus == m.readStatus && v.messageType == m.messageType
    ensures decrypt(Sealed(m)).Some? ==> v.content == decrypt(Sealed(m)).value && !v.decryptionError
    ensures decrypt(Sealed(m)).None? ==> v.content == Placeholder && v.decryptionError
  {
    match decrypt(Sealed(m))
    case Some(text) =>
      MessageView(m.id, m.senderId, m.receiverId, m.createdAt, m.readStatus, m.messageType, text, false)
    case None =>
      MessageView(m.id, m.senderId, m.receiverId, m.createdAt, m.readStatus, m.messageType, Placeholder, true)
  }

  /** `result.rows.map(...)`: one entry per fetched row, in the same position. */
  function DecryptAll(rows: seq<MessageRow>, decrypt: Envelope -> Option<string>): (r: seq<MessageView>)
    ensures |r| == |rows|
    ensures forall i :: 0 <= i < |rows| ==> r[i] == DecryptRow(rows[i], decrypt)
  {
    seq(|rows|, i requires 0 <= i < |rows| => DecryptRow(rows[i], decrypt))
  }

  /** A failure to decrypt one row does not reach the others: two decryptors
      that differ only on row `j`'s envelope give the same entry for every
      row with another envelope, and the response keeps its length. */
  lemma DecryptFailureIsolated(rows: seq<MessageRow>, j: nat, decrypt: Envelope -> Option<string>, decrypt': Envelope -> Option<string>)
    requires j < |rows|
    requires forall e :: e != Sealed(rows[j]) ==> decrypt(e) == decrypt'(e)
    ensures |DecryptAll(rows, decrypt)| == |DecryptAll(rows, decrypt')|
    ensures forall i :: 0 <= i < |rows| && Sealed(rows[i]) != Sealed(rows[j]) ==>
      DecryptAll(rows, decrypt)[i] == DecryptAll(rows, decrypt')[i]
  {
  }

  /** The two SELECTs of GET `/`. */
  datatype Query = SenderOrReceiver | Conversation

  /** The WHERE clause of each query, with `$1`, `$2` read from `values`. A
      NULL `receiver_id` equals nothing. */
  predicate Matches(q: Query, values: seq<string>, m: MessageRow)
  {
    match q
    case SenderOrReceiver =>
      |values| >= 1 && (m.senderId == values[0] || m.receiverId == Some(values[0]))
    case Conversation =>
      && |values| >= 2
      && ((m.senderId == values[0] && m.receiverId == Some(values[1]))
          || (m.senderId == values[1] && m.receiverId == Some(values[0])))
  }

  function MatchesBy(q: Query, values: seq<string>): MessageRow -> bool
  {
    m => Matches(q, values, m)
  }

  /** The rows a listing is meant to return: with a participant, the messages
      sent between the two users in either direction; without one, every
      message the user sent or received. */
  predicate Wanted(user: string, participantId: Option<string>, m: MessageRow)
  {
    if Present(participantId) then
      || (m.senderId == user && m.receiverId == Some(participantId.value))
      || (m.senderId == participantId.value && m.receiverId == Some(user))
    else
      m.senderId == user || m.receiverId == Some(user)
  }

  function WantedBy(user: string, participantId: Option<string>): MessageRow -> bool
  {
    m => Wanted(user, participantId, m)
  }

  /** `let query = ...; values.push(participantId)`: picks the SELECT and binds
      its parameters so that its WHERE clause selects exactly the wanted rows. */
  method SelectQuery(userId: string, participantId: Option<string>) returns (q: Query, values: seq<string>)
    ensures forall m :: Matches(q, values, m) <==> Wanted(userId, participantId, m)
  {
    q := SenderOrReceiver;
    values := [userId];
    if Present(participantId) {
      q := Conversation;
      values := values + [participantId.value];
    }
  }

  /** `ORDER BY created_at ASC`. */
  predicate CreatedAsc(a: MessageRow, b: MessageRow)
  {
    a.createdAt <= b.createdAt
  }

  lemma CreatedAscIsPreorder()
    ensures TotalPreorder(CreatedAsc)
  {
  }

  /** The two participants of a conversation fetch the same rows. */
  lemma ConversationIsSymmetric(rows: seq<MessageRow>, u: string, v: string)
    requires u != "" && v != ""
    ensures Filter(rows, WantedBy(u, Some(v))) == Filter(rows, WantedBy(v, Some(u)))
  {
    FilterCongruent(rows, WantedBy(u, Some(v)), WantedBy(v, Some(u)));
  }

  /** A message from `u` to `v` appended to the table joins the end of the
      conversation both of them fetch, and nothing else joins it. */
  lemma SentMessageJoinsConversation(rows: seq<MessageRow>, m: MessageRow, v: string)
    requires m.senderId != "" && v != "" && m.receiverId == Some(v)
    ensures Filter(rows + [m], WantedBy(m.senderId, Some(v))) == Filter(rows, WantedBy(m.senderId, Some(v))) + [m]
    ensures Filter(rows + [m], WantedBy(v, Some(m.senderId))) == Filter(rows, WantedBy(v, Some(m.senderId))) + [m]
  {
    FilterAppend(rows, m, WantedBy(m.senderId, Some(v)));
    FilterAppend(rows, m, WantedBy(v, Some(m.senderId)));
  }

  /** The `chat_messages` table. `nextId` is the id sequence's next value. */
  class MessageTable {
    var rows: seq<MessageRow>
    var nextId: nat

    /** Ids grow with insertion order and stay below the sequence's next
        value, so no two rows share an id. */
    ghost predicate Valid()
      reads this
    {
      && (forall i, j :: 0 <= i < j < |rows| ==> rows[i].id < rows[j].id)
      && (forall i :: 0 <= i < |rows| ==> rows[i].id < nextId)
    }

    constructor ()
      ensures Valid() && rows == []
    {
      rows := [];
      nextId := 1;
    }

    /** POST `/`: 401 before anything else when there is no sender, 400 when
        the content is missing or empty; otherwise one row is appended, owned
        by the sender, and 201 carries only its non-sensitive columns. */
    method Send(sender: Option<string>, receiverId: Field, content: Field, messageType: Field,
                encrypt: string -> Envelope, now: int) returns (reply: Reply<MessageReceipt>)
      requires Valid()
      modifies this
      ensures Valid()
      ensures !Present(sender) ==> reply == Err(401, "Sender not authenticated.") && rows == old(rows)
      ensures Present(sender) && !Truthy(content) ==>
        reply == Err(400, "Message content is required.") && rows == old(rows)
      ensures Present(sender) && Truthy(content) ==>
        && |rows| == |old(rows)| + 1
        && rows[..|old(rows)|] == old(rows)
        && var m := rows[|old(rows)|];
           && m.senderId == sender.value
           && m.receiverId == Bound(receiverId)
           && m.messageType == (if messageType.Undefined? then Some("text") else Bound(messageType))
           && Sealed(m) == encrypt(content.s)
           && m.createdAt == now
           && !m.readStatus
           && (forall r :: r in old(rows) ==> r.id != m.id)
           && reply == Ok(201, Receipt(m))
    {
      if !Present(sender) {
        reply := Err(401, "Sender not authenticated.");
        return;
      }
      if !Truthy(content) {
        reply := Err(400, "Message content is required.");
        return;
      }
      var sealed := encrypt(content.s);
      var m := MessageRow(nextId, sender.value, Bound(receiverId), sealed.encryptedText, sealed.iv, sealed.tag,
                          now, false, StoredType(messageType));
      rows := rows + [m];
      nextId := nextId + 1;
      reply := Ok(201, Receipt(m));
    }

    /** GET `/`: 401 when there is no user; otherwise the wanted rows, in
        non-decreasing `created_at` order (equal timestamps in any order),
        each decrypted on its own. `fetched` is the result of the SELECT. */
    method List(user: Option<string>, participantId: Option<string>, decrypt: Envelope -> Option<string>)
      returns (reply: Reply<seq<MessageView>>, ghost fetched: seq<MessageRow>)
      ensures !Present(user) ==> reply == Err(401, "User not authenticated.")
      ensures Present(user) ==>
        && reply == Ok(200, DecryptAll(fetched, decrypt))
        && SortedBy(fetched, CreatedAsc)
        && multiset(fetched) == multiset(Filter(rows, WantedBy(user.value, participantId)))
    {
      if !Present(user) {
        reply, fetched := Err(401, "User not authenticated."), [];
        return;
      }
      var q, values := SelectQuery(user.value, participantId);
      var selected := Filter(rows, MatchesBy(q, values));
      FilterCongruent(rows, MatchesBy(q, values), WantedBy(user.value, participantId));
      var ordered := SortBy(selected, CreatedAsc);
      CreatedAscIsPreorder();
      SortBySorted(selected, CreatedAsc);
      fetched := ordered;
      reply := Ok(200, DecryptAll(ordered, decrypt));
    }
  }
}
