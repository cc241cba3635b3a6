/** The realtime router (`/v1/pusher`): the private channel a user id maps to,
    the `/auth` check that a socket may join only its own private channel, and
    the `/typing` handler that picks the event to trigger. The signing done by
    `authorizeChannel` and the transport behind `trigger` are outside the
    model: a successful request returns the call it would make. */
module PusherAuth {
  import opened Http
  import opened Strings

  const ChannelPrefix := "private-chat-"

  /** The substitution the handlers apply to each character of a user id. */
  function Substitute(c: char): char
  {
    if c == '|' then '_' else if c == '.' then '-' else c
  }

  /** `id.replace(/\|/g, '_').replace(/\./g, '-')`: the two chained global
      replacements act as one per-character substitution that leaves no '|'
      and no '.' behind. */
  function SanitizeId(id: string): (r: string)
    ensures |r| == |id|
    ensures forall i :: 0 <= i < |id| ==> r[i] == Substitute(id[i])
    ensures '|' !in r && '.' !in r
  {
    var r := ReplaceIn(ReplaceIn(id, {'|'}, '_'), {'.'}, '-');
    assert forall i :: 0 <= i < |r| ==> r[i] != '|' && r[i] != '.';
    r
  }

  /** `private-chat-${sanitized}`: the private channel of a user. */
  function PrivateChannel(id: string): (r: string)
    ensures |r| == |ChannelPrefix| + |id|
    ensures r[..|ChannelPrefix|] == ChannelPrefix
    ensures forall i :: 0 <= i < |id| ==> r[|ChannelPrefix| + i] == Substitute(id[i])
  {
    ChannelPrefix + SanitizeId(id)
  }

  /** The channel `/auth` expects. With no subject, `userId?.replace(...)` is
      `undefined`, which the template literal spells out as text. */
  function ExpectedChannel(user: Option<string>): string
  {
    match user
    case Some(u) => PrivateChannel(u)
    case None => ChannelPrefix + "undefined"
  }

  /** The arguments `/auth` passes to `authorizeChannel`. */
  datatype ChannelGrant = ChannelGrant(socketId: Field, channel: string)

  /** POST `/auth`: the requested channel must equal the expected one; any
      other request gets a bare 403 and `authorizeChannel` is not called. */
  function Authorize(user: Option<string>, socketId: Field, channel: Field): (r: Reply<ChannelGrant>)
    ensures r.Ok? <==> channel == Str(ExpectedChannel(user))
    ensures r.Ok? ==> r.status == 200 && r.value == ChannelGrant(socketId, ExpectedChannel(user))
    ensures r.Err? ==> r == Err(403, "Forbidden")
  {
    if channel != Str(ExpectedChannel(user)) then Err(403, "Forbidden")
    else Ok(200, ChannelGrant(socketId, channel.s))
  }

  /** Two user ids share a private channel exactly when they sanitise alike. */
  lemma SameChannelIffSameSanitized(u: string, v: string)
    ensures PrivateChannel(u) == PrivateChannel(v) <==> SanitizeId(u) == SanitizeId(v)
  {
    if PrivateChannel(u) == PrivateChannel(v) {
      assert SanitizeId(u) == PrivateChannel(u)[|ChannelPrefix|..];
    }
  }

  /** A signed-in user is granted a private channel only when it is the one
      derived from their own id, up to the substitution. */
  lemma AuthorizeOwnChannelOnly(u: string, v: string, socketId: Field)
    ensures Authorize(Some(u), socketId, Str(PrivateChannel(v))).Ok? <==> SanitizeId(u) == SanitizeId(v)
  {
    SameChannelIffSameSanitized(u, v);
  }

  /** The substitution is not injective: the distinct ids `a|b` and `a_b` get
      the same channel, so each may subscribe to the other's. */
  lemma SanitizeNotInjective(socketId: Field)
    ensures "a|b" != "a_b"
    ensures PrivateChannel("a|b") == PrivateChannel("a_b")
    ensures Authorize(Some("a|b"), socketId, Str(PrivateChannel("a_b"))).Ok?
  {
    assert SanitizeId("a|b") == "a_b";
    assert SanitizeId("a_b") == "a_b";
  }

  /** A token without a subject is granted the channel
      `private-chat-undefined`, the same one a user whose id is the text
      "undefined" owns. */
  lemma MissingSubjectChannel(socketId: Field)
    ensures Authorize(None, socketId, Str("private-chat-undefined")).Ok?
    ensures ExpectedChannel(None) == PrivateChannel("undefined")
  {
    var id := "undefined";
    assert ExpectedChannel(None) == ChannelPrefix + id;
    assert ChannelPrefix + id == "private-chat-undefined";
    assert '|' !in id && '.' !in id;
    SanitizeKeepsPlainId(id);
    assert PrivateChannel(id) == ChannelPrefix + SanitizeId(id);
  }

  /** An id without '|' and '.' is its own sanitised form. */
  lemma SanitizeKeepsPlainId(id: string)
    requires '|' !in id && '.' !in id
    ensures SanitizeId(id) == id
  {
    assert forall i :: 0 <= i < |id| ==> SanitizeId(id)[i] == id[i];
  }

  /** The event `/typing` triggers: channel, event name and payload. */
  datatype TypingEvent = TypingEvent(channel: string, name: string, fromUserId: string, action: string, timestamp: string)

  predicate ValidAction(action: Field)
  {
    action == Str("start") || action == Str("stop")
  }

  /** POST `/typing`: 401 without a subject, then 400 for an action other
      than "start"/"stop", then 400 without a target; otherwise exactly one
      event, `user-typing-<action>`, on the target's private channel.
      `timestamp` stands for `new Date().toISOString()`. */
  function Typing(user: Option<string>, action: Field, targetUserId: Field, timestamp: string): (r: Reply<TypingEvent>)
    ensures r.Ok? <==> Present(user) && ValidAction(action) && Truthy(targetUserId)
    ensures !Present(user) ==> r == Err(401, "User not authenticated")
    ensures Present(user) && !ValidAction(action) ==>
      r == Err(400, "Invalid action. Must be \"start\" or \"stop\"")
    ensures Present(user) && ValidAction(action) && !Truthy(targetUserId) ==>
      r == Err(400, "Target user ID is required")
    ensures r.Ok? ==>
      && r.status == 200
      && r.value.channel == PrivateChannel(targetUserId.s)
      && r.value.name == "user-typing-" + action.s
      && r.value.fromUserId == user.value
      && r.value.action == action.s
      && r.value.timestamp == timestamp
  {
    if !Present(user) then Err(401, "User not authenticated")
    else if !ValidAction(action) then Err(400, "Invalid action. Must be \"start\" or \"stop\"")
    else if !Truthy(targetUserId) then Err(400, "Target user ID is required")
    else
      var channelName := ChannelPrefix + SanitizeId(targetUserId.s);
      Ok(200, TypingEvent(channelName, "user-typing-" + action.s, user.value, action.s, timestamp))
  }

  /** `/typing` and `/auth` derive the channel the same way: a typing event
      for `t` goes to the one channel that `/auth` grants to `t`. */
  lemma TypingReachesTargetChannel(u: string, action: Field, t: string, timestamp: string, socketId: Field)
    requires Typing(Some(u), action, Str(t), timestamp).Ok?
    ensures Authorize(Some(t), socketId, Str(Typing(Some(u), action, Str(t), timestamp).value.channel)).Ok?
    ensures forall v :: Authorize(Some(v), socketId, Str(Typing(Some(u), action, Str(t), timestamp).value.channel)).Ok?
                        <==> SanitizeId(v) == SanitizeId(t)
  {
    forall v
      ensures Authorize(Some(v), socketId, Str(PrivateChannel(t))).Ok? <==> SanitizeId(v) == SanitizeId(t)
    {
      AuthorizeOwnChannelOnly(v, t, socketId);
    }
  }
}
