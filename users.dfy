/** The user-profile router (`/v1/users`): list and look up profiles, create
    the caller's profile on first sight (`/me`), and update its display
    fields (`/profile`) and presence status (`/status`).

    The `user_profiles` table is a sequence of rows in insertion order. The
    token's claims are a record of optional strings; `now` stands for
    `CURRENT_TIMESTAMP`. */
module Users {
  import opened Http
  import opened Strings
  import opened Seqs

  /** The claims of the verified token that the handlers read. */
  datatype Claims = Claims(
    sub: Option<string>,
    email: Option<string>,
    name: Option<string>,
    nickname: Option<string>,
    picture: Option<string>)

  /** A row of `user_profiles` with the columns the handlers return. */
  datatype Profile = Profile(
    userId: string,
    email: string,
    displayName: string,
    avatarUrl: Option<string>,
    status: Option<string>,
    statusMessage: Option<string>,
    lastSeen: Option<int>)

  /** The columns `/status` returns. */
  datatype StatusReceipt = StatusReceipt(userId: string, status: string, lastSeen: int)

  const FallbackDomain := "@fono.local"

  /** `userId.replace(/[|.]/g, '-')`: both '|' and '.' become '-'. */
  function MaskId(userId: string): (r: string)
    ensures |r| == |userId|
    ensures '|' !in r && '.' !in r
    ensures forall i :: 0 <= i < |userId| ==>
      r[i] == if userId[i] == '|' || userId[i] == '.' then '-' else userId[i]
  {
    var r := ReplaceIn(userId, {'|', '.'}, '-');
    assert forall i :: 0 <= i < |r| ==> r[i] != '|' && r[i] != '.';
    r
  }

  /** The address `/me` makes up for a token without an email. */
  function FallbackEmail(userId: string): string
  {
    MaskId(userId) + FallbackDomain
  }

  /** `userEmail || fallback`. */
  function EmailFor(claims: Claims, userId: string): string
  {
    if Present(claims.email) then claims.email.value else FallbackEmail(userId)
  }

  /** `name || nickname || email.split('@')[0]`: the first non-empty claim,
      else the email's text before its first '@'. */
  function DisplayName(claims: Claims, email: string): (r: string)
    ensures Present(claims.name) ==> r == claims.name.value
    ensures !Present(claims.name) && Present(claims.nickname) ==> r == claims.nickname.value
    ensures !Present(claims.name) && !Present(claims.nickname) ==>
      r == LocalPart(email) && r <= email && '@' !in r
  {
    if Present(claims.name) then claims.name.value
    else if Present(claims.nickname) then claims.nickname.value
    else LocalPart(email)
  }

  /** With neither an email, a name nor a nickname in the token, the display
      name is the masked id up to its first '@', and all of the masked id
      when the id holds no '@'. */
  lemma FallbackDisplayName(claims: Claims, userId: string)
    requires !Present(claims.email) && !Present(claims.name) && !Present(claims.nickname)
    ensures EmailFor(claims, userId) == MaskId(userId) + "@fono.local"
    ensures DisplayName(claims, EmailFor(claims, userId)) == LocalPart(MaskId(userId))
    ensures '@' !in userId ==> DisplayName(claims, EmailFor(claims, userId)) == MaskId(userId)
  {
    assert '@' in userId <==> '@' in MaskId(userId) by {
      assert forall i :: 0 <= i < |userId| ==> (MaskId(userId)[i] == '@' <==> userId[i] == '@');
    }
    assert FallbackEmail(userId) == MaskId(userId) + "@" + "fono.local";
    LocalPartOfJoin(MaskId(userId), "fono.local");
  }

  /** The profile `/me` inserts for a caller without one. The columns the
      insert leaves to their defaults are NULL here. */
  function NewProfile(claims: Claims, userId: string): Profile
  {
    var email := EmailFor(claims, userId);
    Profile(userId, email, DisplayName(claims, email),
            if Present(claims.picture) then Some(claims.picture.value) else None,
            None, None, None)
  }

  /** `WHERE user_id = $1`: the first matching row, if any. */
  function FindProfile(rows: seq<Profile>, userId: string): (k: Option<nat>)
    ensures k.Some? ==> k.value < |rows| && rows[k.value].userId == userId
    ensures k.Some? ==> forall i :: 0 <= i < k.value ==> rows[i].userId != userId
    ensures k.None? ==> forall i :: 0 <= i < |rows| ==> rows[i].userId != userId
  {
    if rows == [] then None
    else if rows[0].userId == userId then Some(0)
    else
      match FindProfile(rows[1..], userId)
      case None => None
      case Some(k) => Some(k + 1)
  }

  predicate UniqueUsers(rows: seq<Profile>)
  {
    forall i, j :: 0 <= i < |rows| && 0 <= j < |rows| && rows[i].userId == rows[j].userId ==> i == j
  }

  /** A profile appended for a user who had none is the one the next lookup
      of that user finds: a second `/me` returns it and inserts nothing. */
  lemma {:induction false} CreatedProfileIsFound(rows: seq<Profile>, p: Profile)
    requires FindProfile(rows, p.userId).None?
    ensures FindProfile(rows + [p], p.userId) == Some(|rows|)
  {
    if rows != [] {
      assert (rows + [p])[1..] == rows[1..] + [p];
      CreatedProfileIsFound(rows[1..], p);
    }
  }

  /** `SET display_name = COALESCE($2, display_name), avatar_url =
      COALESCE($3, avatar_url), status_message = $4`: a missing or null
      display name or avatar keeps the old one; the status message is
      always overwritten, with NULL when missing or null. */
  function Coalesced(p: Profile, displayName: Field, avatarUrl: Field, statusMessage: Field): (r: Profile)
    ensures r.userId == p.userId && r.email == p.email && r.status == p.status && r.lastSeen == p.lastSeen
    ensures r.displayName == if displayName.Str? then displayName.s else p.displayName
    ensures r.avatarUrl == if avatarUrl.Str? then Some(avatarUrl.s) else p.avatarUrl
    ensures r.statusMessage == Bound(statusMessage)
  {
    p.(displayName := if displayName.Str? then displayName.s else p.displayName,
       avatarUrl := if avatarUrl.Str? then Some(avatarUrl.s) else p.avatarUrl,
       statusMessage := Bound(statusMessage))
  }

  /** Sending the same `/profile` body twice has the effect of sending it
      once. */
  lemma CoalescedIdempotent(p: Profile, displayName: Field, avatarUrl: Field, statusMessage: Field)
    ensures Coalesced(Coalesced(p, displayName, avatarUrl, statusMessage), displayName, avatarUrl, statusMessage)
         == Coalesced(p, displayName, avatarUrl, statusMessage)
  {
  }

  /** The three values `/status` accepts. */
  predicate ValidStatus(status: Field)
  {
    status == Str("online") || status == Str("offline") || status == Str("away")
  }

  /** What `/status` writes into the caller's row. */
  function WithStatus(p: Profile, status: string, now: int): Profile
  {
    p.(status := Some(status), lastSeen := Some(now))
  }

  /** An UPDATE `WHERE user_id = $1`: `change` applied to every row of the
      user, every other row kept. */
  function UpdateUser(rows: seq<Profile>, userId: string, change: Profile -> Profile): seq<Profile>
  {
    seq(|rows|, i requires 0 <= i < |rows| => if rows[i].userId == userId then change(rows[i]) else rows[i])
  }

  /** With unique user ids an update touches the one profile of the user,
      and no row at all when the user has none. */
  lemma UpdateUserTouchesOnlyTarget(rows: seq<Profile>, userId: string, change: Profile -> Profile)
    requires UniqueUsers(rows)
    ensures FindProfile(rows, userId).None? ==> UpdateUser(rows, userId, change) == rows
    ensures FindProfile(rows, userId).Some? ==>
      var k := FindProfile(rows, userId).value;
      UpdateUser(rows, userId, change) == rows[k := change(rows[k])]
  {
  }

  function CoalesceWith(displayName: Field, avatarUrl: Field, statusMessage: Field): Profile -> Profile
  {
    p => Coalesced(p, displayName, avatarUrl, statusMessage)
  }

  function StatusWith(status: string, now: int): Profile -> Profile
  {
    p => WithStatus(p, status, now)
  }

  /** `ORDER BY display_name ASC`. */
  predicate DisplayNameAsc(a: Profile, b: Profile)
  {
    StrLe(a.displayName, b.displayName)
  }

  lemma DisplayNameAscIsPreorder()
    ensures TotalPreorder(DisplayNameAsc)
  {
    forall a: Profile, b: Profile
      ensures DisplayNameAsc(a, b) || DisplayNameAsc(b, a)
    {
      StrLeTotal(a.displayName, b.displayName);
    }
    forall a: Profile, b: Profile, c: Profile | DisplayNameAsc(a, b) && DisplayNameAsc(b, c)
      ensures DisplayNameAsc(a, c)
    {
      StrLeTransitive(a.displayName, b.displayName, c.displayName);
    }
  }

  /** The `user_profiles` table. */
  class ProfileTable {
    var rows: seq<Profile>

    ghost predicate Valid()
      reads this
    {
      UniqueUsers(rows)
    }

    constructor ()
      ensures Valid() && rows == []
    {
      rows := [];
    }

    /** GET `/`: every profile, in ascending display-name order (equal
        names in any order). */
    method List() returns (reply: Reply<seq<Profile>>)
      ensures reply.Ok? && reply.status == 200
      ensures SortedBy(reply.value, DisplayNameAsc)
      ensures multiset(reply.value) == multiset(rows)
    {
      DisplayNameAscIsPreorder();
      SortBySorted(rows, DisplayNameAsc);
      reply := Ok(200, SortBy(rows, DisplayNameAsc));
    }

    /** GET `/:userId`: 404 when no profile has that id, otherwise that
        profile. */
    method Get(userId: string) returns (reply: Reply<Profile>)
      ensures reply.Err? <==> forall i :: 0 <= i < |rows| ==> rows[i].userId != userId
      ensures reply.Err? ==> reply == Err(404, "User not found")
      ensures reply.Ok? ==> reply.status == 200 && reply.value in rows && reply.value.userId == userId
    {
      var k := FindProfile(rows, userId);
      if k.None? {
        reply := Err(404, "User not found");
      } else {
        reply := Ok(200, rows[k.value]);
      }
    }

    /** GET `/me`: 401 without a subject; an existing profile is returned
        unchanged and nothing is inserted; otherwise a profile with the
        fallback email and display name is inserted and returned. */
    method Me(claims: Claims) returns (reply: Reply<Profile>)
      requires Valid()
      modifies this
      ensures Valid()
      ensures !Present(claims.sub) ==> reply == Err(401, "User not authenticated") && rows == old(rows)
      ensures Present(claims.sub) && FindProfile(old(rows), claims.sub.value).Some? ==>
        && reply == Ok(200, old(rows)[FindProfile(old(rows), claims.sub.value).value])
        && rows == old(rows)
      ensures Present(claims.sub) && FindProfile(old(rows), claims.sub.value).None? ==>
        && reply == Ok(200, NewProfile(claims, claims.sub.value))
        && rows == old(rows) + [NewProfile(claims, claims.sub.value)]
    {
      if !Present(claims.sub) {
        reply := Err(401, "User not authenticated");
        return;
      }
      var userId := claims.sub.value;
      var result := FindProfile(rows, userId);
      if result.None? {
        var p := NewProfile(claims, userId);
        rows := rows + [p];
        CreatedProfileIsFound(old(rows), p);
        result := Some(|rows| - 1);
      }
      reply := Ok(200, rows[result.value]);
    }

    /** PUT `/profile`: 401 without a subject; 404 with nothing changed when
        the caller has no profile; otherwise the COALESCE update of the
        caller's row, every other row untouched. */
    method UpdateProfile(sub: Option<string>, displayName: Field, avatarUrl: Field, statusMessage: Field)
      returns (reply: Reply<Profile>)
      requires Valid()
      modifies this
      ensures Valid()
      ensures !Present(sub) ==> reply == Err(401, "User not authenticated") && rows == old(rows)
      ensures Present(sub) && FindProfile(old(rows), sub.value).None? ==>
        reply == Err(404, "User profile not found") && rows == old(rows)
      ensures Present(sub) && FindProfile(old(rows), sub.value).Some? ==>
        var k := FindProfile(old(rows), sub.value).value;
        && rows == old(rows)[k := Coalesced(old(rows)[k], displayName, avatarUrl, statusMessage)]
        && reply == Ok(200, rows[k])
    {
      if !Present(sub) {
        reply := Err(401, "User not authenticated");
        return;
      }
      var current := rows;
      var k := FindProfile(current, sub.value);
      UpdateUserTouchesOnlyTarget(current, sub.value, CoalesceWith(displayName, avatarUrl, statusMessage));
      rows := UpdateUser(current, sub.value, CoalesceWith(displayName, avatarUrl, statusMessage));
      if k.None? {
        reply := Err(404, "User profile not found");
      } else {
        reply := Ok(200, rows[k.value]);
      }
    }

    /** PUT `/status`: 401 without a subject, then 400 unless the status is
        "online", "offline" or "away"; 404 with nothing changed when the
        caller has no profile; otherwise the caller's status and `last_seen`
        are set. */
    method UpdateStatus(sub: Option<string>, status: Field, now: int) returns (reply: Reply<StatusReceipt>)
      requires Valid()
      modifies this
      ensures Valid()
      ensures !Present(sub) ==> reply == Err(401, "User not authenticated") && rows == old(rows)
      ensures Present(sub) && !ValidStatus(status) ==> reply == Err(400, "Invalid status value") && rows == old(rows)
      ensures Present(sub) && ValidStatus(status) && FindProfile(old(rows), sub.value).None? ==>
        reply == Err(404, "User profile not found") && rows == old(rows)
      ensures Present(sub) && ValidStatus(status) && FindProfile(old(rows), sub.value).Some? ==>
        var k := FindProfile(old(rows), sub.value).value;
        && rows == old(rows)[k := WithStatus(old(rows)[k], status.s, now)]
        && reply == Ok(200, StatusReceipt(sub.value, status.s, now))
    {
      if !Present(sub) {
        reply := Err(401, "User not authenticated");
        return;
      }
      if !ValidStatus(status) {
        reply := Err(400, "Invalid status value");
        return;
      }
      var current := rows;
      var k := FindProfile(current, sub.value);
      UpdateUserTouchesOnlyTarget(current, sub.value, StatusWith(status.s, now));
      rows := UpdateUser(current, sub.value, StatusWith(status.s, now));
      if k.None? {
        reply := Err(404, "User profile not found");
      } else {
        reply := Ok(200, StatusReceipt(sub.value, status.s, now));
      }
    }
  }
}
