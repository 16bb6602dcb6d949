/** The `profiles` table of the hosted store, as an in-memory map from user
    id to row, and the handle the page offers when a user opens it. */
module Profiles {
  import opened Options
  import opened JsString

  /** A user id as issued by the auth service. */
  type Id = string

  /** An ISO-8601 time stamp, as produced by `new Date().toISOString()`. */
  type Timestamp = string

  /** One row: the claimed username (null until first set) and the time of
      the last write. */
  datatype Profile = Profile(username: Option<string>, updatedAt: Timestamp)

  /** Rows keyed by id: at most one profile per user. */
  type Table = map<Id, Profile>

  /** `select('username').eq('id', id).single()`: the stored username, or
      nothing when the row is absent or its username is null. */
  function StoredUsername(t: Table, id: Id): Option<string>
  {
    if id in t then t[id].username else None
  }

  /** Some row other than `self`'s holds `name` (the comparison is
      case-sensitive). */
  predicate TakenByOther(t: Table, self: Id, name: string) {
    exists id :: id in t && id != self && t[id].username == Some(name)
  }

  /** No username is held by two different rows. */
  ghost predicate UniqueHandles(t: Table) {
    forall a, b :: a in t && b in t && a != b && t[a].username.Some? ==> t[a].username != t[b].username
  }

  const FallbackHandle: string := "user"

  /** The editable username shown after loading: the stored username when
      it is non-empty, else `email.split('@')[0]`, else `"user"` (for a
      missing email or an empty prefix). */
  function DefaultHandle(stored: Option<string>, email: Option<string>): string {
    if stored.Some? && stored.value != [] then stored.value
    else
      var prefix := if email.Some? then BeforeFirst(email.value, '@') else [];
      if prefix != [] then prefix else FallbackHandle
  }

  /** The derived handle is never empty, and when no username is stored it
      is either the fallback or a prefix of the email that ends just
      before its first `@` (or at its end) and holds no `@`. */
  lemma {:induction false} DefaultHandleShape(stored: Option<string>, email: Option<string>)
    ensures DefaultHandle(stored, email) != []
    ensures stored.Some? && stored.value != [] ==> DefaultHandle(stored, email) == stored.value
    ensures !(stored.Some? && stored.value != []) ==>
              var h := DefaultHandle(stored, email);
              h == FallbackHandle
              || (email.Some? && '@' !in h && |h| <= |email.value| && h == email.value[..|h|]
                  && (|h| < |email.value| ==> email.value[|h|] == '@'))
  {
  }

  /** With no non-empty stored username, an email `local@domain` whose
      local part is non-empty yields that local part. */
  lemma {:induction false} DefaultHandleFromEmail(stored: Option<string>, local: string, domain: string)
    requires stored.None? || stored.value == []
    requires local != [] && '@' !in local
    ensures DefaultHandle(stored, Some(local + "@" + domain)) == local
  {
    BeforeFirstOfJoin(local, '@', domain);
  }

  /** An email without `@` is used whole. */
  lemma {:induction false} DefaultHandleWholeEmail(stored: Option<string>, email: string)
    requires stored.None? || stored.value == []
    requires email != [] && '@' !in email
    ensures DefaultHandle(stored, Some(email)) == email
  {
    assert '@' !in BeforeFirst(email, '@');
  }

  /** A missing email, an empty one, or one whose first character is `@`
      leaves the fallback `"user"`. */
  lemma DefaultHandleFallback(stored: Option<string>, email: Option<string>)
    requires stored.None? || stored.value == []
    requires email.None? || email.value == [] || email.value[0] == '@'
    ensures DefaultHandle(stored, email) == "user"
  {
  }
}
