/** The account page component: the state it keeps, `loadUserProfile` and
    `handleUsernameChange`. The hosted service is reduced to the `profiles`
    table and to the reply each call gets, passed in as a parameter. */
module Account {
  import opened Options
  import opened JsString
  import opened Handle
  import opened Profiles

  /** The signed-in user, as far as the page reads it. */
  datatype User = User(id: Id, email: Option<string>)

  /** What `auth.getUser()` did: it threw, or it answered with a user or
      with none. */
  datatype AuthReply = AuthThrew | AuthAnswered(user: Option<User>)

  /** What the fetch of the user's own row did: it ran against the table
      (an absent row is the expected not-found answer); it answered with
      another error, which is only logged, so the row counts as absent;
      or it threw. */
  datatype FetchReply = FetchAnswered | FetchFailed | FetchThrew

  /** What the query for another row holding the name did: it ran against
      the table; it answered with an error and no row, so the name counts
      as free; or it threw, with the exception's message ("" standing for
      an empty or missing one). */
  datatype LookupReply = LookupAnswered | LookupFailed | LookupThrew(errorText: string)

  /** What the upsert did: the row was written, or the service reported an
      error (rethrown by the handler) or threw, with its message ("" for an
      empty or missing one). */
  datatype WriteReply = WriteOk | WriteFailed(errorText: string)

  /** A request the page sends to the hosted service. */
  datatype Request =
    | GetUser
    | SelectProfile(id: Id)
    | SelectByUsername(name: string, excluding: Id)
    | UpsertProfile(id: Id, name: string, at: Timestamp)

  datatype ClaimError = Invalid(reason: Rejection) | UsernameTaken | ServiceFailed(serviceText: string)

  datatype Outcome = Claimed | Failed(error: ClaimError)

  datatype MessageKind = Success | Error

  /** The status line shown under the form. */
  datatype Message = Message(kind: MessageKind, text: string)

  const SuccessText: string := "Username updated successfully!"
  const RetryText: string := "Failed to update username. Please try again."
  const LoadFailedText: string := "Failed to load profile"

  /** The text shown for each failure; a service failure shows the
      service's own message when it has one. */
  function ErrorText(e: ClaimError): (t: string)
    ensures t != []
    ensures e.ServiceFailed? ==> t == (if e.serviceText != [] then e.serviceText else RetryText)
  {
    match e
    case Invalid(NotLoggedIn) => "You must be logged in"
    case Invalid(EmptyUsername) => "Username cannot be empty"
    case Invalid(TooShort) => "Username must be at least 3 characters"
    case Invalid(TooLong) => "Username must be less than 30 characters"
    case Invalid(InvalidCharacters) => "Username can only contain letters, numbers, underscores, and hyphens"
    case UsernameTaken => "This username is already taken"
    case ServiceFailed(t) => if t != [] then t else RetryText
  }

  function MessageOf(o: Outcome): (m: Message)
    ensures m.kind == Success <==> o == Claimed
  {
    match o
    case Claimed => Message(Success, SuccessText)
    case Failed(e) => Message(Error, ErrorText(e))
  }

  /** The effect of one submission: its outcome, the table afterwards and
      the requests sent, in order. */
  datatype ClaimResult = ClaimResult(outcome: Outcome, profiles: Table, requests: seq<Request>)

  /** The part of a submission after validation: the query for another
      row holding `name`, then the upsert of `id`'s row. */
  function ClaimChecked(id: Id, name: string, profiles: Table,
                        lookup: LookupReply, write: WriteReply, now: Timestamp): ClaimResult
  {
    var query := SelectByUsername(name, id);
    if lookup.LookupThrew? then
      ClaimResult(Failed(ServiceFailed(lookup.errorText)), profiles, [query])
    else if lookup.LookupAnswered? && TakenByOther(profiles, id, name) then
      ClaimResult(Failed(UsernameTaken), profiles, [query])
    else
      var upsert := UpsertProfile(id, name, now);
      match write
      case WriteOk => ClaimResult(Claimed, profiles[id := Profile(Some(name), now)], [query, upsert])
      case WriteFailed(t) => ClaimResult(Failed(ServiceFailed(t)), profiles, [query, upsert])
  }

  /** One submission of `input` by `user` against `profiles`, given the
      replies of the two service calls and the time of the write. */
  function Claim(user: Option<User>, input: string, profiles: Table,
                 lookup: LookupReply, write: WriteReply, now: Timestamp): ClaimResult
  {
    match Validate(user.Some?, input)
    case Rejected(reason) => ClaimResult(Failed(Invalid(reason)), profiles, [])
    case Accepted => ClaimChecked(user.value.id, Trim(input), profiles, lookup, write, now)
  }

  /** A signed-in user's well-formed handle passes the chain and goes to
      the service as typed. */
  lemma {:induction false} ClaimOfHandle(u: User, input: string, profiles: Table,
                      lookup: LookupReply, write: WriteReply, now: Timestamp)
    requires IsHandle(input)
    ensures Claim(Some(u), input, profiles, lookup, write, now)
            == ClaimChecked(u.id, input, profiles, lookup, write, now)
  {
    ValidateAcceptsExactlyHandles(true, input);
    AcceptedInputIsTrimmed(true, input);
  }

  /** Anything else is refused by the chain, before any request. */
  lemma {:induction false} ClaimOfNonHandle(user: Option<User>, input: string, profiles: Table,
                         lookup: LookupReply, write: WriteReply, now: Timestamp)
    requires !(user.Some? && IsHandle(input))
    ensures Validate(user.Some?, input).Rejected?
    ensures Claim(user, input, profiles, lookup, write, now)
            == ClaimResult(Failed(Invalid(Validate(user.Some?, input).reason)), profiles, [])
  {
    ValidateAcceptsExactlyHandles(user.Some?, input);
  }

  /** Without a signed-in user the submission fails with "You must be
      logged in" and the table is neither queried nor written. */
  lemma ClaimWithoutUser(input: string, profiles: Table, lookup: LookupReply, write: WriteReply, now: Timestamp)
    ensures var r := Claim(None, input, profiles, lookup, write, now);
            r.outcome == Failed(Invalid(NotLoggedIn)) && r.profiles == profiles && r.requests == []
            && MessageOf(r.outcome) == Message(Error, "You must be logged in")
  {
  }

  /** A submission is refused before any request exactly when the chain
      rejects it, with the chain's reason, and nothing is written. */
  lemma {:induction false} ClaimRejectsBeforeAnyRequest(user: Option<User>, input: string, profiles: Table,
                                     lookup: LookupReply, write: WriteReply, now: Timestamp)
    ensures var r := Claim(user, input, profiles, lookup, write, now);
            (r.outcome.Failed? && r.outcome.error.Invalid?) <==> !(user.Some? && IsHandle(input))
    ensures var r := Claim(user, input, profiles, lookup, write, now);
            r.requests == [] <==> !(user.Some? && IsHandle(input))
    ensures var r := Claim(user, input, profiles, lookup, write, now);
            r.requests == [] ==> r.profiles == profiles && r.outcome == Failed(Invalid(Validate(user.Some?, input).reason))
  {
    if user.Some? && IsHandle(input) {
      ClaimOfHandle(user.value, input, profiles, lookup, write, now);
    } else {
      ClaimOfNonHandle(user, input, profiles, lookup, write, now);
    }
  }

  /** A submission succeeds exactly when the user is signed in, the input
      is a well-formed handle, the query did not throw, no other row holds
      the name (unless the query answered with an error) and the write went
      through. */
  lemma {:induction false} ClaimSucceedsIff(user: Option<User>, input: string, profiles: Table,
                         lookup: LookupReply, write: WriteReply, now: Timestamp)
    ensures Claim(user, input, profiles, lookup, write, now).outcome == Claimed
            <==> (user.Some? && IsHandle(input) && !lookup.LookupThrew?
                  && !(lookup.LookupAnswered? && TakenByOther(profiles, user.value.id, input))
                  && write.WriteOk?)
  {
    if user.Some? && IsHandle(input) {
      ClaimOfHandle(user.value, input, profiles, lookup, write, now);
    } else {
      ClaimOfNonHandle(user, input, profiles, lookup, write, now);
    }
  }

  /** After validation, only a successful write changes the table, and it
      sets `id`'s row alone. */
  lemma ClaimCheckedEffect(id: Id, name: string, profiles: Table,
                                              lookup: LookupReply, write: WriteReply, now: Timestamp)
    ensures var r := ClaimChecked(id, name, profiles, lookup, write, now);
            r.outcome == Claimed ==>
              r.profiles == profiles[id := Profile(Some(name), now)]
              && r.requests == [SelectByUsername(name, id), UpsertProfile(id, name, now)]
    ensures var r := ClaimChecked(id, name, profiles, lookup, write, now);
            r.outcome != Claimed ==> r.profiles == profiles
  {
  }

  /** A successful claim stores exactly the typed input (which is its own
      trim) with the time of the write in the caller's row, inserting the
      row when absent; every other row is untouched, and a failed
      submission leaves the whole table as it was. */
  lemma {:induction false} ClaimWritesOnlyOwnRow(user: Option<User>, input: string, profiles: Table,
                              lookup: LookupReply, write: WriteReply, now: Timestamp)
    ensures var r := Claim(user, input, profiles, lookup, write, now);
            r.outcome == Claimed ==>
              user.Some? && IsHandle(input)
              && r.profiles == profiles[user.value.id := Profile(Some(input), now)]
              && r.requests == [SelectByUsername(input, user.value.id), UpsertProfile(user.value.id, input, now)]
    ensures var r := Claim(user, input, profiles, lookup, write, now);
            r.outcome != Claimed ==> r.profiles == profiles
    ensures var r := Claim(user, input, profiles, lookup, write, now);
            forall id :: id in profiles && (user.None? || id != user.value.id) ==>
              id in r.profiles && r.profiles[id] == profiles[id]
  {
    if user.Some? && IsHandle(input) {
      ClaimOfHandle(user.value, input, profiles, lookup, write, now);
      ClaimCheckedEffect(user.value.id, input, profiles, lookup, write, now);
    } else {
      ClaimOfNonHandle(user, input, profiles, lookup, write, now);
    }
  }

  /** The name is reported taken exactly when the input is otherwise
      acceptable, the query answered, and a row with a different id holds
      it; nothing is written then. */
  lemma {:induction false} ClaimTakenIff(user: Option<User>, input: string, profiles: Table,
                      lookup: LookupReply, write: WriteReply, now: Timestamp)
    ensures Claim(user, input, profiles, lookup, write, now).outcome == Failed(UsernameTaken)
            <==> (user.Some? && IsHandle(input) && lookup.LookupAnswered?
                  && TakenByOther(profiles, user.value.id, input))
    ensures var r := Claim(user, input, profiles, lookup, write, now);
            r.outcome == Failed(UsernameTaken) ==>
              r.profiles == profiles && r.requests == [SelectByUsername(input, user.value.id)]
  {
    if user.Some? && IsHandle(input) {
      ClaimOfHandle(user.value, input, profiles, lookup, write, now);
    } else {
      ClaimOfNonHandle(user, input, profiles, lookup, write, now);
    }
  }

  /** A user's own row never blocks: re-saving the handle one already holds
      succeeds when the table has unique handles, and the row keeps it. */
  lemma {:induction false} ResavingOwnHandleSucceeds(u: User, h: string, profiles: Table, now: Timestamp)
    requires StoredUsername(profiles, u.id) == Some(h) && IsHandle(h)
    requires UniqueHandles(profiles)
    ensures var r := Claim(Some(u), h, profiles, LookupAnswered, WriteOk, now);
            r.outcome == Claimed && r.profiles.Keys == profiles.Keys
            && r.profiles[u.id] == Profile(Some(h), now)
  {
    assert u.id in profiles && profiles[u.id].username == Some(h);
    ClaimOfHandle(u, h, profiles, LookupAnswered, WriteOk, now);
    assert !TakenByOther(profiles, u.id, h);
  }

  /** When the write fails (or the query throws) the message is the
      service's text, or the retry prompt when that text is empty, and
      the table is unchanged. */
  lemma {:induction false} ServiceFailureMessage(u: User, input: string, profiles: Table,
                              lookup: LookupReply, write: WriteReply, now: Timestamp)
    requires IsHandle(input)
    requires lookup.LookupThrew?
             || (write.WriteFailed? && !(lookup.LookupAnswered? && TakenByOther(profiles, u.id, input)))
    ensures var t := if lookup.LookupThrew? then lookup.errorText else write.errorText;
            var r := Claim(Some(u), input, profiles, lookup, write, now);
            r.outcome == Failed(ServiceFailed(t)) && r.profiles == profiles
            && MessageOf(r.outcome) == Message(Error, if t != [] then t else RetryText)
  {
    ClaimOfHandle(u, input, profiles, lookup, write, now);
  }

  /** A submission whose query answers keeps handles unique. */
  lemma {:induction false} ClaimPreservesUniqueHandles(user: Option<User>, input: string, profiles: Table,
                                    lookup: LookupReply, write: WriteReply, now: Timestamp)
    requires UniqueHandles(profiles)
    requires !lookup.LookupFailed?
    ensures UniqueHandles(Claim(user, input, profiles, lookup, write, now).profiles)
  {
    var r := Claim(user, input, profiles, lookup, write, now);
    ClaimWritesOnlyOwnRow(user, input, profiles, lookup, write, now);
    ClaimSucceedsIff(user, input, profiles, lookup, write, now);
    if r.outcome == Claimed {
      var id := user.value.id;
      forall a, b | a in r.profiles && b in r.profiles && a != b && r.profiles[a].username.Some?
        ensures r.profiles[a].username != r.profiles[b].username
      {
        if a == id {
          assert !(b in profiles && b != id && profiles[b].username == Some(input));
        } else if b == id {
          assert !(a in profiles && a != id && profiles[a].username == Some(input));
        }
      }
    }
  }

  /** A query that answers with an error lets a second user take a name
      that is already held: the check gives no uniqueness then. */
  lemma {:induction false} FailedLookupCanDuplicate(x: Id, y: Id, t: Timestamp, now: Timestamp)
    requires x != y
    ensures var profiles := map[x := Profile(Some("alice"), t)];
            UniqueHandles(profiles)
            && !UniqueHandles(Claim(Some(User(y, None)), "alice", profiles, LookupFailed, WriteOk, now).profiles)
  {
    var profiles := map[x := Profile(Some("alice"), t)];
    assert IsHandle("alice");
    ClaimOfHandle(User(y, None), "alice", profiles, LookupFailed, WriteOk, now);
    var after := profiles[y := Profile(Some("alice"), now)];
    assert x in after && y in after && after[x].username == after[y].username == Some("alice");
  }

  /** The owner of "alice" may save it again; another user may not. */
  lemma {:induction false} AliceScenario(x: Id, y: Id, t: Timestamp, now: Timestamp)
    requires x != y
    ensures var profiles := map[x := Profile(Some("alice"), t)];
            Claim(Some(User(y, None)), "alice", profiles, LookupAnswered, WriteOk, now).outcome == Failed(UsernameTaken)
            && Claim(Some(User(x, None)), "alice", profiles, LookupAnswered, WriteOk, now).outcome == Claimed
            && Claim(Some(User(x, None)), "alice", profiles, LookupAnswered, WriteOk, now).profiles
               == map[x := Profile(Some("alice"), now)]
  {
    var profiles := map[x := Profile(Some("alice"), t)];
    assert IsHandle("alice");
    ClaimOfHandle(User(y, None), "alice", profiles, LookupAnswered, WriteOk, now);
    assert TakenByOther(profiles, y, "alice") by {
      assert x in profiles && x != y && profiles[x].username == Some("alice");
    }
    ClaimOfHandle(User(x, None), "alice", profiles, LookupAnswered, WriteOk, now);
    assert !TakenByOther(profiles, x, "alice");
  }

  /** After a successful claim, loading the page again offers the claimed
      handle, whatever the email. */
  lemma {:induction false} ClaimThenReload(user: Option<User>, input: string, profiles: Table,
                        lookup: LookupReply, write: WriteReply, now: Timestamp, email: Option<string>)
    requires Claim(user, input, profiles, lookup, write, now).outcome == Claimed
    ensures user.Some?
    ensures DefaultHandle(StoredUsername(Claim(user, input, profiles, lookup, write, now).profiles, user.value.id), email)
            == input
  {
    ClaimWritesOnlyOwnRow(user, input, profiles, lookup, write, now);
  }

  /** The page's component state, together with the hosted table it talks
      to and the log of requests it has sent. */
  class AccountPage {
    var user: Option<User>
    var username: string
    var loading: bool
    var saving: bool
    var message: Option<Message>
    /** The hosted `profiles` table, as the page's requests see it. */
    var profiles: Table
    /** The requests sent to the hosted service so far, in order. */
    var sent: seq<Request>

    /** The state on first render, against a given table. */
    constructor (profiles: Table)
      ensures user == None && username == [] && loading && !saving && message == None
      ensures this.profiles == profiles && sent == []
    {
      user := None;
      username := [];
      loading := true;
      saving := false;
      message := None;
      this.profiles := profiles;
      sent := [];
    }

    /** `loadUserProfile`: read the user, then their row, and fill in the
        editable username. */
    method LoadUserProfile(auth: AuthReply, fetch: FetchReply)
      modifies this
      ensures !loading && saving == old(saving) && profiles == old(profiles)
      ensures auth.AuthThrew? ==>
                user == old(user) && username == old(username)
                && message == Some(Message(Error, LoadFailedText)) && sent == old(sent) + [GetUser]
      ensures auth == AuthAnswered(None) ==>
                user == old(user) && username == old(username)
                && message == old(message) && sent == old(sent) + [GetUser]
      ensures auth.AuthAnswered? && auth.user.Some? ==>
                var u := auth.user.value;
                user == Some(u) && sent == old(sent) + [GetUser, SelectProfile(u.id)]
                && (fetch.FetchThrew? ==>
                      username == old(username) && message == Some(Message(Error, LoadFailedText)))
                && (fetch.FetchFailed? ==>
                      username == DefaultHandle(None, u.email) && message == old(message))
                && (fetch.FetchAnswered? ==>
                      username == DefaultHandle(StoredUsername(profiles, u.id), u.email)
                      && message == old(message))
    {
      sent := sent + [GetUser];
      if auth.AuthThrew? {
        message := Some(Message(Error, LoadFailedText));
      } else if auth.user.Some? {
        var current := auth.user.value;
        user := Some(current);
        sent := sent + [SelectProfile(current.id)];
        if fetch.FetchThrew? {
          message := Some(Message(Error, LoadFailedText));
        } else {
          var stored := if fetch.FetchAnswered? then StoredUsername(profiles, current.id) else None;
          if stored.Some? && stored.value != [] {
            username := stored.value;
          } else {
            var prefix := if current.email.Some? then BeforeFirst(current.email.value, '@') else [];
            username := if prefix != [] then prefix else FallbackHandle;
          }
        }
      }
      loading := false;
    }

    /** The input field's change handler. */
    method EditUsername(value: string)
      modifies this`username
      ensures username == value
    {
      username := value;
    }

    /** `handleUsernameChange`: validate, then query and upsert, and
        report the outcome. */
    method HandleUsernameChange(lookup: LookupReply, write: WriteReply, now: Timestamp)
      modifies this
      ensures var r := Claim(old(user), old(username), old(profiles), lookup, write, now);
              message == Some(MessageOf(r.outcome)) && profiles == r.profiles && sent == old(sent) + r.requests
      ensures !saving && user == old(user) && username == old(username) && loading == old(loading)
    {
      ghost var r := Claim(user, username, profiles, lookup, write, now);
      saving := true;
      message := None;

      if user.None? {
        assert r == ClaimResult(Failed(Invalid(NotLoggedIn)), profiles, []);
        Reject(NotLoggedIn);
        return;
      }
      if username == [] || |Trim(username)| == 0 {
        assert r == ClaimResult(Failed(Invalid(EmptyUsername)), profiles, []);
        Reject(EmptyUsername);
        return;
      }
      if Utf16Length(username) < MinLength {
        assert r == ClaimResult(Failed(Invalid(TooShort)), profiles, []);
        Reject(TooShort);
        return;
      }
      if Utf16Length(username) > MaxLength {
        assert r == ClaimResult(Failed(Invalid(TooLong)), profiles, []);
        Reject(TooLong);
        return;
      }
      if !MatchesHandlePattern(username) {
        assert r == ClaimResult(Failed(Invalid(InvalidCharacters)), profiles, []);
        Reject(InvalidCharacters);
        return;
      }
      assert r == ClaimChecked(user.value.id, Trim(username), profiles, lookup, write, now);
      SaveUsername(user.value.id, Trim(username), lookup, write, now);
    }

    /** An early return of `handleUsernameChange`: show the check's error
        and clear `saving`. */
    method Reject(reason: Rejection)
      modifies this`message, this`saving
      ensures message == Some(MessageOf(Failed(Invalid(reason)))) && !saving
    {
      message := Some(MessageOf(Failed(Invalid(reason))));
      saving := false;
    }

    /** The `try` block of `handleUsernameChange`: look for another row
        holding `name`; if there is none, upsert `id`'s row; report the
        outcome, and clear `saving` on every path. */
    method SaveUsername(id: Id, name: string, lookup: LookupReply, write: WriteReply, now: Timestamp)
      modifies this
      ensures var r := ClaimChecked(id, name, old(profiles), lookup, write, now);
              message == Some(MessageOf(r.outcome)) && profiles == r.profiles && sent == old(sent) + r.requests
      ensures !saving && user == old(user) && username == old(username) && loading == old(loading)
    {
      sent := sent + [SelectByUsername(name, id)];
      if lookup.LookupThrew? {
        message := Some(MessageOf(Failed(ServiceFailed(lookup.errorText))));
        saving := false;
        return;
      }
      var existing := lookup.LookupAnswered? && TakenByOther(profiles, id, name);
      if existing {
        message := Some(MessageOf(Failed(UsernameTaken)));
        saving := false;
        return;
      }

      sent := sent + [UpsertProfile(id, name, now)];
      match write {
        case WriteOk =>
          profiles := profiles[id := Profile(Some(name), now)];
          message := Some(MessageOf(Claimed));
        case WriteFailed(t) =>
          message := Some(MessageOf(Failed(ServiceFailed(t))));
      }
      saving := false;
    }
  }

  /** A new user with email "charlie@example.com" is first offered
      "charlie". */
  method FirstLoadScenario(z: Id) returns (offered: string)
    ensures offered == "charlie"
  {
    var email := "charlie" + "@" + "example.com";
    var page := new AccountPage(map[]);
    page.LoadUserProfile(AuthAnswered(Some(User(z, Some(email)))), FetchAnswered);
    assert StoredUsername(map[], z) == None;
    DefaultHandleFromEmail(None, "charlie", "example.com");
    offered := page.username;
  }
}
