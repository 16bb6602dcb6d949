/** The client-side checks `handleUsernameChange` applies to the typed
    username before it touches the `profiles` table, in their order. */
module Handle {
  import opened JsString

  const MinLength: nat := 3
  const MaxLength: nat := 30

  /** One character of the class `[a-zA-Z0-9_-]`. */
  predicate IsHandleChar(c: char) {
    ('a' <= c <= 'z') || ('A' <= c <= 'Z') || ('0' <= c <= '9') || c == '_' || c == '-'
  }

  /** `/^[a-zA-Z0-9_-]+$/.test(s)`: one or more characters, all in the
      class. Without the `u` flag the regex tests UTF-16 code units; a code
      point above U+FFFF becomes two surrogates, neither in the class, so
      testing code points instead gives the same answer. */
  predicate MatchesHandlePattern(s: string) {
    |s| >= 1 && forall i :: 0 <= i < |s| ==> IsHandleChar(s[i])
  }

  /** A well-formed handle, stated independently of the check chain:
      3 to 30 characters, every one from the allowed alphabet. */
  predicate IsHandle(s: string) {
    MinLength <= |s| <= MaxLength && forall i :: 0 <= i < |s| ==> IsHandleChar(s[i])
  }

  /** Why a submission is refused before any request is made. */
  datatype Rejection = NotLoggedIn | EmptyUsername | TooShort | TooLong | InvalidCharacters

  datatype Verdict = Accepted | Rejected(reason: Rejection)

  /** The validation chain: the first failing check decides. Lengths are
      JavaScript lengths of the untrimmed input. */
  function Validate(loggedIn: bool, input: string): Verdict {
    if !loggedIn then Rejected(NotLoggedIn)
    else if input == [] || |Trim(input)| == 0 then Rejected(EmptyUsername)
    else if Utf16Length(input) < MinLength then Rejected(TooShort)
    else if Utf16Length(input) > MaxLength then Rejected(TooLong)
    else if !MatchesHandlePattern(input) then Rejected(InvalidCharacters)
    else Accepted
  }

  /** No allowed character is whitespace or lies outside the Basic
      Multilingual Plane. */
  lemma HandleCharIsPlain(c: char)
    requires IsHandleChar(c)
    ensures !IsJsWhitespace(c) && IsBmp(c)
  {
  }

  /** Each rejection, stated by the condition that produces it: a later
      check only speaks when every earlier one passed. A blank input is
      reported as empty although it may be shorter than 3 as well. */
  lemma {:induction false} ValidateFirstFailureWins(loggedIn: bool, input: string)
    ensures Validate(loggedIn, input) == Rejected(NotLoggedIn) <==> !loggedIn
    ensures Validate(loggedIn, input) == Rejected(EmptyUsername) <==> loggedIn && IsBlank(input)
    ensures Validate(loggedIn, input) == Rejected(TooShort)
            <==> loggedIn && !IsBlank(input) && Utf16Length(input) < MinLength
    ensures Validate(loggedIn, input) == Rejected(TooLong)
            <==> loggedIn && !IsBlank(input) && Utf16Length(input) > MaxLength
    ensures Validate(loggedIn, input) == Rejected(InvalidCharacters)
            <==> (loggedIn && !IsBlank(input) && MinLength <= Utf16Length(input) <= MaxLength
                  && exists i :: 0 <= i < |input| && !IsHandleChar(input[i]))
  {
    TrimEmptyIffBlank(input);
  }

  /** A well-formed handle is its own trim. */
  lemma {:induction false} HandleIsTrimmed(s: string)
    requires IsHandle(s)
    ensures Trim(s) == s
  {
    HandleCharIsPlain(s[0]);
    HandleCharIsPlain(s[|s| - 1]);
    TrimIdentityIff(s);
  }

  /** A string of allowed characters has a JavaScript length equal to its
      length. */
  lemma {:induction false} HandleCharsLength(s: string)
    requires forall i :: 0 <= i < |s| ==> IsHandleChar(s[i])
    ensures Utf16Length(s) == |s|
  {
    forall i | 0 <= i < |s| ensures IsBmp(s[i]) {
      HandleCharIsPlain(s[i]);
    }
    Utf16LengthIff(s);
  }

  /** The chain accepts exactly the well-formed handles, with the length
      bounds inclusive at both ends. */
  lemma {:induction false} ValidateAcceptsExactlyHandles(loggedIn: bool, input: string)
    ensures Validate(loggedIn, input) == Accepted <==> loggedIn && IsHandle(input)
  {
    if forall i :: 0 <= i < |input| ==> IsHandleChar(input[i]) {
      HandleCharsLength(input);
      if IsHandle(input) {
        HandleIsTrimmed(input);
      }
    }
  }

  /** The length and character checks look at the untrimmed input while
      the query and the write use the trimmed one; since no allowed
      character is whitespace, an accepted input is its own trim. */
  lemma {:induction false} AcceptedInputIsTrimmed(loggedIn: bool, input: string)
    requires Validate(loggedIn, input) == Accepted
    ensures Trim(input) == input
  {
    ValidateAcceptsExactlyHandles(loggedIn, input);
    HandleIsTrimmed(input);
  }
}
