/** The sign-in page: the login request's effect on the form, the message and the
    session store, and the classification of the server's message into the modal's
    buttons. */
module SignInPage {
  import opened Entities
  import UserSlice

  // ---------------------------------------------------------------------------
  // `message.toLowerCase().includes(...)`

  /** ASCII lower-casing of one character. */
  function LowerChar(c: char): (d: char)
    ensures 'A' <= c <= 'Z' ==> d as int == c as int + 32
    ensures !('A' <= c <= 'Z') ==> d == c
    ensures !('A' <= d <= 'Z')
  {
    if 'A' <= c <= 'Z' then (c as int + 32) as char else c
  }

  /** `s.toLowerCase()`, on ASCII letters. */
  function Lower(s: string): (r: string)
    ensures |r| == |s|
    ensures forall i :: 0 <= i < |s| ==> r[i] == LowerChar(s[i])
  {
    seq(|s|, i requires 0 <= i < |s| => LowerChar(s[i]))
  }

  /** Lower-casing twice is lower-casing once. */
  lemma LowerIdempotent(s: string)
    ensures Lower(Lower(s)) == Lower(s)
  {
    var l := Lower(s);
    forall i | 0 <= i < |s| ensures Lower(l)[i] == l[i] {
      assert !('A' <= l[i] <= 'Z');
    }
  }

  /** `t` occurs in `s` starting at `i`. */
  predicate OccursAt(s: string, t: string, i: int)
  {
    0 <= i && i + |t| <= |s| && s[i..i + |t|] == t
  }

  /** `s.includes(t)`: scan for a start position where `t` is a prefix. */
  function Contains(s: string, t: string): bool
    decreases |s|
  {
    if |t| > |s| then false
    else if t <= s then true
    else Contains(s[1..], t)
  }

  /** The scan finds `t` exactly when `t` occurs somewhere in `s`. */
  lemma {:induction false} ContainsMeansOccurs(s: string, t: string)
    ensures Contains(s, t) <==> exists i :: OccursAt(s, t, i)
    decreases |s|
  {
    if |t| > |s| {
    } else if t <= s {
      assert OccursAt(s, t, 0);
    } else {
      ContainsMeansOccurs(s[1..], t);
      if exists i :: OccursAt(s[1..], t, i) {
        var i :| OccursAt(s[1..], t, i);
        assert s[1..][i..i + |t|] == s[i + 1..i + 1 + |t|];
        assert OccursAt(s, t, i + 1);
      }
      if exists i :: OccursAt(s, t, i) {
        var i :| OccursAt(s, t, i);
        assert i != 0;
        assert s[1..][i - 1..i - 1 + |t|] == s[i..i + |t|];
        assert OccursAt(s[1..], t, i - 1);
      }
    }
  }

  /** The Register link's test. */
  predicate ShowsRegister(message: string)
  {
    Contains(Lower(message), "not registered")
  }

  /** The modal's dismiss button. */
  datatype Dismiss = Okay | Cancel

  /** What the page shows for `message`: no modal when it is empty; otherwise a
      Register link when it mentions "not registered" in any letter case, and
      "Okay" when it mentions "logged in", else "Cancel" (exactly one of the two). */
  datatype Modal = NoModal | MessageModal(text: string, register: bool, dismiss: Dismiss)

  function ModalFor(message: string): (m: Modal)
    ensures m.NoModal? <==> message == ""
    ensures m.MessageModal? ==> m.text == message
    ensures m.MessageModal? ==>
              (m.register <==> exists i :: OccursAt(Lower(message), "not registered", i))
    ensures m.MessageModal? ==>
              (m.dismiss == Okay <==> exists i :: OccursAt(Lower(message), "logged in", i))
  {
    ContainsMeansOccurs(Lower(message), "not registered");
    ContainsMeansOccurs(Lower(message), "logged in");
    if message == "" then NoModal
    else
      MessageModal(message, ShowsRegister(message),
                   if Contains(Lower(message), "logged in") then Okay else Cancel)
  }

  /** The classification ignores letter case: a message and its lower-cased form
      get the same modal buttons. */
  lemma ModalIgnoresCase(message: string)
    requires message != ""
    ensures ModalFor(Lower(message)).register == ModalFor(message).register
    ensures ModalFor(Lower(message)).dismiss == ModalFor(message).dismiss
  {
    LowerIdempotent(message);
  }

  /** A "logged in" success message gets "Okay" and no Register link. */
  lemma LoggedInMessage()
    ensures ModalFor("Logged in").MessageModal?
    ensures ModalFor("Logged in").dismiss == Okay
    ensures !ModalFor("Logged in").register
  {
    var l := Lower("Logged in");
    assert l == "logged in";
    assert OccursAt(l, "logged in", 0);
    ContainsMeansOccurs(l, "not registered");
  }

  /** A "not registered" rejection gets the Register link and "Cancel". */
  lemma NotRegisteredMessage()
    ensures ModalFor("User not registered").MessageModal?
    ensures ModalFor("User not registered").register
    ensures ModalFor("User not registered").dismiss == Cancel
  {
    var l := Lower("User not registered");
    assert l == "user not registered";
    assert OccursAt(l, "not registered", 5);
    ContainsMeansOccurs(l, "logged in");
    assert 'l' !in l;
    AbsentFirstChar(l, "logged in");
  }

  /** A string without the first character of `t` has no occurrence of `t`. */
  lemma AbsentFirstChar(s: string, t: string)
    requires |t| > 0
    requires t[0] !in s
    ensures !exists i :: OccursAt(s, t, i)
  {
    forall i | 0 <= i ensures !OccursAt(s, t, i) {
      if i + |t| <= |s| {
        assert s[i..i + |t|][0] == s[i] && s[i] in s;
      }
    }
  }

  // ---------------------------------------------------------------------------
  // The login form

  /** How the login request settled: a response with the server's message and user
      record, a rejection carrying an error body, or a rejection with no response,
      whose handler itself throws before it can set the message. */
  datatype LoginOutcome =
    | LoggedIn(message: string, user: UserRecord)
    | Refused(message: string)
    | NoResponse

  class SignInPageState {
    var isLoading: bool
    var username: string
    var password: string
    var message: string

    /** An empty form, no message, not loading. */
    constructor ()
      ensures !isLoading && username == "" && password == "" && message == ""
    {
      isLoading := false;
      username := "";
      password := "";
      message := "";
    }

    /** `handleUsername`. */
    method HandleUsername(text: string)
      modifies this
      ensures username == text
      ensures password == old(password) && message == old(message) && isLoading == old(isLoading)
    {
      username := text;
    }

    /** `handlePassword`. */
    method HandlePassword(text: string)
      modifies this
      ensures password == text
      ensures username == old(username) && message == old(message) && isLoading == old(isLoading)
    {
      password := text;
    }

    /** `loginFunction`: posts the typed credentials (returned as `sent`), then on
        success shows the server's message and installs its user record, on a
        refusal shows the error's message and leaves the session alone, and in every
        case stops loading and empties both fields. */
    method LoginFunction(store: UserSlice.UserStore, outcome: LoginOutcome)
      returns (sent: (string, string), loadingWhileWaiting: bool)
      modifies this, store
      ensures sent == (old(username), old(password))
      ensures loadingWhileWaiting
      ensures !isLoading && username == "" && password == ""
      ensures outcome.LoggedIn? ==> message == outcome.message && store.value == outcome.user
      ensures outcome.Refused? ==> message == outcome.message && store.value == old(store.value)
      ensures outcome.NoResponse? ==> message == old(message) && store.value == old(store.value)
    {
      isLoading := true;
      loadingWhileWaiting := isLoading;
      sent := (username, password);
      match outcome {
        case LoggedIn(text, user) =>
          message := text;
          store.SetUser(user);
        case Refused(text) =>
          message := text;
        case NoResponse =>
      }
      isLoading := false;
      username := "";
      password := "";
    }

    /** "Okay": the message goes, so the modal closes (the page then navigates home). */
    method OkayClicked()
      modifies this
      ensures message == ""
      ensures isLoading == old(isLoading) && username == old(username) && password == old(password)
    {
      message := "";
    }

    /** "Cancel": the message goes and loading stops. */
    method CancelClicked()
      modifies this
      ensures message == "" && !isLoading
      ensures username == old(username) && password == old(password)
    {
      message := "";
      isLoading := false;
    }
  }

  /** The modal is on screen exactly while there is a message, so either dismiss
      button closes it. */
  method DismissCloses(page: SignInPageState, okay: bool)
    modifies page
    ensures ModalFor(page.message) == NoModal
  {
    if okay {
      page.OkayClicked();
    } else {
      page.CancelClicked();
    }
  }
}
