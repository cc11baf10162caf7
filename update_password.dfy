/**
 * The page a password-recovery link opens. It first waits for the recovery
 * session (a `PASSWORD_RECOVERY` event, an existing session, or two seconds
 * without one), then shows the form only when a session exists. Submitting
 * checks the two entries and sends the new password to the auth service.
 *
 * Lengths are counted as `String.length` counts them, in UTF-16 code units.
 * The session is reduced to whether there is one; the delay is a timer event.
 */
module PasswordUpdate {
  import opened Basics
  import opened Text
  import opened App

  const MinLength: nat := 6

  /** Why a submission is refused before any request. */
  datatype Rejection = Mismatch | TooShort

  /** The checks of `handlePasswordUpdate`, in order: the confirmation first, then the
      length. */
  function CheckPassword(password: string, confirmation: string): Option<Rejection> {
    if password != confirmation then Some(Mismatch)
    else if Utf16Length(password) < MinLength then Some(TooShort)
    else None
  }

  /** A mismatch is reported whatever the length; a short password is reported only once
      the two entries agree; a password passes exactly when both entries agree and it is
      at least six units long. */
  lemma CheckPasswordSpec(password: string, confirmation: string)
    ensures password != confirmation ==> CheckPassword(password, confirmation) == Some(Mismatch)
    ensures CheckPassword(password, confirmation) == Some(TooShort) <==>
      password == confirmation && Utf16Length(password) < MinLength
    ensures CheckPassword(password, confirmation).None? <==>
      password == confirmation && Utf16Length(password) >= MinLength
  {
  }

  /** The outcome of one submission. */
  datatype Outcome = Rejected(why: Rejection) | Updated | UpdateFailed(message: string)

  /** The auth events the page listens for. */
  datatype AuthEvent = PasswordRecovery | OtherEvent

  /** What the page shows. */
  datatype View = Verifying | InvalidLink | PasswordForm(submitting: bool)

  /** The render: the verifying notice first, then the invalid-link notice without a
      session, then the form (its button disabled while submitting). */
  function PageView(isVerifying: bool, hasSession: bool, loading: bool): View {
    if isVerifying then Verifying
    else if !hasSession then InvalidLink
    else PasswordForm(loading)
  }

  class RecoveryPage {
    var loading: bool
    var password: string
    var confirmation: string
    var hasSession: bool
    var isVerifying: bool
    /** Whether the two-second fallback timer has been started. */
    var timerStarted: bool
    /** The passwords sent to the auth service, in order. */
    var sent: seq<string>
    /** Where the page navigated, if it did. */
    var navigatedTo: Option<string>

    function ViewOf(): View
      reads this
    {
      PageView(isVerifying, hasSession, loading)
    }

    constructor ()
      ensures ViewOf() == Verifying && !timerStarted && !loading
      ensures password == "" && confirmation == "" && !hasSession && sent == [] && navigatedTo == None
    {
      loading := false;
      password := "";
      confirmation := "";
      hasSession := false;
      isVerifying := true;
      timerStarted := false;
      sent := [];
      navigatedTo := None;
    }

    method SetPassword(text: string)
      modifies this
      ensures password == text && confirmation == old(confirmation) && ViewOf() == old(ViewOf())
      ensures sent == old(sent) && navigatedTo == old(navigatedTo) && timerStarted == old(timerStarted)
    {
      password := text;
    }

    method SetConfirmation(text: string)
      modifies this
      ensures confirmation == text && password == old(password) && ViewOf() == old(ViewOf())
      ensures sent == old(sent) && navigatedTo == old(navigatedTo) && timerStarted == old(timerStarted)
    {
      confirmation := text;
    }

    /** `onAuthStateChange`: the session follows the event; a recovery event ends
        verification. */
    method OnAuthStateChange(event: AuthEvent, session: bool)
      modifies this
      ensures hasSession == session
      ensures isVerifying == (old(isVerifying) && event != PasswordRecovery)
      ensures loading == old(loading) && password == old(password) && confirmation == old(confirmation)
      ensures sent == old(sent) && navigatedTo == old(navigatedTo) && timerStarted == old(timerStarted)
    {
      hasSession := session;
      if event == PasswordRecovery {
        isVerifying := false;
      }
    }

    /** `getSession()` resolving: an existing session ends verification at once; without
        one the two-second timer starts. */
    method OnGetSession(session: bool)
      modifies this
      ensures session ==> hasSession && !isVerifying && timerStarted == old(timerStarted)
      ensures !session ==> hasSession == old(hasSession) && isVerifying == old(isVerifying) && timerStarted
      ensures loading == old(loading) && password == old(password) && confirmation == old(confirmation)
      ensures sent == old(sent) && navigatedTo == old(navigatedTo)
    {
      if session {
        hasSession := true;
        isVerifying := false;
      } else {
        timerStarted := true;
      }
    }

    /** The timer firing ends verification whatever happened meanwhile. */
    method OnTimer()
      requires timerStarted
      modifies this
      ensures !isVerifying
      ensures hasSession == old(hasSession) && loading == old(loading)
      ensures password == old(password) && confirmation == old(confirmation)
      ensures sent == old(sent) && navigatedTo == old(navigatedTo) && timerStarted
    {
      isVerifying := false;
    }

    /** `handlePasswordUpdate`, with the auth service's answer as a parameter: a rejected
        submission sends nothing and changes nothing; otherwise the password is sent, a
        success navigates to the notes page, and `loading` is false afterwards. */
    method HandlePasswordUpdate(updateOk: bool, errorMessage: string) returns (outcome: Outcome)
      modifies this
      ensures CheckPassword(password, confirmation).Some? ==>
        outcome == Rejected(CheckPassword(password, confirmation).value)
        && sent == old(sent) && navigatedTo == old(navigatedTo) && loading == old(loading)
      ensures CheckPassword(password, confirmation).None? ==>
        sent == old(sent) + [password] && !loading
        && outcome == (if updateOk then Updated else UpdateFailed(errorMessage))
        && navigatedTo == (if updateOk then Some("/notes") else old(navigatedTo))
      ensures password == old(password) && confirmation == old(confirmation)
      ensures hasSession == old(hasSession) && isVerifying == old(isVerifying) && timerStarted == old(timerStarted)
    {
      if password != confirmation {
        return Rejected(Mismatch);
      }
      if Utf16Length(password) < MinLength {
        return Rejected(TooShort);
      }
      loading := true;
      sent := sent + [password];
      if updateOk {
        outcome := Updated;
        navigatedTo := Some("/notes");
      } else {
        outcome := UpdateFailed(errorMessage);
      }
      loading := false;
    }
  }

  /** The form shows exactly when verification has ended and a session exists; while
      verifying neither the form nor the invalid-link notice shows. */
  lemma FormOnlyWithSession(isVerifying: bool, hasSession: bool, loading: bool)
    ensures PageView(isVerifying, hasSession, loading).PasswordForm? <==> !isVerifying && hasSession
    ensures PageView(isVerifying, hasSession, loading).InvalidLink? <==> !isVerifying && !hasSession
  {
  }

  /** After a successful update the user, who holds the recovery session, lands on the
      notes page inside the gated layout. */
  lemma SuccessLandsOnNotes()
    ensures ScreenAt("/notes", "", false, true) == Show(Notes)
    ensures OutsidePage("/update-password") == Some(UpdatePassword)
  {
  }
}
