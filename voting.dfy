/**
 * The vote and report buttons under an upload. The widget keeps the displayed
 * vote total, the viewer's own vote (`null` when there is none) and whether
 * the viewer has reported the upload; each handler makes one call to the
 * `votes` or `flags` table and updates the state only when that call succeeds.
 *
 * Whether the table call succeeds is a parameter; the call itself is returned
 * as a value so that "no call was made" can be stated.
 */
module Voting {
  import opened Basics

  /** The widget's state; a stored vote of 0 reads as no vote, as in the source. */
  datatype VoteState = VoteState(votes: int, userVote: Option<int>, userFlagged: bool)

  /** The call a handler makes to the backend. */
  datatype Call = NoCall | DeleteVote | UpsertVote(value: int) | InsertFlag

  /** JavaScript truthiness of a `number | null`. */
  predicate Held(v: Option<int>) {
    v.Some? && v.value != 0
  }

  /** `fetchUserVote`: `data?.value || null`, so a stored 0 becomes null; a failed fetch
      leaves the state as it was. */
  function FetchedVote(s: VoteState, loggedIn: bool, fetched: Option<int>, ok: bool): (r: VoteState)
    ensures r.votes == s.votes && r.userFlagged == s.userFlagged
    ensures loggedIn && ok ==> (r.userVote.Some? <==> Held(fetched))
    ensures loggedIn && ok ==> r.userVote == (if Held(fetched) then fetched else None)
    ensures !loggedIn || !ok ==> r == s
  {
    if !loggedIn || !ok then s
    else s.(userVote := if Held(fetched) then fetched else None)
  }

  /** `fetchUserFlag`: flagged exactly when a flag row exists; a failed fetch leaves the
      state as it was. */
  function FetchedFlag(s: VoteState, loggedIn: bool, rowFound: bool, ok: bool): (r: VoteState)
    ensures r.votes == s.votes && r.userVote == s.userVote
    ensures loggedIn && ok ==> (r.userFlagged <==> rowFound)
    ensures !loggedIn || !ok ==> r == s
  {
    if !loggedIn || !ok then s else s.(userFlagged := rowFound)
  }

  /** `handleVote`: the new state, the total reported to `onVoteChange` (if any) and the
      call made. */
  function Vote(s: VoteState, loggedIn: bool, value: int, ok: bool): (VoteState, Option<int>, Call) {
    if !loggedIn then (s, None, NoCall)
    else if s.userVote == Some(value) then
      if !ok then (s, None, DeleteVote)
      else
        var newVotes := s.votes - value;
        (s.(votes := newVotes, userVote := None), Some(newVotes), DeleteVote)
    else
      if !ok then (s, None, UpsertVote(value))
      else
        var difference := if Held(s.userVote) then value - s.userVote.value else value;
        var newVotes := s.votes + difference;
        (s.(votes := newVotes, userVote := Some(value)), Some(newVotes), UpsertVote(value))
  }

  /** `handleFlag`: the new state and the call made. */
  function Flag(s: VoteState, loggedIn: bool, ok: bool): (VoteState, Call) {
    if !loggedIn || s.userFlagged then (s, NoCall)
    else if !ok then (s, InsertFlag)
    else (s.(userFlagged := true), InsertFlag)
  }

  /** Voting with the value already held deletes the vote and takes that value off the
      total; with no vote held (or a held 0), the value is added and recorded; switching
      from a held v to a different w changes the total by w - v. */
  lemma VoteEffect(s: VoteState, value: int)
    ensures s.userVote == Some(value) ==>
      Vote(s, true, value, true) == (VoteState(s.votes - value, None, s.userFlagged), Some(s.votes - value), DeleteVote)
    ensures !Held(s.userVote) && s.userVote != Some(value) ==>
      Vote(s, true, value, true) == (VoteState(s.votes + value, Some(value), s.userFlagged), Some(s.votes + value), UpsertVote(value))
    ensures Held(s.userVote) && s.userVote != Some(value) ==>
      Vote(s, true, value, true).0 == VoteState(s.votes + value - s.userVote.value, Some(value), s.userFlagged)
  {
  }

  /** Voting twice with the same value restores the original total and own vote when no
      vote was held; from a different held vote v, the total ends v lower with no vote. */
  lemma VoteTwice(s: VoteState, value: int)
    requires s.userVote != Some(value)
    ensures var s2 := Vote(Vote(s, true, value, true).0, true, value, true).0;
      (s.userVote == None ==> s2 == s)
      && (Held(s.userVote) ==> s2 == s.(votes := s.votes - s.userVote.value, userVote := None))
  {
  }

  /** A failing backend call leaves the state unchanged and reports no total; without a
      logged-in user no call is made at all. */
  lemma FailureOrLoggedOutChangesNothing(s: VoteState, value: int, ok: bool)
    ensures Vote(s, true, value, false).0 == s && Vote(s, true, value, false).1 == None
    ensures Flag(s, true, false).0 == s
    ensures Vote(s, false, value, ok) == (s, None, NoCall)
    ensures Flag(s, false, ok) == (s, NoCall)
  {
  }

  /** Once reported, reporting again makes no insert; a successful insert marks the
      upload as reported, so at most one successful insert happens per widget. */
  lemma FlagAtMostOnce(s: VoteState, ok1: bool, ok2: bool)
    ensures s.userFlagged ==> Flag(s, true, ok1) == (s, NoCall)
    ensures var s1 := Flag(s, true, true).0; s1.userFlagged && Flag(s1, true, ok2).1 == NoCall
  {
  }

  /** A fetched 0 counts as no vote: the next vote adds its whole value. */
  lemma FetchedZeroIsNoVote(s: VoteState, value: int)
    requires value != 0
    ensures var s1 := FetchedVote(s, true, Some(0), true);
      s1.userVote == None && Vote(s1, true, value, true).0.votes == s.votes + value
  {
  }

  /** The component: its state fields and the two click handlers. */
  class VoteWidget {
    const uploadId: string
    var votes: int
    var userVote: Option<int>
    var userFlagged: bool
    var isVoting: bool
    var isFlagging: bool

    function State(): VoteState
      reads this
    {
      VoteState(votes, userVote, userFlagged)
    }

    constructor (uploadId: string, initialVotes: int)
      ensures this.uploadId == uploadId
      ensures State() == VoteState(initialVotes, None, false) && !isVoting && !isFlagging
    {
      this.uploadId := uploadId;
      votes := initialVotes;
      userVote := None;
      userFlagged := false;
      isVoting := false;
      isFlagging := false;
    }

    method FetchUserVote(loggedIn: bool, fetched: Option<int>, ok: bool)
      modifies this
      ensures State() == FetchedVote(old(State()), loggedIn, fetched, ok)
      ensures isVoting == old(isVoting) && isFlagging == old(isFlagging)
    {
      if !loggedIn || !ok {
        return;
      }
      userVote := if fetched.Some? && fetched.value != 0 then fetched else None;
    }

    method FetchUserFlag(loggedIn: bool, rowFound: bool, ok: bool)
      modifies this
      ensures State() == FetchedFlag(old(State()), loggedIn, rowFound, ok)
      ensures isVoting == old(isVoting) && isFlagging == old(isFlagging)
    {
      if !loggedIn || !ok {
        return;
      }
      userFlagged := rowFound;
    }

    method HandleVote(loggedIn: bool, value: int, ok: bool) returns (reported: Option<int>, call: Call)
      modifies this
      ensures (State(), reported, call) == Vote(old(State()), loggedIn, value, ok)
      ensures isVoting == (old(isVoting) && !loggedIn) && isFlagging == old(isFlagging)
    {
      reported, call := None, NoCall;
      if !loggedIn {
        return;
      }
      isVoting := true;
      if userVote == Some(value) {
        call := DeleteVote;
        if ok {
          userVote := None;
          var newVotes := votes - value;
          votes := newVotes;
          reported := Some(newVotes);
        }
      } else {
        call := UpsertVote(value);
        if ok {
          var voteDifference := if userVote.Some? && userVote.value != 0 then value - userVote.value else value;
          userVote := Some(value);
          var newVotes := votes + voteDifference;
          votes := newVotes;
          reported := Some(newVotes);
        }
      }
      isVoting := false;
    }

    method HandleFlag(loggedIn: bool, ok: bool) returns (call: Call)
      modifies this
      ensures (State(), call) == Flag(old(State()), loggedIn, ok)
      ensures isFlagging == (old(isFlagging) && (!loggedIn || old(userFlagged))) && isVoting == old(isVoting)
    {
      if !loggedIn || userFlagged {
        return NoCall;
      }
      isFlagging := true;
      call := InsertFlag;
      if ok {
        userFlagged := true;
      }
      isFlagging := false;
    }
  }
}
