/**
 * The floating assistant panel. A submission appends a pending message (the
 * trimmed query, an empty response, a temporary id made from the clock) and
 * clears the input; when the relay answers, that message takes the returned
 * chat id and response, and when it fails the message is removed. Feedback
 * marks the messages with a given id once the feedback function accepts it.
 *
 * A submission is two steps, `BeginSubmit` and `EndSubmit`, because the
 * panel stays interactive while the relay is being awaited (feedback on
 * earlier answers can happen in between); the temporary id of the submission
 * in flight is kept in `pending`.
 */
module ChatPanel {
  import opened Basics
  import opened Text

  datatype Feedback = Up | Down

  datatype Message = Message(id: string, query: string, response: string, timestamp: int, feedback: Option<Feedback>)

  /** What the relay call gives back: the chat id (null when the history insert failed) and
      the answer, or an error. */
  datatype Reply = Replied(chatId: Option<string>, response: string) | Failed

  function Ids(msgs: seq<Message>): set<string> {
    set m | m in msgs :: m.id
  }

  /** The submit guard. */
  predicate CanSubmit(input: string, isLoading: bool, loggedIn: bool) {
    Trim(input) != "" && !isLoading && loggedIn
  }

  /** The temporary id: the clock in milliseconds, as decimal text. */
  function TempId(now: nat): (r: string)
    ensures r != "" && forall i :: 0 <= i < |r| ==> IsDigit(r[i])
  {
    NatToString(now)
  }

  /** Every message with the pending id takes the returned id (or keeps the temporary one
      when none came back) and the response. */
  function Resolve(msgs: seq<Message>, tempId: string, chatId: Option<string>, response: string): (r: seq<Message>)
    ensures |r| == |msgs|
  {
    seq(|msgs|, i requires 0 <= i < |msgs| =>
      if msgs[i].id == tempId then msgs[i].(id := if Truthy(chatId) then chatId.value else tempId, response := response)
      else msgs[i])
  }

  /** The messages whose id differs from `id`, in order. */
  function Without(msgs: seq<Message>, id: string): (r: seq<Message>)
    ensures |r| <= |msgs|
    ensures forall m :: m in r <==> m in msgs && m.id != id
  {
    if msgs == [] then []
    else if msgs[0].id == id then Without(msgs[1..], id)
    else [msgs[0]] + Without(msgs[1..], id)
  }

  /** Every message with the given id carries the feedback. */
  function WithFeedback(msgs: seq<Message>, id: string, fb: Feedback): (r: seq<Message>)
    ensures |r| == |msgs|
  {
    seq(|msgs|, i requires 0 <= i < |msgs| => if msgs[i].id == id then msgs[i].(feedback := Some(fb)) else msgs[i])
  }

  /** The answer card, with its feedback buttons, is shown only for a non-empty response. */
  predicate HasFeedbackButtons(m: Message) {
    m.response != ""
  }

  lemma {:induction false} WithoutConcat(a: seq<Message>, b: seq<Message>, id: string)
    ensures Without(a + b, id) == Without(a, id) + Without(b, id)
  {
    if a == [] {
      assert a + b == b;
    } else {
      assert (a + b)[1..] == a[1..] + b;
      WithoutConcat(a[1..], b, id);
    }
  }

  lemma {:induction false} WithoutAbsent(msgs: seq<Message>, id: string)
    requires id !in Ids(msgs)
    ensures Without(msgs, id) == msgs
  {
    if msgs != [] {
      assert msgs[0] in msgs;
      assert Ids(msgs[1..]) <= Ids(msgs) by {
        forall m | m in msgs[1..] ensures m in msgs {
        }
      }
      WithoutAbsent(msgs[1..], id);
      assert [msgs[0]] + msgs[1..] == msgs;
    }
  }

  /** With a fresh temporary id, a failed submission removes exactly the pending message:
      the list is what it was before the submission. */
  lemma FailureRemovesOnlyPending(msgs: seq<Message>, pending: Message)
    requires pending.id !in Ids(msgs)
    ensures Without(msgs + [pending], pending.id) == msgs
  {
    WithoutConcat(msgs, [pending], pending.id);
    WithoutAbsent(msgs, pending.id);
    assert Without([pending], pending.id) == [];
  }

  /** With a fresh temporary id, a successful submission changes only the pending message:
      its id becomes the returned chat id (the temporary id when none came back) and its
      response is set; query and timestamp stay. */
  lemma SuccessChangesOnlyPending(msgs: seq<Message>, pending: Message, chatId: Option<string>, response: string)
    requires pending.id !in Ids(msgs)
    ensures var r := Resolve(msgs + [pending], pending.id, chatId, response);
      r[..|msgs|] == msgs
      && r[|msgs|] == pending.(id := if Truthy(chatId) then chatId.value else pending.id, response := response)
  {
    var r := Resolve(msgs + [pending], pending.id, chatId, response);
    forall i | 0 <= i < |msgs| ensures r[i] == msgs[i] {
      assert msgs[i] in msgs;
    }
  }

  /** Feedback touches only messages with the matching id and nothing but their feedback;
      giving the same feedback twice is the same as giving it once. */
  lemma FeedbackOnlyMatching(msgs: seq<Message>, id: string, fb: Feedback)
    ensures var r := WithFeedback(msgs, id, fb);
      (forall i :: 0 <= i < |msgs| && msgs[i].id != id ==> r[i] == msgs[i])
      && (forall i :: 0 <= i < |msgs| && msgs[i].id == id ==> r[i].feedback == Some(fb) && r[i].(feedback := msgs[i].feedback) == msgs[i])
      && WithFeedback(r, id, fb) == r
      && Ids(r) == Ids(msgs)
  {
    var r := WithFeedback(msgs, id, fb);
    forall x | x in Ids(r) ensures x in Ids(msgs) {
      var i :| 0 <= i < |r| && r[i].id == x;
      assert msgs[i] in msgs;
    }
    forall x | x in Ids(msgs) ensures x in Ids(r) {
      var i :| 0 <= i < |msgs| && msgs[i].id == x;
      assert r[i] in r;
    }
  }

  /** The pending message, whose response is empty, shows no feedback buttons; once the
      relay answers, the resolved message shows them exactly when the answer is non-empty,
      and every earlier message keeps its buttons as they were. */
  lemma FeedbackButtonsOnceAnswered(msgs: seq<Message>, pending: Message, chatId: Option<string>, response: string)
    requires pending.id !in Ids(msgs) && pending.response == ""
    ensures !HasFeedbackButtons((msgs + [pending])[|msgs|])
    ensures var r := Resolve(msgs + [pending], pending.id, chatId, response);
      (HasFeedbackButtons(r[|msgs|]) <==> response != "")
      && forall i :: 0 <= i < |msgs| ==> (HasFeedbackButtons(r[i]) <==> HasFeedbackButtons(msgs[i]))
  {
    SuccessChangesOnlyPending(msgs, pending, chatId, response);
    var r := Resolve(msgs + [pending], pending.id, chatId, response);
    forall i | 0 <= i < |msgs| ensures r[i] == msgs[i] {
      assert r[..|msgs|][i] == r[i];
    }
  }

  /** The panel's state. `Valid` ties the loading flag to the submission in flight. */
  class Panel {
    var messages: seq<Message>
    var input: string
    var isLoading: bool
    var pending: Option<string>

    predicate Valid()
      reads this
    {
      isLoading <==> pending.Some?
    }

    constructor ()
      ensures Valid() && messages == [] && input == "" && !isLoading
    {
      messages := [];
      input := "";
      isLoading := false;
      pending := None;
    }

    method Type(text: string)
      modifies this
      ensures input == text && messages == old(messages) && isLoading == old(isLoading) && pending == old(pending)
    {
      input := text;
    }

    /** The first half of `handleSubmit`: the guard, then the pending message. Returns the
        query sent to the relay, if any. */
    method BeginSubmit(loggedIn: bool, now: nat) returns (sent: Option<string>)
      requires Valid()
      modifies this
      ensures Valid()
      ensures !CanSubmit(old(input), old(isLoading), loggedIn) ==>
        sent == None && messages == old(messages) && input == old(input) && isLoading == old(isLoading) && pending == old(pending)
      ensures CanSubmit(old(input), old(isLoading), loggedIn) ==>
        sent == Some(Trim(old(input)))
        && messages == old(messages) + [Message(TempId(now), Trim(old(input)), "", now, None)]
        && input == "" && isLoading && pending == Some(TempId(now))
        && !HasFeedbackButtons(messages[|messages| - 1])
    {
      if Trim(input) == "" || isLoading || !loggedIn {
        return None;
      }
      var query := Trim(input);
      input := "";
      isLoading := true;
      var tempId := TempId(now);
      pending := Some(tempId);
      messages := messages + [Message(tempId, query, "", now, None)];
      sent := Some(query);
    }

    /** The second half: the relay's answer replaces the pending message, a failure
        removes it; either way loading ends. */
    method EndSubmit(reply: Reply)
      requires Valid() && pending.Some?
      modifies this
      ensures Valid() && !isLoading && input == old(input)
      ensures reply.Replied? ==> messages == Resolve(old(messages), old(pending.value), reply.chatId, reply.response)
      ensures reply.Failed? ==> messages == Without(old(messages), old(pending.value))
    {
      var tempId := pending.value;
      match reply {
        case Replied(chatId, response) =>
          messages := Resolve(messages, tempId, chatId, response);
        case Failed =>
          messages := Without(messages, tempId);
      }
      isLoading := false;
      pending := None;
    }

    /** `handleFeedback`: the list changes only when the feedback call succeeds. */
    method GiveFeedback(messageId: string, fb: Feedback, ok: bool)
      modifies this
      ensures messages == (if ok then WithFeedback(old(messages), messageId, fb) else old(messages))
      ensures input == old(input) && isLoading == old(isLoading) && pending == old(pending)
    {
      if ok {
        messages := WithFeedback(messages, messageId, fb);
      }
    }
  }

  /** A whole submission with a fresh temporary id, begun and ended with no other step in
      between, leaves the list as before plus at most the answered message, and loading off. */
  method SubmitRoundTrip(p: Panel, loggedIn: bool, now: nat, reply: Reply)
    requires p.Valid() && !p.isLoading && CanSubmit(p.input, false, loggedIn)
    requires TempId(now) !in Ids(p.messages)
    modifies p
    ensures p.Valid() && !p.isLoading && p.input == ""
    ensures reply.Failed? ==> p.messages == old(p.messages)
    ensures reply.Replied? ==>
      p.messages == old(p.messages) + [Message(if Truthy(reply.chatId) then reply.chatId.value else TempId(now),
                                               Trim(old(p.input)), reply.response, now, None)]
    ensures reply.Replied? ==> (HasFeedbackButtons(p.messages[|p.messages| - 1]) <==> reply.response != "")
  {
    var sent := p.BeginSubmit(loggedIn, now);
    var pendingMessage := Message(TempId(now), Trim(old(p.input)), "", now, None);
    ghost var before := old(p.messages);
    assert p.messages == before + [pendingMessage];
    p.EndSubmit(reply);
    if reply.Failed? {
      FailureRemovesOnlyPending(before, pendingMessage);
    } else {
      SuccessChangesOnlyPending(before, pendingMessage, reply.chatId, reply.response);
      FeedbackButtonsOnceAnswered(before, pendingMessage, reply.chatId, reply.response);
      var r := Resolve(before + [pendingMessage], pendingMessage.id, reply.chatId, reply.response);
      assert r == r[..|before|] + [r[|before|]];
    }
  }
}
