/** The AI tutor endpoints under `/api/ai-tutor`: listing sessions, opening one, and sending a
    message, which stores the message and the tutor's answer, over an in-memory table of
    sessions keyed by id. The answer text comes from the text generator, passed in as a
    function. */
module TutorApi {
  import opened Common

  datatype ChatMessage = ChatMessage(id: string, role: string, content: Option<string>, timestamp: string)

  datatype Session = Session(
    id: string, userId: string, subject: Option<string>, messages: seq<ChatMessage>,
    createdAt: string, updatedAt: string)

  /** Every session sits under its own id. */
  predicate KeyedById(sessions: map<string, Session>) {
    forall k | k in sessions :: sessions[k].id == k
  }

  /** A conversation of whole exchanges: a user message, then the assistant's answer, and so on. */
  predicate Alternating(messages: seq<ChatMessage>) {
    && |messages| % 2 == 0
    && forall i | 0 <= i < |messages| :: messages[i].role == (if i % 2 == 0 then "user" else "assistant")
  }

  /** The session after one exchange: the user's message and then the assistant's message with
      the generated text are added after the earlier messages, which stay as they were, and the
      update time becomes `now`. */
  function Exchanged(ts: Session, content: Option<string>, userMsgId: string, aiMsgId: string,
                     now: string, aiText: string): (r: Session)
    ensures |r.messages| == |ts.messages| + 2 && r.messages[..|ts.messages|] == ts.messages
    ensures r.messages[|ts.messages|] == ChatMessage(userMsgId, "user", content, now)
    ensures r.messages[|ts.messages| + 1] == ChatMessage(aiMsgId, "assistant", Some(aiText), now)
    ensures r == ts.(messages := r.messages, updatedAt := now)
  {
    ts.(messages := ts.messages + [ChatMessage(userMsgId, "user", content, now),
                                   ChatMessage(aiMsgId, "assistant", Some(aiText), now)],
        updatedAt := now)
  }

  /** An exchange keeps a conversation made of whole exchanges. */
  lemma ExchangedAlternating(ts: Session, content: Option<string>, userMsgId: string, aiMsgId: string,
                             now: string, aiText: string)
    requires Alternating(ts.messages)
    ensures Alternating(Exchanged(ts, content, userMsgId, aiMsgId, now, aiText).messages)
  {
    var ms := Exchanged(ts, content, userMsgId, aiMsgId, now, aiText).messages;
    var n := |ts.messages|;
    forall i | 0 <= i < |ms| ensures ms[i].role == (if i % 2 == 0 then "user" else "assistant") {
      if i < n {
        assert ms[i] == ts.messages[i];
      } else if i == n {
        assert i % 2 == 0;
      } else {
        assert i == n + 1 && i % 2 == 1;
      }
    }
  }

  /** The controller with its session table. `newId`, `userMsgId`, `aiMsgId` and `now` are
      fresh ids and the current time; `generate` is the text generator. */
  class AiTutorController {
    var sessions: map<string, Session>

    /** The stored sessions sit under their ids and hold whole exchanges. */
    predicate Valid()
      reads this
    {
      && KeyedById(sessions)
      && forall k | k in sessions :: Alternating(sessions[k].messages)
    }

    constructor (sessions: map<string, Session>)
      requires KeyedById(sessions) && forall k | k in sessions :: Alternating(sessions[k].messages)
      ensures this.sessions == sessions && Valid()
    {
      this.sessions := sessions;
    }

    /** `listSessions`: every stored session, in the table's iteration order `order`. */
    method ListSessions(order: seq<string>) returns (r: Response<seq<Session>>)
      requires EnumeratesKeys(sessions, order)
      ensures r.code == 200 && r.body.Some?
      ensures |r.body.value| == |sessions| && forall k | k in sessions :: sessions[k] in r.body.value
      ensures forall s | s in r.body.value :: s in sessions.Values
    {
      ValuesInOrderComplete(sessions, order);
      r := Response(200, Some(ValuesInOrder(sessions, order)));
    }

    /** `createSession`: stores and returns a session of "demo-user" on the subject, without
        messages, created and updated `now`. */
    method CreateSession(subject: Option<string>, newId: string, now: string) returns (r: Response<Session>)
      requires Valid()
      modifies this
      ensures Valid()
      ensures var ts := Session(newId, "demo-user", subject, [], now, now);
              sessions == old(sessions)[newId := ts] && r == Response(200, Some(ts))
    {
      var ts := Session(newId, "demo-user", subject, [], now, now);
      sessions := sessions[ts.id := ts];
      r := Response(200, Some(ts));
    }

    /** `sendMessage`: 404 for an unknown session, changing nothing; otherwise the exchange is
        stored back under the session's id and the assistant's message is returned. */
    method SendMessage(sessionId: string, content: Option<string>, userMsgId: string, aiMsgId: string,
                       now: string, generate: Option<string> -> string)
      returns (r: Response<ChatMessage>)
      requires Valid()
      modifies this
      ensures Valid()
      ensures sessionId !in old(sessions) ==> r == Response(404, None) && sessions == old(sessions)
      ensures sessionId in old(sessions) ==>
                var ts := Exchanged(old(sessions)[sessionId], content, userMsgId, aiMsgId, now, generate(content));
                && sessions == old(sessions)[sessionId := ts]
                && r == Response(200, Some(ts.messages[|ts.messages| - 1]))
    {
      if sessionId !in sessions {
        return Response(404, None);
      }
      var ts := sessions[sessionId];
      var userMsg := ChatMessage(userMsgId, "user", content, now);
      var aiMsg := ChatMessage(aiMsgId, "assistant", Some(generate(content)), now);
      ExchangedAlternating(ts, content, userMsgId, aiMsgId, now, generate(content));
      ts := ts.(messages := ts.messages + [userMsg, aiMsg], updatedAt := now);
      sessions := sessions[ts.id := ts];
      r := Response(200, Some(aiMsg));
    }
  }
}
