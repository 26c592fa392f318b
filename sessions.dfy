/** The in-memory conversation store of the assistant service: each
    session id maps to the ordered list of messages exchanged so far. */
module Sessions {
  import opened Wrappers

  /** One `{"role": ..., "content": ...}` entry of a conversation. */
  datatype Message = Message(role: string, content: string)

  /** The id `get_or_create` answers with: a non-empty id the caller gave,
      otherwise the freshly generated one. */
  function ChosenId(sessionId: Option<string>, freshId: string): (id: string)
    ensures sessionId.Some? && sessionId.value != [] ==> id == sessionId.value
    ensures sessionId.None? || sessionId.value == [] ==> id == freshId
  {
    match sessionId
    case Some(s) => if s != [] then s else freshId
    case None => freshId
  }

  class SessionStore {
    /** `_sessions`: every session's messages in insertion order. */
    var sessions: map<string, seq<Message>>

    constructor ()
      ensures sessions == map[]
    {
      sessions := map[];
    }

    /** `exists`: the id names a session of the store. */
    predicate Exists(sessionId: string)
      reads this
    {
      sessionId in sessions
    }

    /** `get_history`: a copy of the session's messages, or the empty list
        for an unknown id. */
    function History(sessionId: string): (h: seq<Message>)
      reads this
      ensures Exists(sessionId) ==> h == sessions[sessionId]
      ensures !Exists(sessionId) ==> h == []
    {
      if sessionId in sessions then sessions[sessionId] else []
    }

    /** `get_or_create`: an existing non-empty id is returned and nothing
        changes; otherwise the chosen id (the caller's if non-empty, else
        the fresh one standing for `uuid4().hex`) is registered with an
        empty history, replacing any session of that id. */
    method GetOrCreate(sessionId: Option<string>, freshId: string) returns (r: string)
      modifies this
      ensures r == ChosenId(sessionId, freshId)
      ensures sessionId.Some? && sessionId.value != [] && sessionId.value in old(sessions) ==>
                sessions == old(sessions)
      ensures !(sessionId.Some? && sessionId.value != [] && sessionId.value in old(sessions)) ==>
                sessions == old(sessions)[r := []]
      ensures Exists(r)
    {
      if sessionId.Some? && sessionId.value != [] && sessionId.value in sessions {
        return sessionId.value;
      }
      r := ChosenId(sessionId, freshId);
      sessions := sessions[r := []];
    }

    /** `add_message`: KeyError and no change for an unknown id; otherwise
        exactly one message is appended to that session and no other
        session changes. */
    method AddMessage(sessionId: string, role: string, content: string) returns (r: Result<()>)
      modifies this
      ensures r.Err? <==> sessionId !in old(sessions)
      ensures r.Err? ==> r.error == KeyError && sessions == old(sessions)
      ensures r.Ok? ==> sessions == old(sessions)[sessionId := old(sessions)[sessionId] + [Message(role, content)]]
      ensures History(sessionId) == old(History(sessionId)) + (if r.Ok? then [Message(role, content)] else [])
      ensures forall other :: other != sessionId ==> History(other) == old(History(other))
    {
      if sessionId !in sessions {
        return Err(KeyError);
      }
      sessions := sessions[sessionId := sessions[sessionId] + [Message(role, content)]];
      r := Ok(());
    }
  }
}
