/**
 * The chat page (`Chat`): owns the conversation's session id, which it reads
 * from or creates in `localStorage` on first render and replaces (and
 * persists) when the chat component reports a new one. `Date.now()` and
 * `Math.random()` are parameters.
 */
module ChatPage {
  import opened Wrappers
  import opened Text
  import opened Browser

  const SessionKey: string := "rag-session-id"
  const SessionPrefix: string := "session_"

  /** `'session_' + Date.now() + '_' + <random suffix>`; `random` stands for the base-36 suffix. */
  function NewSessionId(now: nat, random: string): (id: string)
    ensures StartsWith(id, SessionPrefix) && |id| > |SessionPrefix|
  {
    SessionPrefix + NatToString(now) + "_" + random
  }

  /** The creation time written into a generated id: the digits between the prefix and the next `_`. */
  function IdTimestamp(id: string): Option<nat> {
    if !StartsWith(id, SessionPrefix) then None
    else
      var rest := id[|SessionPrefix|..];
      var i := IndexOf(rest, '_');
      var digits := if i == -1 then rest else rest[..i];
      if digits != [] && AllDigits(digits) then Some(DigitsValue(digits)) else None
  }

  /** The time a generated id was made at can be read back from it. */
  lemma NewSessionIdTimestamp(now: nat, random: string)
    ensures IdTimestamp(NewSessionId(now, random)) == Some(now)
  {
    var id := NewSessionId(now, random);
    var digits := NatToString(now);
    var rest := id[|SessionPrefix|..];
    assert rest == digits + "_" + random;
    var i := IndexOf(rest, '_');
    assert rest[|digits|] == '_';
    assert forall k :: 0 <= k < |digits| ==> rest[k] == digits[k] && IsDigit(rest[k]);
    assert i == |digits|;
    assert rest[..i] == digits;
    NatToStringRoundTrip(now);
  }

  /** Ids generated at different milliseconds differ, whatever their random suffixes. */
  lemma NewSessionIdsDiffer(now1: nat, random1: string, now2: nat, random2: string)
    requires now1 != now2
    ensures NewSessionId(now1, random1) != NewSessionId(now2, random2)
  {
    NewSessionIdTimestamp(now1, random1);
    NewSessionIdTimestamp(now2, random2);
  }

  /** The `useState` initialiser: a stored non-empty id is kept as it is, otherwise a new one is made. */
  function InitialSessionId(stored: Option<string>, now: nat, random: string): (id: string)
    ensures id != ""
    ensures stored.Some? && stored.value != "" ==> id == stored.value
    ensures !(stored.Some? && stored.value != "") ==> IdTimestamp(id) == Some(now)
  {
    if stored.Some? && stored.value != "" then stored.value
    else
      NewSessionIdTimestamp(now, random);
      NewSessionId(now, random)
  }

  class ChatPage {
    const storage: LocalStorage
    var sessionId: string

    /** The stored id is the current one. */
    ghost predicate Persisted()
      reads this, storage
    {
      storage.GetItem(SessionKey) == Some(sessionId)
    }

    /** First render: read the stored id, or create one and store it before using it. */
    constructor (storage: LocalStorage, now: nat, random: string)
      modifies storage
      ensures this.storage == storage
      ensures sessionId == InitialSessionId(old(storage.GetItem(SessionKey)), now, random)
      ensures storage.items == old(storage.items)[SessionKey := sessionId]
      ensures Persisted() && sessionId != ""
    {
      this.storage := storage;
      var stored := storage.GetItem(SessionKey);
      if stored.Some? && stored.value != "" {
        sessionId := stored.value;
      } else {
        var newId := NewSessionId(now, random);
        storage.SetItem(SessionKey, newId);
        sessionId := newId;
      }
    }

    /** `handleSessionChange`: adopt and store the new id; other stored keys are untouched. */
    method HandleSessionChange(newSessionId: string)
      modifies this, storage
      ensures sessionId == newSessionId
      ensures storage.items == old(storage.items)[SessionKey := newSessionId]
      ensures Persisted()
    {
      sessionId := newSessionId;
      storage.SetItem(SessionKey, newSessionId);
    }
  }
}
