/** The lab02 chat message store: an append-only sequence of messages with a
    filter by sender. Each operation is one atomic step on the sequence; the
    read/write lock of the source is not modelled. */
module MessageStore {
  import opened Wrappers

  datatype Message = Message(sender: string, content: string, timestamp: int)

  datatype StoreError =
    | EmptySender                     // "message sender cannot be empty"
    | EmptyContent                    // "message content cannot be empty"
    | NoMessages                      // "no messages available"
    | NoMessagesForUser(user: string) // "no messages found for user: " + user

  /** The messages of `s` sent by `user`, in the order they were stored. */
  function SentBy(s: seq<Message>, user: string): seq<Message>
  {
    if s == [] then []
    else (if s[0].sender == user then [s[0]] else []) + SentBy(s[1..], user)
  }

  /** `AddMessage`: the sender is checked before the content; a refused message
      leaves the store as it was, an accepted one is appended. Returns the
      store after the call and the error it reported. */
  function AddMessage(s: seq<Message>, msg: Message): (r: (seq<Message>, Outcome<StoreError>))
    ensures msg.sender == "" ==> r == (s, Fail(EmptySender))
    ensures msg.sender != "" && msg.content == "" ==> r == (s, Fail(EmptyContent))
    ensures r.1 == Pass <==> msg.sender != "" && msg.content != ""
    ensures r.1 == Pass ==> |r.0| == |s| + 1 && r.0[..|s|] == s && r.0[|s|] == msg
  {
    if msg.sender == "" then (s, Fail(EmptySender))
    else if msg.content == "" then (s, Fail(EmptyContent))
    else (s + [msg], Pass)
  }

  /** `GetMessages`: an empty store fails for any user; the empty user asks for
      every message; otherwise the user's messages in store order, or an error
      when there are none. The store is an input only, so it is never
      modified. */
  method GetMessages(s: seq<Message>, user: string) returns (r: Result<seq<Message>, StoreError>)
    ensures s == [] ==> r == Err(NoMessages)
    ensures s != [] && user == "" ==> r == Ok(s)
    ensures s != [] && user != "" && SentBy(s, user) == [] ==> r == Err(NoMessagesForUser(user))
    ensures s != [] && user != "" && SentBy(s, user) != [] ==> r == Ok(SentBy(s, user))
  {
    if |s| == 0 {
      return Err(NoMessages);
    }
    if user == "" {
      return Ok(s);
    }
    var found: seq<Message> := [];
    var i := 0;
    while i < |s|
      invariant 0 <= i <= |s|
      invariant found == SentBy(s[..i], user)
    {
      SentByAppend(s[..i], [s[i]], user);
      assert s[..i + 1] == s[..i] + [s[i]];
      if s[i].sender == user {
        found := found + [s[i]];
      }
      i := i + 1;
    }
    assert s[..i] == s;
    if |found| == 0 {
      return Err(NoMessagesForUser(user));
    }
    return Ok(found);
  }

  /** Filtering distributes over concatenation: the order of the store is kept. */
  lemma {:induction false} SentByAppend(a: seq<Message>, b: seq<Message>, user: string)
    ensures SentBy(a + b, user) == SentBy(a, user) + SentBy(b, user)
  {
    if a == [] {
      assert a + b == b;
    } else {
      assert (a + b)[1..] == a[1..] + b;
      SentByAppend(a[1..], b, user);
    }
  }

  /** A message is in the user's view exactly when it is stored with that sender. */
  lemma {:induction false} SentByMembers(s: seq<Message>, user: string, m: Message)
    ensures m in SentBy(s, user) <==> m in s && m.sender == user
  {
    if s != [] {
      SentByMembers(s[1..], user, m);
      assert s == [s[0]] + s[1..];
    }
  }

  /** The user's view is empty exactly when no stored message has that sender. */
  lemma {:induction false} SentByEmpty(s: seq<Message>, user: string)
    ensures SentBy(s, user) == [] <==> forall i :: 0 <= i < |s| ==> s[i].sender != user
  {
    if s != [] {
      SentByEmpty(s[1..], user);
      assert forall i :: 1 <= i < |s| ==> s[i] == s[1..][i - 1];
    }
  }

  /** After a successful `AddMessage`, the new message closes its sender's view
      and every other user's view is unchanged. */
  lemma AddThenFilter(s: seq<Message>, msg: Message, user: string)
    requires AddMessage(s, msg).1 == Pass
    ensures SentBy(AddMessage(s, msg).0, user) ==
      SentBy(s, user) + (if user == msg.sender then [msg] else [])
  {
    SentByAppend(s, [msg], user);
    assert SentBy([msg], user) == (if msg.sender == user then [msg] else []) + SentBy([], user);
  }
}
