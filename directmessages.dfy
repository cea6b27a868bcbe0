/** The direct-message screen (`DirectMessageView.swift`): which stored messages form a
    conversation and in what order, which side each is drawn on, avatar initials, and the
    "Add User" form. */
module DirectMessages {
  import opened Wrappers
  import opened Text
  import opened Sorting

  /** A stored message row; the sender and receiver ids may be missing. */
  datatype Message = Message(
    messageID: string,
    audioFileName: Option<string>,
    senderUserID: Option<string>,
    receiverUserID: Option<string>,
    timestamp: int)

  /** The fetch predicate: sent by `me` to `other`, or by `other` to `me`. */
  predicate InThread(m: Message, me: string, other: string): (b: bool)
    ensures b <==> m.senderUserID.Some? && m.receiverUserID.Some? &&
                   multiset{m.senderUserID.value, m.receiverUserID.value} == multiset{me, other}
  {
    || (m.senderUserID == Some(me) && m.receiverUserID == Some(other))
    || (m.senderUserID == Some(other) && m.receiverUserID == Some(me))
  }

  /** The messages of `messages` that satisfy the fetch predicate, in their stored order. */
  function Between(messages: seq<Message>, me: string, other: string): (r: seq<Message>)
    ensures forall m :: multiset(r)[m] == if InThread(m, me, other) then multiset(messages)[m] else 0
  {
    if messages == [] then []
    else
      var n := |messages| - 1;
      assert messages == messages[..n] + [messages[n]];
      var rest := Between(messages[..n], me, other);
      if InThread(messages[n], me, other) then rest + [messages[n]] else rest
  }

  /** The fetch is the same whichever of the two participants is called "me". */
  lemma {:induction false} BetweenSymmetric(messages: seq<Message>, a: string, b: string)
    ensures Between(messages, a, b) == Between(messages, b, a)
  {
    if messages != [] {
      BetweenSymmetric(messages[..|messages| - 1], a, b);
    }
  }

  function TimestampKey(m: Message): int {
    m.timestamp
  }

  /** `DMMessageListView`'s fetch request: my id is the stored one and the other user's id
      is theirs, each read as "" when missing; the matching messages come oldest first. */
  function Conversation(messages: seq<Message>, storedUserID: Option<string>, otherUserID: Option<string>): (r: seq<Message>)
    ensures forall m :: multiset(r)[m] ==
              if InThread(m, storedUserID.GetOr(""), otherUserID.GetOr("")) then multiset(messages)[m] else 0
    ensures forall i, j :: 0 <= i < j < |r| ==> r[i].timestamp <= r[j].timestamp
  {
    SortBy(Between(messages, storedUserID.GetOr(""), otherUserID.GetOr("")), TimestampKey)
  }

  /** Swapping the two ids, missing ones included, selects the same conversation. */
  lemma ConversationSymmetric(messages: seq<Message>, x: Option<string>, y: Option<string>)
    ensures Conversation(messages, x, y) == Conversation(messages, y, x)
  {
    BetweenSymmetric(messages, x.GetOr(""), y.GetOr(""));
  }

  /** `isMe`: the message was sent by the stored user id (both missing also compare equal). */
  predicate IsMine(m: Message, storedUserID: Option<string>): (b: bool)
    ensures storedUserID.None? ==> (b <==> m.senderUserID.None?)
    ensures storedUserID.Some? ==> (b <==> m.senderUserID.Some? && m.senderUserID.value == storedUserID.value)
  {
    m.senderUserID == storedUserID
  }

  /** In a conversation with someone else, a message is drawn on my side exactly when it
      is addressed to the other user. */
  lemma MineIffToOther(messages: seq<Message>, me: string, other: string, m: Message)
    requires me != other
    requires m in Conversation(messages, Some(me), Some(other))
    ensures m in messages
    ensures IsMine(m, Some(me)) <==> m.receiverUserID == Some(other)
  {
    var r := Conversation(messages, Some(me), Some(other));
    assert m in multiset(r);
    assert InThread(m, me, other);
  }

  /** `UserAvatarView`: the first two characters of the username ("?" when it is missing),
      upper-cased. */
  function Initials(username: Option<string>): (r: string)
    ensures username.None? ==> r == "?"
    ensures username.Some? ==> |r| == (if |username.value| < 2 then |username.value| else 2)
    ensures username.Some? ==> Lower(r) == Lower(Prefix(username.value, 2))
    ensures forall k :: 0 <= k < |r| ==> !('a' <= r[k] <= 'z')
  {
    var shown := Prefix(username.GetOr("?"), 2);
    UpperIsCaseInsensitiveCopy(shown);
    Upper(shown)
  }

  /** The suggestions shown: the search results other than the exact current text. */
  function WithoutCurrent(names: seq<string>, current: string): (r: seq<string>)
    ensures forall s :: s in r <==> s in names && s != current
    ensures multiset(r) == multiset(names)[current := 0]
    ensures |r| <= |names|
  {
    if names == [] then []
    else
      assert names == [names[0]] + names[1..];
      assert multiset(names) == multiset{names[0]} + multiset(names[1..]);
      if names[0] == current then WithoutCurrent(names[1..], current)
      else [names[0]] + WithoutCurrent(names[1..], current)
  }

  /** The "Add" button is disabled exactly when the field trims to empty. */
  predicate AddDisabled(text: string) {
    Trim(text) == ""
  }

  /** The "Add User" sheet: its text field, the suggestions, the searching flag and error
      message, and the requests sent to the user directory. */
  class AddUserForm {
    var newUsername: string
    var suggestions: seq<string>
    var isSearching: bool
    var error: Option<string>
    /** Prefixes sent to `searchUsersInFirestore`, in order. */
    var searches: seq<string>
    /** Names sent to `addUserToLocalIfExists`, in order. */
    var lookups: seq<string>
    /** Whether `onAdd` closed the sheet. */
    var closed: bool

    constructor()
      ensures newUsername == "" && suggestions == [] && !isSearching && error == None
      ensures searches == [] && lookups == [] && !closed
    {
      newUsername, suggestions, isSearching, error := "", [], false, None;
      searches, lookups, closed := [], [], false;
    }

    /** The `onChange(of: newUsername)` handler: clears the error; text that trims to empty
        clears the suggestions and searches nothing, other text starts a search for it as typed. */
    method OnChange(value: string)
      modifies this
      ensures error == None
      ensures Trim(value) == "" ==> suggestions == [] && searches == old(searches) && isSearching == old(isSearching)
      ensures Trim(value) != "" ==> isSearching && searches == old(searches) + [value] && suggestions == old(suggestions)
      ensures newUsername == old(newUsername) && lookups == old(lookups) && closed == old(closed)
    {
      error := None;
      if Trim(value) == "" {
        suggestions := [];
        return;
      }
      isSearching := true;
      searches := searches + [value];
    }

    /** Typing in the field: the handler runs only when the text actually changes. */
    method Type(value: string)
      modifies this
      ensures newUsername == value
      ensures value == old(newUsername) ==>
                suggestions == old(suggestions) && searches == old(searches) && error == old(error)
                && isSearching == old(isSearching)
      ensures value != old(newUsername) ==> error == None
      ensures value != old(newUsername) && Trim(value) == "" ==>
                suggestions == [] && searches == old(searches) && isSearching == old(isSearching)
      ensures value != old(newUsername) && Trim(value) != "" ==>
                isSearching && searches == old(searches) + [value] && suggestions == old(suggestions)
      ensures lookups == old(lookups) && closed == old(closed)
    {
      if value != newUsername {
        newUsername := value;
        OnChange(value);
      }
    }

    /** The search callback: the results other than the text now in the field become the
        suggestions, and the spinner stops. */
    method ReceiveSuggestions(names: seq<string>)
      modifies this
      ensures suggestions == WithoutCurrent(names, newUsername)
      ensures newUsername !in suggestions
      ensures !isSearching
      ensures newUsername == old(newUsername) && searches == old(searches) && lookups == old(lookups)
      ensures error == old(error) && closed == old(closed)
    {
      suggestions := WithoutCurrent(names, newUsername);
      isSearching := false;
    }

    /** Tapping a suggestion puts it in the field and clears the list; the change handler
        then runs for the new text. */
    method ChooseSuggestion(name: string)
      modifies this
      ensures newUsername == name
      ensures name == old(newUsername) ==>
                suggestions == [] && searches == old(searches) && error == old(error) && isSearching == old(isSearching)
      ensures name != old(newUsername) && Trim(name) != "" ==> searches == old(searches) + [name] && isSearching
      ensures name != old(newUsername) && Trim(name) == "" ==>
                searches == old(searches) && suggestions == [] && isSearching == old(isSearching)
      ensures name != old(newUsername) ==> error == None && suggestions == []
      ensures lookups == old(lookups) && closed == old(closed)
    {
      var changed := name != newUsername;
      newUsername := name;
      suggestions := [];
      if changed {
        OnChange(name);
      }
    }

    /** The "Add" button: nothing happens when the field trims to empty (the button is then
        disabled); otherwise the trimmed name is looked up. */
    method Add()
      modifies this
      ensures AddDisabled(newUsername) ==> lookups == old(lookups)
      ensures !AddDisabled(newUsername) ==> lookups == old(lookups) + [Trim(newUsername)]
      ensures newUsername == old(newUsername) && suggestions == old(suggestions) && searches == old(searches)
      ensures error == old(error) && isSearching == old(isSearching) && closed == old(closed)
    {
      var trimmed := Trim(newUsername);
      if trimmed == "" {
        return;
      }
      lookups := lookups + [trimmed];
    }

    /** The lookup callback: a found user closes the sheet, a missing one shows an error. */
    method ReceiveLookup(found: bool)
      modifies this
      ensures found ==> closed && error == old(error)
      ensures !found ==> error == Some("User not found in Firestore.") && closed == old(closed)
      ensures newUsername == old(newUsername) && suggestions == old(suggestions)
      ensures searches == old(searches) && lookups == old(lookups) && isSearching == old(isSearching)
    {
      if found {
        closed := true;
      } else {
        error := Some("User not found in Firestore.");
      }
    }
  }
}
