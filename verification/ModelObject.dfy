/** im/client/model/chat.py as an object: fields changed step by step, and every event a
    listener was told. Each method leaves the model, and emits the events, that
    `ChatModel` says. */
module ModelObject {
  import opened Text
  import opened Sorting
  import C = ChatModel

  class ChatModel {
    var username: Option<string>
    var connectionState: string
    var roster: map<string, bool>
    var contacts: map<string, bool>
    var conversations: map<string, C.Conversation>
    var rooms: map<string, set<string>>
    var typing: map<string, set<string>>
    var active: Option<string>
    var emitted: seq<C.Event>

    ghost function Contents(): C.Model reads this {
      C.Model(username, connectionState, roster, contacts, conversations, rooms, typing, active)
    }

    /** Now the model is this outcome's, and its events were emitted since. */
    twostate predicate Became(out: C.Outcome) reads this {
      Contents() == out.model && emitted == old(emitted) + out.events
    }

    constructor ()
      ensures Contents() == C.NEW_MODEL && emitted == []
    {
      username, connectionState, active := None, "DISCONNECTED", None;
      roster, contacts, conversations, rooms, typing, emitted := map[], map[], map[], map[], map[], [];
    }

    method Emit(e: C.Event)
      modifies this`emitted
      ensures emitted == old(emitted) + [e]
    {
      emitted := emitted + [e];
    }

    method SetIdentity(user: string)
      modifies this
      ensures Became(C.SetIdentity(old(Contents()), user))
    {
      username := Some(user);
      Emit(C.IdentityEstablished(user));
    }

    method SetConnectionState(state: string)
      modifies this
      ensures Became(C.SetConnectionState(old(Contents()), state))
    {
      if state == connectionState {
        return;
      }
      connectionState := state;
      Emit(C.ConnectionStateChanged(state));
    }

    // ----------------------------------------------------------------- roster

    /** Everyone online at login; anyone already known but absent goes offline. */
    method ReplaceRoster(users: seq<string>)
      modifies this
      ensures Became(C.ReplaceRoster(old(Contents()), Elements(users)))
    {
      ghost var before := roster;
      for i := 0 to |users|
        invariant unchanged(this`username, this`connectionState, this`contacts, this`conversations, this`rooms, this`typing, this`active, this`emitted)
        invariant roster.Keys == before.Keys + Elements(users[..i])
        invariant forall name | name in users[..i] :: roster[name]
      {
        assert users[..i + 1] == users[..i] + [users[i]];
        roster := roster[users[i] := true];
      }
      assert users[..|users|] == users;
      var todo := roster.Keys;
      while todo != {}
        invariant unchanged(this`username, this`connectionState, this`contacts, this`conversations, this`rooms, this`typing, this`active, this`emitted)
        invariant todo <= roster.Keys == before.Keys + Elements(users)
        invariant forall name | name in users :: roster[name]
        invariant forall name | name in roster && name !in todo :: roster[name] == (name in users)
      {
        var name :| name in todo;
        if name !in users {
          roster := roster[name := false];
        }
        todo := todo - {name};
      }
      assert roster == C.ReplaceRoster(old(Contents()), Elements(users)).model.roster;
      Emit(C.RosterReplaced(roster.Keys));
    }

    /** The contact list as last reported; each contact is also on the roster. */
    method ReplaceContacts(reported: map<string, bool>)
      modifies this
      ensures Became(C.ReplaceContacts(old(Contents()), reported))
    {
      var kept := map name | name in reported && name != "" :: reported[name];
      if kept == contacts {
        return;
      }
      contacts := kept;
      ghost var before := roster;
      var todo := kept.Keys;
      while todo != {}
        invariant unchanged(this`username, this`connectionState, this`conversations, this`rooms, this`typing, this`active, this`emitted)
        invariant contacts == kept && todo <= kept.Keys
        invariant roster == (map name | name in kept.Keys - todo :: kept[name]) + before
      {
        var name :| name in todo;
        if name !in roster {
          roster := roster[name := kept[name]];
        }
        todo := todo - {name};
      }
      assert (map name | name in kept.Keys - todo :: kept[name]) == kept;
      Emit(C.ContactsChanged(contacts.Keys));
    }

    method SetPresence(user: string, online: bool)
      modifies this
      ensures Became(C.SetPresence(old(Contents()), user, online))
    {
      if user in contacts {
        contacts := contacts[user := online];
      }
      if user in roster && roster[user] == online {
        return;
      }
      roster := roster[user := online];
      Emit(C.PresenceChanged(user, online));
    }

    // ---------------------------------------------------------- conversations

    /** Fetch a conversation, as new if it is not there yet. */
    function ConversationOf(key: string): C.Conversation
      reads this
    {
      if key in conversations then conversations[key] else C.Conversation([], 0)
    }

    method AddMessage(key: string, message: C.Message)
      modifies this
      ensures Became(C.AddMessage(old(Contents()), key, message))
    {
      var conversation := ConversationOf(key);
      var unread := if active != Some(key) && !message.mine then conversation.unread + 1 else conversation.unread;
      conversations := conversations[key := C.Conversation(conversation.messages + [message], unread)];
      if !message.mine {
        SetTyping(key, message.sender, false);
      }
      Emit(C.MessageAdded(key, message));
      if unread != conversation.unread {
        Emit(C.UnreadChanged(key, unread));
      }
    }

    method LoadHistory(key: string, messages: seq<C.Message>)
      modifies this
      ensures Became(C.LoadHistory(old(Contents()), key, messages))
    {
      conversations := conversations[key := ConversationOf(key).(messages := messages)];
      Emit(C.HistoryLoaded(key, |messages|));
    }

    /** Move one message on; receipts never move backwards. */
    method SetReceipt(key: string, id: string, state: string)
      modifies this
      ensures Became(C.SetReceipt(old(Contents()), key, id, state))
    {
      if key !in conversations {
        return;
      }
      var messages := conversations[key].messages;
      for i := 0 to |messages|
        invariant forall j | 0 <= j < i :: messages[j].id != id
      {
        if messages[i].id == id {
          assert C.FirstWithId(messages, id) == i;
          if C.Order(state) <= C.Order(messages[i].state) {
            return;
          }
          ghost var after := messages[i := messages[i].(state := state)];
          assert after[i] != messages[i] && after != messages;
          conversations := conversations[key := conversations[key].(messages := messages[i := messages[i].(state := state)])];
          Emit(C.ReceiptChanged(key, id, state));
          return;
        }
      }
      assert C.FirstWithId(messages, id) == |messages|;
    }

    method Select(key: Option<string>)
      modifies this
      ensures Became(C.Select(old(Contents()), key))
    {
      active := key;
      Emit(C.ConversationSelected(key));
      if key.Some? {
        var conversation := ConversationOf(key.value);
        conversations := conversations[key.value := conversation.(unread := 0)];
        if conversation.unread != 0 {
          Emit(C.UnreadChanged(key.value, 0));
        }
      }
    }

    method SetTyping(key: string, user: string, on: bool)
      modifies this`typing, this`emitted
      ensures Became(C.SetTyping(old(Contents()), key, user, on))
    {
      var before := if key in typing then typing[key] else {};
      var who := if on then before + {user} else before - {user};
      typing := typing[key := who];
      if who != before {
        Emit(C.TypingChanged(key, who));
      }
    }

    /** An error is something to show, not state to keep. */
    method RaiseError(code: string)
      modifies this`emitted
      ensures Became(C.Apply(old(Contents()), C.Refused(code)))
    {
      Emit(C.ErrorRaised(code));
    }

    method SetRoomMembers(room: string, members: set<string>)
      modifies this
      ensures Became(C.SetRoomMembers(old(Contents()), room, members))
    {
      if room in rooms && rooms[room] == members {
        return;
      }
      rooms := rooms[room := members];
      conversations := conversations[room := ConversationOf(room)];
      Emit(C.RoomMembersChanged(room, members));
    }
  }
}
