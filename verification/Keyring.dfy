/** im/crypto/keyring.py: the keys a client holds. `Ring` is what a keyring means, with
    no cache in it; the class carries the cache, and every answer it gives is the one
    the ring gives without it. */
module Keyrings {
  import opened Text
  import opened Crypto
  import opened Messages
  import opened Sorting

  datatype Ring = Ring(identity: Identity, me: string, pubkeys: map<string, PublicKey>)

  predicate Knows(r: Ring, user: string) {
    user in r.pubkeys
  }

  function Remember(r: Ring, user: string, pubkey: PublicKey): Ring {
    r.(pubkeys := r.pubkeys[user := pubkey])
  }

  function Forget(r: Ring, user: string): Ring {
    r.(pubkeys := r.pubkeys - {user})
  }

  /** One's own public half, under one's own name, unless a key is already there. */
  function WithSelf(r: Ring): Ring {
    if r.me in r.pubkeys then r else r.(pubkeys := r.pubkeys[r.me := r.identity.PublicHalf()])
  }

  /** The ring after a key was asked for: asking for one's own files it. */
  function Asked(r: Ring, user: string): Ring {
    if user != "" && user == r.me then WithSelf(r) else r
  }

  function KeyOf(r: Ring, user: string): Option<Key> {
    if user in Asked(r, user).pubkeys then Some(KeyFor(r.identity, Asked(r, user).pubkeys[user])) else None
  }

  function SealFor(r: Ring, user: string, text: string, sender: string, nonce: string): Option<Payload> {
    var key := KeyOf(r, user);
    if key.None? then None else Some(Seal(key.value, text, sender, nonce))
  }

  function OpenFrom(r: Ring, user: string, body: Payload, nonce: string, sender: string): Option<string> {
    var key := KeyOf(r, user);
    if key.None? then None else Open(key.value, body, nonce, sender)
  }

  function Missing(r: Ring, members: set<string>): set<string> {
    set name | name in members && !Knows(r, name)
  }

  /** A room message is sealed as its sender, who gets a copy too. */
  function As(r: Ring, sender: string): Ring {
    WithSelf(r.(me := sender))
  }

  /** One share per member and one for the sender, or nothing at all. */
  function SealForMembers(r: Ring, members: set<string>, text: string, sender: string, nonce: string -> string): Option<map<string, Share>> {
    var ring := As(r, sender);
    if exists name | name in members + {sender} :: KeyOf(ring, name).None? then None
    else Some(map name | name in members + {sender} ::
                Share(SealFor(ring, name, text, sender, nonce(name)).value, nonce(name)))
  }

  // ------------------------------------------------------------- what it means

  /** All or nothing, and the sender's own key is never what is missing: sealing a room
      message fails exactly when some other member's key is unknown. */
  lemma SealsIffNobodyIsMissing(r: Ring, members: set<string>, text: string, sender: string, nonce: string -> string)
    ensures var shares := SealForMembers(r, members, text, sender, nonce);
      && (shares.Some? <==> Missing(r, members - {sender}) == {})
      && (shares.Some? ==> shares.value.Keys == members + {sender})
  {
    var ring := As(r, sender);
    assert sender in ring.pubkeys;
    forall name ensures KeyOf(ring, name).Some? <==> Knows(r, name) || name == sender {}
    if Missing(r, members - {sender}) != {} {
      var name :| name in Missing(r, members - {sender});
      assert name in members + {sender} && KeyOf(ring, name).None?;
    } else {
      forall name | name in members + {sender} ensures KeyOf(ring, name).Some? {
        assert name != sender ==> name !in Missing(r, members - {sender});
      }
    }
  }

  /** Two identities. `a` is `alice` to the ring that seals, and the other way round. */
  ghost predicate Acquainted(mine: Ring, theirs: Ring, myName: string, theirName: string) {
    && KeyOf(mine, theirName) == Some(KeyFor(mine.identity, theirs.identity.PublicHalf()))
    && KeyOf(theirs, myName) == Some(KeyFor(theirs.identity, mine.identity.PublicHalf()))
  }

  /** What one seals for the other, the other opens: the exchange is symmetric. */
  lemma SealedIsOpened(mine: Ring, theirs: Ring, myName: string, theirName: string, text: string, nonce: string)
    requires Acquainted(mine, theirs, myName, theirName)
    ensures var sealed := SealFor(mine, theirName, text, myName, nonce);
      sealed.Some? && OpenFrom(theirs, myName, sealed.value, nonce, myName) == Some(text)
  {
    assert {mine.identity.secret, theirs.identity.secret} == {theirs.identity.secret, mine.identity.secret};
  }

  /** A body opens if and only if it was sealed between these two parties, under this
      nonce, in this sender's name; then it reads as what was sealed. Relabelling a
      message, or replaying it to somebody else, makes it unreadable. */
  lemma OpensIffItWasSealed(r: Ring, user: string, body: Payload, nonce: string, sender: string, text: string)
    ensures OpenFrom(r, user, body, nonce, sender) == Some(text)
       <==> exists key :: KeyOf(r, user) == Some(key) && body == Seal(key, text, sender, nonce)
  {
    if OpenFrom(r, user, body, nonce, sender) == Some(text) {
      assert body == Seal(KeyOf(r, user).value, text, sender, nonce);
    }
  }

  // --------------------------------------------------------------- the object

  class Keyring {
    const identity: Identity
    var me: string
    var pubkeys: map<string, PublicKey>
    var derived: map<string, Key>

    /** The cache holds what deriving afresh would give, for known people only. */
    ghost predicate Valid() reads this {
      forall user | user in derived :: user in pubkeys && derived[user] == KeyFor(identity, pubkeys[user])
    }

    ghost function Contents(): Ring reads this {
      Ring(identity, me, pubkeys)
    }

    constructor (identity: Identity, me: string)
      ensures Valid() && Contents() == Ring(identity, me, map[])
    {
      this.identity, this.me := identity, me;
      pubkeys, derived := map[], map[];
    }

    method RememberKey(user: string, pubkey: PublicKey)
      requires Valid()
      modifies this`pubkeys, this`derived
      ensures Valid() && Contents() == Remember(old(Contents()), user, pubkey)
    {
      if user in pubkeys && pubkeys[user] == pubkey {
        assert pubkeys[user := pubkey] == pubkeys;
        return;
      }
      pubkeys := pubkeys[user := pubkey];
      derived := derived - {user};
    }

    method ForgetKey(user: string)
      requires Valid()
      modifies this`pubkeys, this`derived
      ensures Valid() && Contents() == Forget(old(Contents()), user)
    {
      pubkeys, derived := pubkeys - {user}, derived - {user};
    }

    method FileSelf()
      requires Valid()
      modifies this`pubkeys
      ensures Valid() && Contents() == WithSelf(old(Contents()))
    {
      if me !in pubkeys {
        pubkeys := pubkeys[me := identity.PublicHalf()];
      }
    }

    method FindKey(user: string) returns (key: Option<Key>)
      requires Valid()
      modifies this`pubkeys, this`derived
      ensures Valid() && Contents() == Asked(old(Contents()), user)
      ensures key == KeyOf(old(Contents()), user)
    {
      if user != "" && user == me {
        FileSelf();
      }
      if user in derived {
        return Some(derived[user]);
      }
      if user !in pubkeys {
        return None;
      }
      var key' := KeyFor(identity, pubkeys[user]);
      derived := derived[user := key'];
      return Some(key');
    }

    method SealOne(user: string, text: string, sender: string, nonce: string) returns (sealed: Option<Payload>)
      requires Valid()
      modifies this`pubkeys, this`derived
      ensures Valid() && Contents() == Asked(old(Contents()), user)
      ensures sealed == SealFor(old(Contents()), user, text, sender, nonce)
    {
      var key := FindKey(user);
      sealed := if key.None? then None else Some(Seal(key.value, text, sender, nonce));
    }

    method OpenOne(user: string, body: Payload, nonce: string, sender: string) returns (text: Option<string>)
      requires Valid()
      modifies this`pubkeys, this`derived
      ensures Valid() && Contents() == Asked(old(Contents()), user)
      ensures text == OpenFrom(old(Contents()), user, body, nonce, sender)
    {
      var key := FindKey(user);
      text := if key.None? then None else Open(key.value, body, nonce, sender);
    }

    method MissingKeys(members: seq<string>) returns (missing: seq<string>)
      ensures Elements(missing) == Missing(Contents(), Elements(members)) && Ascending(missing, LexLeq)
    {
      var unknown: set<string> := {};
      for i := 0 to |members|
        invariant forall name :: name in unknown <==> name in members[..i] && name !in pubkeys
      {
        if members[i] !in pubkeys { unknown := unknown + {members[i]}; }
      }
      assert members[..|members|] == members;
      missing := SortNames(unknown);
    }

    method SealRoom(members: set<string>, text: string, sender: string, nonce: string -> string) returns (shares: Option<map<string, Share>>)
      requires Valid()
      modifies this
      ensures Valid() && Contents() == As(old(Contents()), sender)
      ensures shares == SealForMembers(old(Contents()), members, text, sender, nonce)
    {
      me := sender;
      FileSelf();
      ghost var ring := Contents();
      assert forall name :: Asked(ring, name) == ring;
      var everyone := members + {sender};

      var todo := everyone;
      while todo != {}
        invariant Valid() && Contents() == ring
        invariant todo <= everyone && forall name | name in everyone - todo :: KeyOf(ring, name).Some?
      {
        var name :| name in todo;
        var key := FindKey(name);
        if key.None? {
          return None;
        }
        todo := todo - {name};
      }

      var sealed: map<string, Share> := map[];
      todo := everyone;
      while todo != {}
        invariant Valid() && Contents() == ring
        invariant todo <= everyone && sealed.Keys == everyone - todo
        invariant forall name | name in sealed ::
          sealed[name] == Share(SealFor(ring, name, text, sender, nonce(name)).value, nonce(name))
      {
        var name :| name in todo;
        var body := SealOne(name, text, sender, nonce(name));
        sealed := sealed[name := Share(body.value, nonce(name))];
        todo := todo - {name};
      }
      ghost var spec := SealForMembers(old(Contents()), members, text, sender, nonce);
      assert spec.Some? by { assert forall name | name in everyone :: KeyOf(ring, name).Some?; }
      assert sealed.Keys == spec.value.Keys;
      assert sealed == spec.value;
      shares := Some(sealed);
    }
  }
}
