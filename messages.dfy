/**
 * The chat backend: one table of messages, each optionally owned by a user
 * id, and the scheduler's queue of bot-reply jobs. Queries are functions of
 * the table; mutations are methods of the Store that holds it.
 */
module Messages {
  import opened Wrappers
  import opened JsBuiltins

  /** The author name of a human confessor; only these messages get a reply. */
  const Penitent: string := "the Penitent"
  /** The author name of every bot message. */
  const Pope: string := "Pope Francis"

  const DefaultFallback: string := "Forgive me, my child, but I seem to be... oh my, still spinning... what was I saying? *loses train of thought*"
  const DizzyFallback: string := "My child, I'm feeling rather dizzy from all this rotating. Perhaps we could pause for a moment? *tries to focus*"
  const PermissionsFallback: string := "Oh dear... the spinning seems to have affected my... what do they call it... digital permissions? *looks confused*"

  /** A stored document; `id` is the document id the database assigns on insert, in insertion order. */
  datatype Message = Message(id: nat, body: string, author: string, userId: Option<string>)

  /** A scheduled run of the bot-reply action. */
  datatype Job = GenerateBotReply(userMessage: string, userId: Option<string>)

  /** The owner field written on insert: the argument when truthy, absent otherwise. */
  function StoredOwner(userId: Option<string>): Option<string>
  {
    if Truthy(userId) then userId else None
  }

  /**
   * No stored owner is the empty id: an owner is either absent or the given
   * id, every truthy id is kept, and storing a stored owner again changes
   * nothing.
   */
  lemma StoredOwnerIsTruthy(userId: Option<string>)
    ensures StoredOwner(userId).None? || (StoredOwner(userId) == userId && Truthy(userId))
    ensures Truthy(userId) ==> StoredOwner(userId) == userId
    ensures StoredOwner(StoredOwner(userId)) == StoredOwner(userId)
  {
  }

  // ---------------------------------------------------------------------
  // Filters over the table
  // ---------------------------------------------------------------------

  /** The messages owned by `u`, in table order. */
  function Owned(s: seq<Message>, u: string): (r: seq<Message>)
    ensures |r| <= |s|
  {
    if s == [] then []
    else Owned(s[..|s| - 1], u) + (if s[|s| - 1].userId == Some(u) then [s[|s| - 1]] else [])
  }

  /** The messages not owned by `u`, in table order. */
  function Others(s: seq<Message>, u: string): (r: seq<Message>)
    ensures |r| <= |s|
  {
    if s == [] then []
    else Others(s[..|s| - 1], u) + (if s[|s| - 1].userId != Some(u) then [s[|s| - 1]] else [])
  }

  /** The messages whose id is not in `ids`, in table order. */
  function Keep(s: seq<Message>, ids: set<nat>): (r: seq<Message>)
    ensures |r| <= |s|
  {
    if s == [] then []
    else Keep(s[..|s| - 1], ids) + (if s[|s| - 1].id !in ids then [s[|s| - 1]] else [])
  }

  function IdsOf(s: seq<Message>): set<nat>
  {
    set m | m in s :: m.id
  }

  predicate UniqueIds(s: seq<Message>)
  {
    forall i, j :: 0 <= i < j < |s| ==> s[i].id != s[j].id
  }

  lemma {:induction false} OwnedMembership(s: seq<Message>, u: string)
    ensures forall m :: m in Owned(s, u) <==> m in s && m.userId == Some(u)
  {
    if s != [] {
      var s' := s[..|s| - 1];
      OwnedMembership(s', u);
      assert s == s' + [s[|s| - 1]];
    }
  }

  lemma {:induction false} OthersMembership(s: seq<Message>, u: string)
    ensures forall m :: m in Others(s, u) <==> m in s && m.userId != Some(u)
  {
    if s != [] {
      var s' := s[..|s| - 1];
      OthersMembership(s', u);
      assert s == s' + [s[|s| - 1]];
    }
  }

  /** Filtering by owner distributes over concatenation, so it keeps the relative order of the table. */
  lemma {:induction false} OwnedAppend(a: seq<Message>, b: seq<Message>, u: string)
    ensures Owned(a + b, u) == Owned(a, u) + Owned(b, u)
    decreases |b|
  {
    if b == [] {
      assert a + b == a;
    } else {
      var b' := b[..|b| - 1];
      assert (a + b)[..|a + b| - 1] == a + b';
      OwnedAppend(a, b', u);
    }
  }

  lemma {:induction false} KeepMembership(s: seq<Message>, ids: set<nat>)
    ensures forall m :: m in Keep(s, ids) <==> m in s && m.id !in ids
  {
    if s != [] {
      var s' := s[..|s| - 1];
      KeepMembership(s', ids);
      assert s == s' + [s[|s| - 1]];
    }
  }

  /** Deleting one id set and then another is deleting their union. */
  lemma {:induction false} KeepKeep(s: seq<Message>, a: set<nat>, b: set<nat>)
    ensures Keep(Keep(s, a), b) == Keep(s, a + b)
  {
    if s != [] {
      var s' := s[..|s| - 1];
      KeepKeep(s', a, b);
      var x := s[|s| - 1];
      var t := Keep(s, a);
      if x.id !in a {
        assert t == Keep(s', a) + [x];
        assert t[..|t| - 1] == Keep(s', a);
        assert Keep(t, b) == Keep(Keep(s', a), b) + (if x.id !in b then [x] else []);
      } else {
        assert t == Keep(s', a);
      }
    }
  }

  /** Deleting no ids changes nothing. */
  lemma {:induction false} KeepNone(s: seq<Message>)
    ensures Keep(s, {}) == s
  {
    if s != [] {
      KeepNone(s[..|s| - 1]);
      assert s == s[..|s| - 1] + [s[|s| - 1]];
    }
  }

  /** Ids that name no message of the table delete nothing. */
  lemma {:induction false} KeepForeign(s: seq<Message>, ids: set<nat>, extra: set<nat>)
    requires forall m :: m in s ==> m.id !in extra
    ensures Keep(s, ids + extra) == Keep(s, ids)
  {
    if s != [] {
      var s' := s[..|s| - 1];
      assert forall m :: m in s' ==> m in s;
      KeepForeign(s', ids, extra);
    }
  }

  /** Deleting the ids of all the table's messages empties it. */
  lemma {:induction false} KeepAllIds(s: seq<Message>, ids: set<nat>)
    requires IdsOf(s) <= ids
    ensures Keep(s, ids) == []
  {
    if s != [] {
      var s' := s[..|s| - 1];
      assert IdsOf(s') <= IdsOf(s) by {
        forall m | m in s' ensures m in s { }
      }
      KeepAllIds(s', ids);
      assert s[|s| - 1] in s;
    }
  }

  /** With distinct ids, deleting by the ids of `u`'s messages leaves exactly the others, in order. */
  lemma {:induction false} KeepOwnedIds(s: seq<Message>, u: string)
    requires UniqueIds(s)
    ensures Keep(s, IdsOf(Owned(s, u))) == Others(s, u)
  {
    if s != [] {
      var s' := s[..|s| - 1];
      var x := s[|s| - 1];
      assert UniqueIds(s');
      KeepOwnedIds(s', u);
      OwnedMembership(s', u);
      assert forall m :: m in s' ==> m.id != x.id by {
        forall m | m in s' ensures m.id != x.id {
          var i :| 0 <= i < |s'| && s'[i] == m;
          assert s[i] == m;
        }
      }
      var before := IdsOf(Owned(s', u));
      assert x.id !in before;
      if x.userId == Some(u) {
        assert Owned(s, u) == Owned(s', u) + [x];
        assert IdsOf(Owned(s, u)) == before + {x.id};
        KeepForeign(s', before, {x.id});
      } else {
        assert Owned(s, u) == Owned(s', u);
      }
    }
  }

  lemma {:induction false} KeepUnique(s: seq<Message>, ids: set<nat>)
    requires UniqueIds(s)
    ensures UniqueIds(Keep(s, ids))
  {
    if s != [] {
      var s' := s[..|s| - 1];
      var x := s[|s| - 1];
      assert UniqueIds(s');
      KeepUnique(s', ids);
      KeepMembership(s', ids);
      var k := Keep(s', ids);
      if x.id !in ids {
        assert Keep(s, ids) == k + [x];
        forall i | 0 <= i < |k| ensures k[i].id != x.id {
          assert k[i] in s';
          var j :| 0 <= j < |s'| && s'[j] == k[i];
          assert s[j] == k[i];
        }
      }
    }
  }

  // ---------------------------------------------------------------------
  // The list query
  // ---------------------------------------------------------------------

  /**
   * The `list` query: with a truthy user id only that user's messages, else
   * every message; in insertion order either way.
   */
  function List(table: seq<Message>, userId: Option<string>): (r: seq<Message>)
    ensures !Truthy(userId) ==> r == table
    ensures Truthy(userId) ==> forall m :: m in r <==> m in table && m.userId == userId
  {
    if Truthy(userId) then
      OwnedMembership(table, userId.value);
      Owned(table, userId.value)
    else table
  }

  /** Listing a user's messages of a longer table lists the shorter one's first, then the new ones'. */
  lemma ListOfAppend(a: seq<Message>, b: seq<Message>, userId: Option<string>)
    ensures List(a + b, userId) == List(a, userId) + List(b, userId)
  {
    if Truthy(userId) {
      OwnedAppend(a, b, userId.value);
    }
  }

  // ---------------------------------------------------------------------
  // Bot replies
  // ---------------------------------------------------------------------

  /** The outcome of the completion request: the reply content (possibly missing) or an error with its HTTP status, if any. */
  datatype Completion = Answered(content: Option<string>) | Failed(status: Option<int>)

  /** The fallback for an error: 429 gives the dizzy text, 401 the permissions text, anything else the default. */
  function Fallback(status: Option<int>): (text: string)
    ensures text == DizzyFallback <==> status == Some(429)
    ensures text == PermissionsFallback <==> status == Some(401)
    ensures text == DefaultFallback <==> status != Some(429) && status != Some(401)
  {
    assert DizzyFallback != PermissionsFallback && DizzyFallback != DefaultFallback
      && PermissionsFallback != DefaultFallback;
    if status == Some(429) then DizzyFallback
    else if status == Some(401) then PermissionsFallback
    else DefaultFallback
  }

  /** The text generateBotReply posts: a non-empty reply as is; an empty or missing reply throws and so gets the default fallback. */
  function ReplyText(c: Completion): (text: string)
    ensures text != ""
    ensures (c.Answered? && c.content.Some? && c.content.value != "") ==> text == c.content.value
    ensures !(c.Answered? && c.content.Some? && c.content.value != "") ==>
      text in {DefaultFallback, DizzyFallback, PermissionsFallback}
  {
    match c
    case Answered(Some(s)) => if s != "" then s else Fallback(None)
    case Answered(None) => Fallback(None)
    case Failed(status) => Fallback(status)
  }

  /** A missing status (as for the thrown "No response content" error) and any status other than 429 and 401 give the default. */
  lemma EmptyReplyGetsDefault(c: Completion)
    requires c == Answered(None) || c == Answered(Some(""))
    ensures ReplyText(c) == DefaultFallback
  {
    assert ReplyText(c) == Fallback(None);
  }

  /** The documents `clear` collects: the user's when the id is truthy, otherwise all. */
  function ClearTargets(table: seq<Message>, userId: Option<string>): seq<Message>
  {
    if Truthy(userId) then Owned(table, userId.value) else table
  }

  lemma DeletedNone(s: seq<Message>, victims: seq<Message>)
    ensures Keep(s, IdsOf(victims[..0])) == s
  {
    assert victims[..0] == [];
    assert IdsOf(victims[..0]) == {};
    KeepNone(s);
  }

  /** Deleting the next victim extends the deleted prefix by one. */
  lemma DeletedOneMore(s: seq<Message>, victims: seq<Message>, k: nat)
    requires k < |victims|
    ensures Keep(Keep(s, IdsOf(victims[..k])), {victims[k].id}) == Keep(s, IdsOf(victims[..k + 1]))
  {
    KeepKeep(s, IdsOf(victims[..k]), {victims[k].id});
    assert victims[..k + 1] == victims[..k] + [victims[k]];
    assert IdsOf(victims[..k + 1]) == IdsOf(victims[..k]) + {victims[k].id};
  }

  /** Deleting every target leaves the other users' messages, or nothing when all were targets. */
  lemma ClearTargetsDeleted(s: seq<Message>, userId: Option<string>, victims: seq<Message>)
    requires UniqueIds(s) && victims == ClearTargets(s, userId)
    ensures Keep(s, IdsOf(victims[..|victims|])) == if Truthy(userId) then Others(s, userId.value) else []
  {
    assert victims[..|victims|] == victims;
    if Truthy(userId) {
      KeepOwnedIds(s, userId.value);
    } else {
      KeepAllIds(s, IdsOf(s));
    }
  }

  // ---------------------------------------------------------------------
  // The store and its mutations
  // ---------------------------------------------------------------------

  class Store {
    /** The messages table in insertion order. */
    var messages: seq<Message>
    /** The scheduler's pending bot-reply jobs, oldest first. */
    var jobs: seq<Job>
    /** The id the next insert receives. */
    var nextId: nat

    /** Document ids are distinct and below the next one to be handed out. */
    predicate Valid()
      reads this
    {
      UniqueIds(messages) && forall m :: m in messages ==> m.id < nextId
    }

    constructor ()
      ensures Valid() && messages == [] && jobs == [] && nextId == 0
    {
      messages := [];
      jobs := [];
      nextId := 0;
    }

    /** `db.insert`: appends one document with a fresh id. */
    method Insert(body: string, author: string, userId: Option<string>)
      requires Valid()
      modifies this
      ensures Valid()
      ensures messages == old(messages) + [Message(old(nextId), body, author, StoredOwner(userId))]
      ensures jobs == old(jobs) && nextId == old(nextId) + 1
    {
      var m := Message(nextId, body, author, StoredOwner(userId));
      forall i | 0 <= i < |messages| ensures messages[i].id != m.id {
        assert messages[i] in messages;
      }
      messages := messages + [m];
      nextId := nextId + 1;
    }

    /** `db.delete`: removes the document with this id, if any. */
    method Delete(id: nat)
      requires Valid()
      modifies this
      ensures Valid()
      ensures messages == Keep(old(messages), {id})
      ensures jobs == old(jobs) && nextId == old(nextId)
    {
      KeepUnique(messages, {id});
      KeepMembership(messages, {id});
      messages := Keep(messages, {id});
    }

    /** The `send` mutation: stores the message, then schedules a reply exactly for the penitent's messages. */
    method Send(body: string, author: string, userId: Option<string>)
      requires Valid()
      modifies this
      ensures Valid()
      ensures messages == old(messages) + [Message(old(nextId), body, author, StoredOwner(userId))]
      ensures jobs == old(jobs) + (if author == Penitent then [GenerateBotReply(body, userId)] else [])
      ensures nextId == old(nextId) + 1
    {
      Insert(body, author, userId);
      if author == Penitent {
        jobs := jobs + [GenerateBotReply(body, userId)];
      }
    }

    /** The `sendBotMessage` mutation: stores one message by the Pope. */
    method SendBotMessage(body: string, userId: Option<string>)
      requires Valid()
      modifies this
      ensures Valid()
      ensures messages == old(messages) + [Message(old(nextId), body, Pope, StoredOwner(userId))]
      ensures jobs == old(jobs) && nextId == old(nextId) + 1
    {
      Insert(body, Pope, userId);
    }

    /**
     * The `clear` mutation: collects the user's messages (every message when
     * the user id is falsy) and deletes them one by one. What remains is
     * exactly the other users' messages, in their order, or nothing.
     */
    method Clear(userId: Option<string>)
      requires Valid()
      modifies this
      ensures Valid()
      ensures messages == if Truthy(userId) then Others(old(messages), userId.value) else []
      ensures jobs == old(jobs) && nextId == old(nextId)
    {
      var victims := ClearTargets(messages, userId);
      ghost var original := messages;
      var k := 0;
      DeletedNone(original, victims);
      while k < |victims|
        invariant 0 <= k <= |victims|
        invariant Valid()
        invariant messages == Keep(original, IdsOf(victims[..k]))
        invariant jobs == old(jobs) && nextId == old(nextId)
      {
        Delete(victims[k].id);
        DeletedOneMore(original, victims, k);
        k := k + 1;
      }
      ClearTargetsDeleted(original, userId, victims);
    }

    /**
     * One run of the scheduled `generateBotReply` action: takes the oldest
     * job and stores exactly one Pope message for its user, the reply or a
     * fallback.
     */
    method RunNextJob(completion: Completion)
      requires Valid()
      modifies this
      ensures Valid()
      ensures old(jobs) == [] ==> messages == old(messages) && jobs == old(jobs) && nextId == old(nextId)
      ensures old(jobs) != [] ==>
        && jobs == old(jobs)[1..]
        && messages == old(messages) + [Message(old(nextId), ReplyText(completion), Pope, StoredOwner(old(jobs)[0].userId))]
    {
      if jobs != [] {
        var job := jobs[0];
        jobs := jobs[1..];
        SendBotMessage(ReplyText(completion), job.userId);
      }
    }
  }

  // ---------------------------------------------------------------------
  // How the operations combine
  // ---------------------------------------------------------------------

  /** After clearing user u, listing u gives nothing. */
  lemma {:induction false} ClearedUserListsNothing(s: seq<Message>, u: string)
    requires u != ""
    ensures List(Others(s, u), Some(u)) == []
  {
    if s != [] {
      var s' := s[..|s| - 1];
      ClearedUserListsNothing(s', u);
      var o := Others(s, u);
      if s[|s| - 1].userId != Some(u) {
        assert o == Others(s', u) + [s[|s| - 1]];
        assert o[..|o| - 1] == Others(s', u);
      } else {
        assert o == Others(s', u);
      }
    }
  }

  /** Clearing user u leaves every other user's listing as it was. */
  lemma {:induction false} ClearKeepsOtherUsers(s: seq<Message>, u: string, v: string)
    requires u != v
    ensures Owned(Others(s, u), v) == Owned(s, v)
  {
    if s != [] {
      var s' := s[..|s| - 1];
      ClearKeepsOtherUsers(s', u, v);
      var x := s[|s| - 1];
      var o := Others(s, u);
      if x.userId != Some(u) {
        assert o == Others(s', u) + [x];
        assert o[..|o| - 1] == Others(s', u);
      } else {
        assert o == Others(s', u);
      }
    }
  }

  /** A user's message sent with a truthy id shows up last in that user's listing. */
  lemma SentMessageListedLast(s: seq<Message>, m: Message, u: string)
    requires u != "" && m.userId == StoredOwner(Some(u))
    ensures List(s + [m], Some(u)) == List(s, Some(u)) + [m]
  {
    assert (s + [m])[..|s + [m]| - 1] == s;
  }

  /** A message sent without a truthy id appears in no user's listing, only in the full one. */
  lemma AnonymousMessageUnlisted(s: seq<Message>, m: Message, userId: Option<string>, u: string)
    requires !Truthy(userId) && m.userId == StoredOwner(userId) && u != ""
    ensures List(s + [m], Some(u)) == List(s, Some(u))
    ensures List(s + [m], None) == List(s, None) + [m]
  {
    assert (s + [m])[..|s + [m]| - 1] == s;
  }
}
