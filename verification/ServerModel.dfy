/** The server's tables and sessions: what they hold, what every request keeps, and what a
    request may change. */
module ServerModel {
  import opened Options

  const SYSTEM: nat := 1

  datatype User = User(name: string, hash: int)
  datatype Chat = Chat(name: string, owner: nat)
  datatype Message = Message(chat: nat, sender: nat, text: string)

  datatype Update =
    | MessageSent(m: Message)
    | ChatRenamed(chat: nat)
    | UserKicked(chat: nat, target: nat)
    | UserBanned(chat: nat, target: nat)
    | UserUnbanned(chat: nat, target: nat)

  datatype State = State(
    users: map<nat, User>,
    chats: map<nat, Chat>,
    members: set<(nat, nat)>,           // Users_has_Chats, as (chat, user)
    bans: set<(nat, nat)>,              // Chats_has_BannedUsers, as (chat, user)
    direct: map<nat, (nat, nat)>,       // DirectChats, as chat to ordered pair
    messages: seq<Message>,
    sockets: map<nat, nat>,             // live connections and their socket handles
    clients: map<nat, nat>,             // ClientUsers
    updates: map<nat, seq<Update>>      // UpdatesCache
  )

  // ----- requests -----

  datatype ChatQuery =
    | AtUser(name: string) | DollarUser(id: nat) | HashChat(id: nat) | NamedChat(name: string)
    | BadNumber

  datatype Target = NoTarget | AtName(name: string) | DollarId(id: nat) | BadId | Unknown

  datatype Command = Kick(target: Target) | Ban(target: Target) | Unban(target: Target) | Rename(name: string)

  datatype Body =
    | Register(name: string, hash: int)
    | Login(name: string, hash: int)
    | GetUpdates(drop: bool)
    | GetChatInfo(query: ChatQuery)
    | GetChatHistory(chat: nat)
    | GetChatMembers(chat: nat)
    | GetChatList
    | SpawnGroupChat(name: string)
    | JoinGroupChat(query: ChatQuery)
    | CommitMessage(chat: nat, text: string, command: Option<Command>)
    | Unsupported

  datatype Request = Request(tokenOk: bool, body: Body)

  // ----- invariant -----

  ghost predicate Distinct(m: map<nat, nat>) {
    forall t, u :: t in m && u in m && m[t] == m[u] ==> t == u
  }

  /** The foreign keys and UNIQUE columns of the schema. */
  ghost predicate ChatRefs(users: map<nat, User>, chats: map<nat, Chat>) {
    SYSTEM in users && 0 !in users && forall c :: c in chats ==> chats[c].owner in users
  }

  ghost predicate MemberRefs(users: map<nat, User>, chats: map<nat, Chat>, members: set<(nat, nat)>) {
    forall p :: p in members ==> p.0 in chats && p.1 in users
  }

  ghost predicate BanRefs(users: map<nat, User>, chats: map<nat, Chat>, bans: set<(nat, nat)>) {
    forall p :: p in bans ==> p.0 in chats && p.1 in users && chats[p.0].owner != SYSTEM
  }

  ghost predicate ClientRefs(users: map<nat, User>, sockets: map<nat, nat>, clients: map<nat, nat>) {
    forall t :: t in clients ==> clients[t] in users && t in sockets
  }

  ghost predicate NamesUnique(users: map<nat, User>) {
    forall u, v :: u in users && v in users && users[u].name == users[v].name ==> u == v
  }

  /** Each group chat's owner is a member. */
  ghost predicate OwnersStay(chats: map<nat, Chat>, members: set<(nat, nat)>) {
    forall c :: c in chats && chats[c].owner != SYSTEM ==> (c, chats[c].owner) in members
  }

  /** Nobody is both member and banned. */
  ghost predicate NoBannedMember(members: set<(nat, nat)>, bans: set<(nat, nat)>) {
    forall p :: p in members ==> p !in bans
  }

  /** A direct chat has exactly its two users and SYSTEM as members. */
  ghost predicate DirectMembers(chats: map<nat, Chat>, members: set<(nat, nat)>, direct: map<nat, (nat, nat)>) {
    forall c :: c in direct ==> c in chats && chats[c].owner == SYSTEM && PairIn(members, c, direct[c])
  }

  ghost predicate PairIn(members: set<(nat, nat)>, c: nat, pair: (nat, nat)) {
    && pair.0 < pair.1 && pair.0 != SYSTEM && pair.1 != SYSTEM
    && forall u :: (c, u) in members <==> u == pair.0 || u == pair.1 || u == SYSTEM
  }

  /** One direct chat for each unordered pair. */
  ghost predicate DirectUnique(direct: map<nat, (nat, nat)>) {
    forall c, d :: c in direct && d in direct && direct[c] == direct[d] ==> c == d
  }

  ghost predicate Inv(s: State) {
    && ChatRefs(s.users, s.chats) && MemberRefs(s.users, s.chats, s.members) && BanRefs(s.users, s.chats, s.bans)
    && ClientRefs(s.users, s.sockets, s.clients) && NamesUnique(s.users)
    && OwnersStay(s.chats, s.members) && NoBannedMember(s.members, s.bans)
    && DirectMembers(s.chats, s.members, s.direct) && DirectUnique(s.direct)
    && Distinct(s.sockets) && Distinct(s.clients)
  }

  // ----- what a request may change -----

  /** The user a connection is logged in as. */
  ghost function Actor(s: State, t: nat): Option<nat> {
    if t in s.clients then Some(s.clients[t]) else None
  }

  /** The owner of group chat 'c' is the one who acts. */
  ghost predicate OwnerActs(s: State, t: nat, c: nat) {
    c in s.chats && s.chats[c].owner != SYSTEM && Actor(s, t) == Some(s.chats[c].owner)
  }

  ghost predicate UsersPersist(s: State, users: map<nat, User>) {
    forall u :: u in s.users ==> u in users && users[u] == s.users[u]
  }

  ghost predicate ChatsPersist(s: State, chats: map<nat, Chat>, t: nat) {
    forall c :: c in s.chats ==>
      c in chats && chats[c].owner == s.chats[c].owner && (chats[c].name == s.chats[c].name || OwnerActs(s, t, c))
  }

  ghost predicate DirectPersists(s: State, direct: map<nat, (nat, nat)>) {
    forall c :: c in s.direct ==> c in direct && direct[c] == s.direct[c]
  }

  /** Members leave a chat only by its owner's command, and join it only themselves, unbanned. */
  ghost predicate MembersPermitted(s: State, members: set<(nat, nat)>, t: nat) {
    && (forall p :: p in s.members && p !in members ==> OwnerActs(s, t, p.0) && p.1 != s.chats[p.0].owner)
    && (forall p :: p in members && p !in s.members && p.0 in s.chats ==>
          Actor(s, t) == Some(p.1) && p !in s.bans && s.chats[p.0].owner != SYSTEM)
  }

  /** Bans change only by the owner's command. */
  ghost predicate BansPermitted(s: State, bans: set<(nat, nat)>, t: nat) {
    && (forall p :: p in s.bans && p !in bans ==> OwnerActs(s, t, p.0))
    && (forall p :: p in bans && p !in s.bans ==> OwnerActs(s, t, p.0))
  }

  /** Messages are only added, by members or by SYSTEM on behalf of the owner. */
  ghost predicate MessagesPermitted(s: State, messages: seq<Message>, t: nat) {
    && |s.messages| <= |messages| && messages[..|s.messages|] == s.messages
    && forall i :: |s.messages| <= i < |messages| ==> MessagePermitted(s, t, messages[i])
  }

  ghost predicate MessagePermitted(s: State, t: nat, m: Message) {
    || (Actor(s, t) == Some(m.sender) && (m.chat, m.sender) in s.members)
    || (m.sender == SYSTEM && OwnerActs(s, t, m.chat))
  }

  /** No other connection is logged in or out, and this one only by asking for it. */
  ghost predicate SessionsPermitted(s: State, sockets: map<nat, nat>, clients: map<nat, nat>, t: nat, b: Body) {
    && sockets == s.sockets
    && (b.Register? || b.Login? || clients == s.clients)
    && forall x :: x != t ==> (x in clients <==> x in s.clients) && (x in s.clients ==> clients[x] == s.clients[x])
  }

  ghost function Queue(updates: map<nat, seq<Update>>, u: nat): seq<Update> {
    if u in updates then updates[u] else []
  }

  /** Queues only grow, except the actor's own when it asks for updates. */
  ghost predicate QueuesPermitted(s: State, updates: map<nat, seq<Update>>, t: nat, b: Body) {
    forall u: nat :: (Actor(s, t) == Some(u) && b.GetUpdates?) || IsPrefix(Queue(s.updates, u), Queue(updates, u))
  }

  ghost predicate IsPrefix(a: seq<Update>, b: seq<Update>) {
    |a| <= |b| && b[..|a|] == a
  }

  /** From 's' to 's2', nothing changed but what the request of connection 't' allows. */
  ghost predicate Permitted(s: State, s2: State, t: nat, b: Body) {
    && UsersPersist(s, s2.users) && ChatsPersist(s, s2.chats, t) && DirectPersists(s, s2.direct)
    && MembersPermitted(s, s2.members, t) && BansPermitted(s, s2.bans, t) && MessagesPermitted(s, s2.messages, t)
    && SessionsPermitted(s, s2.sockets, s2.clients, t, b) && QueuesPermitted(s, s2.updates, t, b)
  }

  ghost predicate Keeps(s0: State, s: State, t: nat, b: Body) {
    Inv(s) && Permitted(s0, s, t, b)
  }

  lemma PermittedSelf(s: State, t: nat, b: Body)
    ensures Permitted(s, s, t, b)
  {
  }

  // ----- the changes that requests make -----

  lemma NewUser(s0: State, s: State, t: nat, b: Body, id: nat, u: User)
    requires Keeps(s0, s, t, b) && id != 0 && id !in s.users && forall x :: x in s.users ==> s.users[x].name != u.name
    ensures Keeps(s0, s.(users := s.users[id := u]), t, b)
  {
    hide MembersPermitted, BansPermitted, MessagesPermitted, SessionsPermitted, QueuesPermitted, DirectMembers, DirectUnique, OwnersStay;
  }

  lemma NewChat(s0: State, s: State, t: nat, b: Body, c: nat, chat: Chat)
    requires Keeps(s0, s, t, b) && c !in s.chats && chat.owner in s.users
    ensures Keeps(s0, s.(chats := s.chats[c := chat], members := s.members + {(c, chat.owner)}), t, b)
  {
    hide BansPermitted, MessagesPermitted, SessionsPermitted, QueuesPermitted, DirectUnique, UsersPersist, DirectPersists;
    NewChatMembers(s, c, chat);
  }

  lemma NewChatMembers(s: State, c: nat, chat: Chat)
    requires DirectMembers(s.chats, s.members, s.direct) && c !in s.chats
    ensures DirectMembers(s.chats[c := chat], s.members + {(c, chat.owner)}, s.direct)
  {
    forall d | d in s.direct
      ensures PairIn(s.members + {(c, chat.owner)}, d, s.direct[d])
    {
      assert PairIn(s.members, d, s.direct[d]);
    }
  }

  /** The second half of 'createDirectChat', on a fresh chat whose only member is SYSTEM. */
  lemma NewPair(s0: State, s: State, t: nat, b: Body, c: nat, x: nat, y: nat)
    requires Keeps(s0, s, t, b) && c in s.chats && c !in s0.chats && s.chats[c].owner == SYSTEM && c !in s.direct
    requires x < y && x != SYSTEM && y != SYSTEM && x in s.users && y in s.users
    requires (forall u :: (c, u) in s.members <==> u == SYSTEM) && (forall d :: d in s.direct ==> s.direct[d] != (x, y))
    ensures Keeps(s0, s.(members := s.members + {(c, x), (c, y)}, direct := s.direct[c := (x, y)]), t, b)
  {
    hide BansPermitted, MessagesPermitted, SessionsPermitted, QueuesPermitted, UsersPersist, ChatsPersist;
    hide DirectMembers, NamesUnique, ClientRefs, ChatRefs, BanRefs, OwnerActs, Distinct;
    NewPairMembers(s, c, x, y);
    NoBansIn(s, c);
  }

  lemma NoBansIn(s: State, c: nat)
    requires BanRefs(s.users, s.chats, s.bans) && c in s.chats && s.chats[c].owner == SYSTEM
    ensures forall u :: (c, u) !in s.bans
  {
    forall u: nat
      ensures (c, u) !in s.bans
    {
      var p := (c, u);
      assert p in s.bans ==> p.0 == c;
    }
  }

  lemma NewPairMembers(s: State, c: nat, x: nat, y: nat)
    requires DirectMembers(s.chats, s.members, s.direct) && c in s.chats && s.chats[c].owner == SYSTEM && c !in s.direct
    requires x < y && x != SYSTEM && y != SYSTEM && forall u :: (c, u) in s.members <==> u == SYSTEM
    ensures DirectMembers(s.chats, s.members + {(c, x), (c, y)}, s.direct[c := (x, y)])
  {
    var members, direct := s.members + {(c, x), (c, y)}, s.direct[c := (x, y)];
    forall d | d in direct
      ensures PairIn(members, d, direct[d])
    {
      if d != c {
        assert PairIn(s.members, d, s.direct[d]);
      }
    }
  }

  lemma MemberJoins(s0: State, s: State, t: nat, b: Body, c: nat, u: nat)
    requires Keeps(s0, s, t, b) && c in s0.chats && c in s.chats && s.chats[c].owner != SYSTEM && u in s.users
    requires Actor(s0, t) == Some(u) && (c, u) !in s.bans && (c, u) !in s0.bans
    ensures Keeps(s0, s.(members := s.members + {(c, u)}), t, b)
  {
    hide BansPermitted, MessagesPermitted, SessionsPermitted, QueuesPermitted, UsersPersist, DirectUnique;
    hide DirectMembers, NamesUnique, ClientRefs, ChatRefs, BanRefs, OwnerActs, Distinct, DirectPersists;
    assert c in s0.chats ==> s.chats[c].owner == s0.chats[c].owner;
    hide ChatsPersist;
    OtherMembers(s, c, s.members + {(c, u)});
  }

  /** A change of members in a group chat does not reach direct chats. */
  lemma OtherMembers(s: State, c: nat, members: set<(nat, nat)>)
    requires DirectMembers(s.chats, s.members, s.direct) && c in s.chats && s.chats[c].owner != SYSTEM
    requires forall p: (nat, nat) :: p.0 != c ==> (p in members <==> p in s.members)
    ensures DirectMembers(s.chats, members, s.direct)
  {
    forall d | d in s.direct
      ensures PairIn(members, d, s.direct[d])
    {
      assert PairIn(s.members, d, s.direct[d]);
    }
  }

  lemma MemberLeaves(s0: State, s: State, t: nat, b: Body, c: nat, u: nat)
    requires Keeps(s0, s, t, b) && OwnerActs(s0, t, c) && u != s0.chats[c].owner
    ensures Keeps(s0, s.(members := s.members - {(c, u)}), t, b)
  {
    hide BansPermitted, MessagesPermitted, SessionsPermitted, QueuesPermitted, UsersPersist, DirectUnique;
    OtherMembers(s, c, s.members - {(c, u)});
  }

  lemma MemberBanned(s0: State, s: State, t: nat, b: Body, c: nat, u: nat)
    requires Keeps(s0, s, t, b) && OwnerActs(s0, t, c) && u != s0.chats[c].owner && u in s.users
    ensures Keeps(s0, s.(members := s.members - {(c, u)}, bans := s.bans + {(c, u)}), t, b)
  {
    hide NamesUnique, ClientRefs, ChatRefs, Distinct, DirectPersists, MemberRefs, OwnersStay;
    hide MembersPermitted, MessagesPermitted, SessionsPermitted, QueuesPermitted, UsersPersist, DirectUnique, DirectMembers;
    MemberLeaves(s0, s, t, b, c, u);
  }

  lemma MemberUnbanned(s0: State, s: State, t: nat, b: Body, c: nat, u: nat)
    requires Keeps(s0, s, t, b) && OwnerActs(s0, t, c)
    ensures Keeps(s0, s.(bans := s.bans - {(c, u)}), t, b)
  {
    hide MembersPermitted, MessagesPermitted, SessionsPermitted, QueuesPermitted, UsersPersist, DirectUnique, DirectMembers;
  }

  lemma ChatRenames(s0: State, s: State, t: nat, b: Body, c: nat, name: string)
    requires Keeps(s0, s, t, b) && OwnerActs(s0, t, c)
    ensures c in s.chats && Keeps(s0, s.(chats := s.chats[c := s.chats[c].(name := name)]), t, b)
  {
    hide BansPermitted, MembersPermitted, MessagesPermitted, SessionsPermitted, QueuesPermitted, UsersPersist, DirectUnique, PairIn;
    hide DirectPersists, Distinct, NamesUnique, ClientRefs, NoBannedMember;
  }

  lemma MessageAdded(s0: State, s: State, t: nat, b: Body, m: Message)
    requires Keeps(s0, s, t, b) && MessagePermitted(s0, t, m)
    ensures Keeps(s0, s.(messages := s.messages + [m]), t, b)
  {
    hide Inv, BansPermitted, MembersPermitted, SessionsPermitted, QueuesPermitted, UsersPersist;
    InvIgnores(s, s.(messages := s.messages + [m]));
  }

  /** Messages and queues are outside the invariant. */
  lemma InvIgnores(s: State, s2: State)
    requires Inv(s) && s2 == s.(messages := s2.messages, updates := s2.updates)
    ensures Inv(s2)
  {
  }

  lemma UpdatePushed(s0: State, s: State, t: nat, b: Body, u: nat, upd: Update)
    requires Keeps(s0, s, t, b)
    ensures Keeps(s0, s.(updates := s.updates[u := Queue(s.updates, u) + [upd]]), t, b)
  {
    hide Inv, BansPermitted, MembersPermitted, SessionsPermitted, MessagesPermitted, UsersPersist;
    var s2 := s.(updates := s.updates[u := Queue(s.updates, u) + [upd]]);
    InvIgnores(s, s2);
    forall v: nat
      ensures (Actor(s0, t) == Some(v) && b.GetUpdates?) || IsPrefix(Queue(s0.updates, v), Queue(s2.updates, v))
    {
      assert (Actor(s0, t) == Some(v) && b.GetUpdates?) || IsPrefix(Queue(s0.updates, v), Queue(s.updates, v));
    }
  }

  lemma QueueCleared(s0: State, s: State, t: nat, b: Body, u: nat)
    requires Keeps(s0, s, t, b) && Actor(s0, t) == Some(u) && b.GetUpdates?
    ensures Keeps(s0, s.(updates := s.updates[u := []]), t, b)
  {
    hide Inv, BansPermitted, MembersPermitted, SessionsPermitted, MessagesPermitted, UsersPersist, IsPrefix;
    InvIgnores(s, s.(updates := s.updates[u := []]));
  }

  lemma LoggedIn(s0: State, s: State, t: nat, b: Body, u: nat)
    requires Keeps(s0, s, t, b) && (b.Register? || b.Login?)
    requires t in s.sockets && u in s.users && forall x :: x in s.clients && s.clients[x] == u ==> x == t
    ensures Keeps(s0, s.(clients := s.clients[t := u]), t, b)
  {
    hide BansPermitted, MembersPermitted, QueuesPermitted, MessagesPermitted, UsersPersist, DirectMembers, OwnersStay, NamesUnique;
  }

  lemma LoggedOut(s0: State, s: State, t: nat, b: Body)
    requires Keeps(s0, s, t, b) && b.Login?
    ensures Keeps(s0, s.(clients := s.clients - {t}), t, b)
  {
    hide BansPermitted, MembersPermitted, QueuesPermitted, MessagesPermitted, UsersPersist, DirectMembers, OwnersStay, NamesUnique;
  }
}
