/** The server at work: database operations, slash commands and 'processRequest'. */
module Server {
  import opened Options
  import opened ServerModel

  /** How a request is answered: granted, refused, cut short by an answer that did not get
      through, or not answered because an exception escaped. */
  datatype Reply = Ok(content: Content) | Error | NoAnswer | Escaped

  /** What an answer carries; lists are those handed to the countdown. */
  datatype Content =
    | Done
    | ChatIs(chat: nat, direct: bool)
    | Pending(updates: seq<Update>)
    | History(messages: seq<Message>)
    | People(users: seq<nat>)
    | Chats(lines: seq<Line>)

  /** One chat in the list of chats. */
  datatype Line = Line(id: nat, name: string, direct: bool)

  /** The result of a chat query, with the owner field of the record it returns. */
  datatype Found = NotFound | Failed | Threw | FoundChat(id: nat, owner: nat)

  predicate ReadsOnly(b: Body) {
    b.GetChatHistory? || b.GetChatMembers? || b.GetChatList? || b.Unsupported?
  }

  ghost function Spawned(s: State, c: nat, name: string, owner: nat): State {
    s.(chats := s.chats[c := Chat(name, owner)], members := s.members + {(c, owner)})
  }

  ghost predicate Joined(s: State, s2: State, c: nat, u: nat) {
    c in s.chats && (c, u) !in s.bans && s2 == s.(members := s.members + {(c, u)})
  }

  ghost predicate Extends(before: seq<Message>, after: seq<Message>) {
    |before| <= |after| && after[..|before|] == before
  }

  lemma DeliverOne(before: map<nat, seq<Update>>, mid: map<nat, seq<Update>>, after: map<nat, seq<Update>>,
                   done: set<nat>, u: nat, upd: Update)
    requires Delivered(before, mid, done, upd) && u !in done && after == mid[u := Queue(mid, u) + [upd]]
    ensures Delivered(before, after, done + {u}, upd)
  {
  }

  lemma NothingDelivered(q: map<nat, seq<Update>>, upd: Update)
    ensures Delivered(q, q, {}, upd)
  {
  }

  /** 'done' are the users served so far, 'todo' those to come. */
  ghost predicate Shares(users: set<nat>, except: nat, todo: set<nat>, done: set<nat>) {
    todo <= users && done == users - todo - {except}
  }

  lemma SharesNext(users: set<nat>, except: nat, todo: set<nat>, done: set<nat>, u: nat)
    requires Shares(users, except, todo, done) && u in todo
    ensures u !in done && Shares(users, except, todo - {u}, if u == except then done else done + {u})
    ensures |todo - {u}| < |todo|
  {
  }

  lemma AllShared(users: set<nat>, except: nat, done: set<nat>)
    requires Shares(users, except, {}, done)
    ensures done == users - {except}
  {
  }

  /** Exactly the queues of 'to' got one more update, at their end. */
  ghost predicate Delivered(before: map<nat, seq<Update>>, after: map<nat, seq<Update>>, to: set<nat>, upd: Update) {
    forall v: nat :: Queue(after, v) == Queue(before, v) + (if v in to then [upd] else [])
  }

  function MemberIds(members: set<(nat, nat)>, c: nat): (m: set<nat>)
    ensures forall u: nat :: u in m <==> (c, u) in members
  {
    var m := set p | p in members && p.0 == c :: p.1;
    assert forall u: nat :: (c, u) in members ==> (c, u).1 in m;
    m
  }

  /** Equal up to messages and pending updates. */
  ghost predicate SameBut(s: State, s2: State) {
    s2 == s.(messages := s2.messages, updates := s2.updates)
  }

  ghost function Renamed(s: State, c: nat, name: string): State
    requires c in s.chats
  {
    s.(chats := s.chats[c := s.chats[c].(name := name)])
  }

  /** Token 'target' of a command stands for user 'u'. */
  ghost predicate Resolves(s: State, target: Target, u: nat) {
    u in s.users && (target == DollarId(u) || target == AtName(s.users[u].name))
  }

  /** SYSTEM has written 'text' in chat 'c', and, if the answer gets through, everyone in 'to'
      but 'u' is told of it. */
  ghost predicate Announced(s: State, s2: State, c: nat, u: nat, text: string, upd: Update, to: set<nat>, through: nat) {
    && s2 == s.(messages := s.messages + [Message(c, SYSTEM, text)], updates := s2.updates)
    && if through > 0 then Delivered(s.updates, s2.updates, to - {u}, upd) else s2.updates == s.updates
  }

  /** What a slash command of owner 'u' changes, writes and tells. */
  ghost predicate CommandDone(s: State, s2: State, c: nat, u: nat, cmd: Command, through: nat) {
    var m := MemberIds(s.members, c);
    match cmd
    case Rename(name) =>
      && name != "" && c in s.chats
      && Announced(Renamed(s, c, name), s2, c, u, "имя чата изменено на \"" + name + "\"", ChatRenamed(c), m, through)
    case Kick(target) =>
      exists v: nat :: Resolves(s, target, v) && (c, v) in s.members
        && Announced(s.(members := s.members - {(c, v)}), s2, c, u, s.users[v].name + " исключен из чата", UserKicked(c, v), m, through)
    case Ban(target) =>
      exists v: nat :: Resolves(s, target, v)
        && Announced(s.(members := s.members - {(c, v)}, bans := s.bans + {(c, v)}), s2, c, u,
                     s.users[v].name + " забанен", UserBanned(c, v), m + {v}, through)
    case Unban(target) =>
      exists v: nat :: Resolves(s, target, v) && (c, v) in s.bans
        && Announced(s.(bans := s.bans - {(c, v)}), s2, c, u, s.users[v].name + " разбанен", UserUnbanned(c, v), m + {v}, through)
  }

  /** User 'u' has sent a message to chat 'c', and everyone else in it is told of it. */
  ghost predicate Said(s: State, s2: State, c: nat, u: nat, text: string) {
    var m := Message(c, u, text);
    && s2 == s.(messages := s.messages + [m], updates := s2.updates)
    && Delivered(s.updates, s2.updates, MemberIds(s.members, c) - {u}, MessageSent(m))
  }

  /** What a member's message has done. */
  ghost predicate CommitDone(s: State, s2: State, c: nat, u: nat, text: string, cmd: Option<Command>, through: nat) {
    if through == 0 then s2 == s.(messages := s.messages + [Message(c, u, text)])
    else if Commanded(s, c, u, cmd, through) then
      exists mid: State :: Said(s, mid, c, u, text) && CommandDone(mid, s2, c, u, cmd.value, through - 1)
    else Said(s, s2, c, u, text)
  }

  /** The owner's command is one that can be carried out. */
  ghost predicate CommandAllowed(s: State, c: nat, owner: nat, cmd: Command) {
    owner != SYSTEM &&
    match cmd
    case Rename(name) => name != ""
    case Kick(target) => exists v: nat :: Resolves(s, target, v) && v != SYSTEM && v != owner && (c, v) in s.members
    case Ban(target) => exists v: nat :: Resolves(s, target, v) && v != SYSTEM && v != owner
    case Unban(target) => exists v: nat :: Resolves(s, target, v) && v != SYSTEM && (c, v) in s.bans
  }

  /** A member's message contains a command that is carried out once the message is answered. */
  ghost predicate Commanded(s: State, c: nat, u: nat, cmd: Option<Command>, through: nat) {
    && c in s.chats && (c, u) in s.members && cmd.Some? && through > 0
    && s.chats[c].owner == u && CommandAllowed(s, c, u, cmd.value)
  }

  /** The outcome of a request that is granted and has 'through' answers left. */
  function Granted(through: nat): Reply {
    if through > 0 then Ok(Done) else NoAnswer
  }

  /** The outcome of a member's message: it is answered, and so is its command. */
  ghost function CommitReply(s: State, c: nat, u: nat, cmd: Option<Command>, through: nat): Reply {
    if through == 0 then NoAnswer
    else if cmd.None? then Ok(Done)
    else if Commanded(s, c, u, cmd, through) then Granted(through - 1)
    else Error
  }

  /** Some account that no other connection uses has this name and hash. */
  ghost predicate MayUse(s: State, t: nat, user: User) {
    exists x :: x in s.users && s.users[x] == user && !InUse(s, t, x)
  }

  lemma AllowedSame(s: State, s1: State, c: nat, owner: nat, cmd: Command)
    requires SameBut(s, s1)
    ensures CommandAllowed(s1, c, owner, cmd) <==> CommandAllowed(s, c, owner, cmd)
  {
    assert forall target, v :: Resolves(s1, target, v) <==> Resolves(s, target, v);
  }

  ghost predicate NameTaken(s: State, name: string) {
    exists x :: x in s.users && s.users[x].name == name
  }

  /** Another connection is logged in as user 'u'. */
  ghost predicate InUse(s: State, t: nat, u: nat) {
    exists y :: y in s.clients && y != t && s.clients[y] == u
  }

  ghost predicate LoggedInAs(s: State, t: nat, user: User) {
    t in s.clients && s.clients[t] in s.users && s.users[s.clients[t]] == user
  }

  /** What a request with a valid token has achieved by the time it is answered, or refused. */
  ghost predicate Achieved(s: State, s2: State, t: nat, b: Body, through: nat, r: Reply) {
    match b
    case Register(name, hash) =>
      && r == (if NameTaken(s, name) then Error else Granted(through))
      && (if r.Ok? then LoggedInAs(s2, t, User(name, hash)) && s2.clients[t] !in s.users else s2.clients == s.clients)
      && (r == Error ==> s2 == s)
    case Login(name, hash) =>
      && s2 == s.(clients := s2.clients) && (!r.Ok? ==> s2 == s)
      && (r.Ok? ==> if name == "" then t !in s2.clients else LoggedInAs(s2, t, User(name, hash)))
      && r == (if name == "" then Ok(Done) else if MayUse(s, t, User(name, hash)) then Granted(through) else Error)
    case _ => if t in s.clients then AchievedBy(s, s2, s.clients[t], b, through, r) else s2 == s && r == Error
  }

  ghost predicate AchievedBy(s: State, s2: State, u: nat, b: Body, through: nat, r: Reply) {
    match b
    case GetUpdates(drop) =>
      && s2 == s.(updates := s2.updates) && (drop || r.Ok? ==> Queue(s2.updates, u) == [])
      && (!drop && !r.Ok? ==> s2 == s)
      && r == (if !drop && through >= 1 && through >= |Queue(s.updates, u)| then Ok(Pending(Queue(s.updates, u))) else NoAnswer)
      && forall v: nat :: v != u ==> Queue(s2.updates, v) == Queue(s.updates, v)
    case GetChatInfo(q) => exists f :: QueryFound(s, s2, u, q, f) && r == InfoReply(f)
    case GetChatHistory(c) =>
      s2 == s && if c !in s.chats then r == Error else exists list :: IsHistory(list, s.messages, c) && r == Listed(History(list), |list|, through)
    case GetChatMembers(c) =>
      && s2 == s
      && if c !in s.chats || (c, u) !in s.members then r == Error
         else exists list :: ListsMembers(list, s, c) && r == Listed(People(list), |list|, through)
    case GetChatList => s2 == s && exists list :: ListsChats(list, s, u) && r == Listed(Chats(list), |list|, through)
    case SpawnGroupChat(name) =>
      if name == "" || NamesChat(s, name) then r == Error && s2 == s
      else exists c :: c !in s.chats && s2 == Spawned(s, c, name, u) && r == Ok(ChatIs(c, false))
    case JoinGroupChat(q) => JoinDone(s, s2, u, q, r)
    case CommitMessage(c, text, cmd) =>
      if (c, u) in s.members && c in s.chats then
        r == CommitReply(s, c, u, cmd, through) && CommitDone(s, s2, c, u, text, cmd, through)
      else r == Error && s2 == s
    case _ => r == Error && s2 == s
  }

  // ----- lists -----

  /** A list of 'n' entries has been sent: one answer for each of them, or one for an empty list. */
  ghost function Listed(content: Content, n: nat, through: nat): Reply {
    if through >= 1 && through >= n then Ok(content) else NoAnswer
  }

  /** 'at' are the places of the messages of chat 'c'. */
  ghost predicate Places(at: seq<nat>, messages: seq<Message>, c: nat) {
    && (forall i :: 0 <= i < |at| ==> at[i] < |messages| && messages[at[i]].chat == c)
    && (forall i, j :: 0 <= i < j < |at| ==> at[i] < at[j])
    && (forall k: nat :: k < |messages| && messages[k].chat == c ==> k in at)
  }

  /** All messages of chat 'c', in the order in which they were sent. */
  ghost predicate IsHistory(list: seq<Message>, messages: seq<Message>, c: nat) {
    exists at :: Places(at, messages, c) && PickedFrom(list, messages, at)
  }

  ghost predicate PickedFrom(list: seq<Message>, messages: seq<Message>, at: seq<nat>) {
    |list| == |at| && forall i :: 0 <= i < |at| ==> at[i] < |messages| && list[i] == messages[at[i]]
  }

  ghost predicate NoDuplicates<T>(list: seq<T>) {
    forall i, j :: 0 <= i < j < |list| ==> list[i] != list[j]
  }

  /** All members of chat 'c' but SYSTEM, each once. */
  ghost predicate ListsMembers(list: seq<nat>, s: State, c: nat) {
    NoDuplicates(list) && forall v :: v in list <==> (c, v) in s.members && v != SYSTEM
  }

  /** The entry of a chat of user 'u': direct chats bear the name of the other user. */
  ghost predicate ListsChat(e: Line, s: State, u: nat) {
    && (e.id, u) in s.members && e.id in s.chats && (e.direct <==> s.chats[e.id].owner == SYSTEM)
    && (forall v :: v in s.users && e.id in s.direct && s.direct[e.id] == Backend.Ordered(u, v) ==> e.name == s.users[v].name)
    && ((forall v :: v in s.users && e.id in s.direct ==> s.direct[e.id] != Backend.Ordered(u, v)) ==> e.name == s.chats[e.id].name)
  }

  /** All chats of user 'u', each once. */
  ghost predicate ListsChats(list: seq<Line>, s: State, u: nat) {
    && (forall i :: 0 <= i < |list| ==> ListsChat(list[i], s, u))
    && (forall i, j :: 0 <= i < j < |list| ==> list[i].id != list[j].id)
    && (forall c :: c in s.chats && (c, u) in s.members ==> exists i :: 0 <= i < |list| && list[i].id == c)
  }

  lemma OneMorePlace(at: seq<nat>, messages: seq<Message>, i: nat, c: nat)
    requires i < |messages| && Places(at, messages[..i], c)
    ensures Places(if messages[i].chat == c then at + [i] else at, messages[..i + 1], c)
  {
    var at2 := if messages[i].chat == c then at + [i] else at;
    assert messages[..i + 1][..i] == messages[..i];
    forall k: nat | k < i + 1 && messages[..i + 1][k].chat == c
      ensures k in at2
    {
      if k < i {
        assert messages[..i][k].chat == c;
      } else {
        assert at2[|at|] == i;
      }
    }
  }

  /** The rows of a query without an order. */
  method InSomeOrder(items: set<nat>) returns (list: seq<nat>)
    ensures NoDuplicates(list) && forall v :: v in list <==> v in items
  {
    var todo := items;
    list := [];
    while todo != {}
      invariant todo <= items && NoDuplicates(list) && forall v :: v in list <==> v in items && v !in todo
      decreases |todo|
    {
      var v :| v in todo;
      todo := todo - {v};
      list := list + [v];
    }
  }

  // ----- what queries find -----

  ghost predicate NamesChat(s: State, name: string) {
    exists c :: c in s.chats && s.chats[c].name == name
  }

  /** A new chat 'c' of SYSTEM. */
  ghost function DirectRow(s: State, c: nat, x: User, y: User): State {
    Spawned(s, c, "direct_chat_" + x.name + "_and_" + y.name, SYSTEM)
  }

  /** The answer about the direct chat of two users: found without an owner, or created; a user
      has no direct chat with itself or SYSTEM, but the attempt leaves a chat behind. */
  ghost predicate DirectFound(s: State, s2: State, x: nat, y: nat, f: Found) {
    if HasDirect(s, x, y) then
      s2 == s && f.FoundChat? && f.owner == 0 && f.id in s.direct && s.direct[f.id] == Backend.Ordered(x, y)
    else if x == y || x == SYSTEM || y == SYSTEM then
      f == Failed && exists c :: c !in s.chats && x in s.users && y in s.users && s2 == DirectRow(s, c, s.users[x], s.users[y])
    else
      && f.FoundChat? && f.owner == SYSTEM && f.id !in s.chats && x in s.users && y in s.users
      && var s1 := DirectRow(s, f.id, s.users[x], s.users[y]);
         s2 == s1.(members := s1.members + {(f.id, x), (f.id, y)}, direct := s.direct[f.id := Backend.Ordered(x, y)])
  }

  ghost predicate HasDirect(s: State, x: nat, y: nat) {
    exists d :: d in s.direct && s.direct[d] == Backend.Ordered(x, y)
  }

  ghost function GroupFound(s: State, c: nat): Found {
    if c in s.chats && s.chats[c].owner != SYSTEM then FoundChat(c, s.chats[c].owner) else NotFound
  }

  /** What each kind of query finds. */
  ghost predicate QueryFound(s: State, s2: State, u: nat, q: ChatQuery, f: Found) {
    match q
    case AtUser(name) =>
      && (forall id :: id in s.users && s.users[id].name == name ==> DirectFound(s, s2, u, id, f))
      && ((forall id :: id in s.users ==> s.users[id].name != name) ==> f == NotFound && s2 == s)
    case DollarUser(id) => if id in s.users then DirectFound(s, s2, u, id, f) else f == NotFound && s2 == s
    case HashChat(id) => s2 == s && f == GroupFound(s, id)
    case NamedChat(name) =>
      && s2 == s
      && ((exists c :: c in s.chats && s.chats[c].name == name && f == GroupFound(s, c))
          || ((forall c :: c in s.chats ==> s.chats[c].name != name) && f == NotFound))
    case BadNumber => s2 == s && f == Threw
  }

  ghost function InfoReply(f: Found): Reply {
    match f
    case FoundChat(c, owner) => Ok(ChatIs(c, owner == SYSTEM))
    case Threw => Escaped
    case _ => Error
  }

  lemma InfoFacts(s: State, s2: State, u: nat, q: ChatQuery, f: Found)
    requires QueryFound(s, s2, u, q, f) && forall c :: c in s.direct ==> c in s.chats
    ensures f.FoundChat? ==> (f.owner == SYSTEM <==> f.id in s2.direct && f.id !in s.chats)
    ensures forall id :: Names(s, q, id) && u != id && u != SYSTEM && id != SYSTEM ==>
      && f.FoundChat? && f.id in s2.direct && s2.direct[f.id] == Backend.Ordered(u, id)
      && (f.owner == SYSTEM <==> !HasDirect(s, u, id))
  {
    hide DirectRow, HasDirect;
  }

  /** Only groups are joined, or direct chats that were found without their owner. */
  ghost predicate JoinFound(s: State, s2: State, u: nat, f: Found, r: Reply) {
    match f
    case FoundChat(c, owner) =>
      if owner == SYSTEM || (c, u) in s.bans then r == Error && s2 == s
      else r == Ok(ChatIs(c, false)) && s2 == s.(members := s.members + {(c, u)})
    case Threw => r == Escaped && s2 == s
    case _ => r == Error && s2 == s
  }

  /** The answer to a request to join, and its effect. */
  ghost predicate JoinDone(s: State, s2: State, u: nat, q: ChatQuery, r: Reply) {
    exists f: Found, mid: State :: QueryFound(s, mid, u, q, f) && JoinFound(mid, s2, u, f, r)
  }

  /** Query 'q' names user 'id'. */
  predicate Names(s: State, q: ChatQuery, id: nat) {
    id in s.users && (q == DollarUser(id) || q == AtUser(s.users[id].name))
  }

  /** An empty database: the account SYSTEM alone. */
  const Fresh: State := State(map[SYSTEM := User("SYSTEM", 0)], map[], {}, {}, map[], [], map[], map[], map[])

  class Backend {
    var s: State
    var nextUser: nat    // AUTOINCREMENT of Users and Chats
    var nextChat: nat

    ghost predicate Valid()
      reads this
    {
      && Inv(s)
      && 0 < nextUser && (forall u :: u in s.users ==> u < nextUser)
      && (forall c :: c in s.chats ==> c < nextChat)
    }

    /** Valid, and nothing changed since 's0' but what the request allows. */
    ghost predicate Sound(s0: State, t: nat, b: Body)
      reads this
    {
      && Keeps(s0, s, t, b)
      && 0 < nextUser && (forall u :: u in s.users ==> u < nextUser)
      && (forall c :: c in s.chats ==> c < nextChat)
    }

    constructor ()
      ensures Valid() && s == Fresh
    {
      s := Fresh;
      nextUser, nextChat := 2, 1;
    }

    // ----- connections -----

    /** 'addClientSocket', for a connection whose handle no live connection has. */
    method Accept(t: nat, handle: nat)
      requires Valid() && t !in s.sockets && forall x :: x in s.sockets ==> s.sockets[x] != handle
      modifies this
      ensures Valid() && s == old(s).(sockets := old(s.sockets)[t := handle])
    {
      hide DirectMembers, OwnersStay, NoBannedMember, BanRefs, MemberRefs;
      s := s.(sockets := s.sockets[t := handle]);
    }

    /** 'removeClientSocket' */
    method Disconnect(t: nat)
      requires Valid()
      modifies this
      ensures Valid() && s == old(s).(sockets := old(s.sockets) - {t}, clients := old(s.clients) - {t})
    {
      hide DirectMembers, OwnersStay, NoBannedMember, BanRefs, MemberRefs;
      s := s.(sockets := s.sockets - {t}, clients := s.clients - {t});
    }

    // ----- queries -----

    method FindUserByName(name: string) returns (u: Option<nat>)
      ensures u.Some? ==> u.value in s.users && s.users[u.value].name == name
      ensures u.None? ==> forall x :: x in s.users ==> s.users[x].name != name
    {
      u := None;
      if x :| x in s.users && s.users[x].name == name {
        u := Some(x);
      }
    }

    method FindChatByName(name: string) returns (c: Option<nat>)
      ensures c.Some? ==> c.value in s.chats && s.chats[c.value].name == name
      ensures c.None? ==> forall x :: x in s.chats ==> s.chats[x].name != name
    {
      c := None;
      if x :| x in s.chats && s.chats[x].name == name {
        c := Some(x);
      }
    }

    static function Ordered(a: nat, b: nat): (nat, nat) {
      if a <= b then (a, b) else (b, a)
    }

    /** 'findDirectChat' */
    method FindDirectChat(a: nat, b: nat) returns (c: Option<nat>)
      ensures c.Some? ==> c.value in s.direct && s.direct[c.value] == Ordered(a, b)
      ensures c.None? ==> forall x :: x in s.direct ==> s.direct[x] != Ordered(a, b)
    {
      c := None;
      if x :| x in s.direct && s.direct[x] == Ordered(a, b) {
        c := Some(x);
      }
    }

    predicate IsMember(c: nat, u: nat)
      reads this`s
    {
      (c, u) in s.members
    }

    // ----- updates -----

    /** 'pushUpdateToUser' */
    method Push(u: nat, upd: Update, ghost s0: State, ghost t: nat, ghost b: Body)
      requires Sound(s0, t, b)
      modifies this`s
      ensures Sound(s0, t, b)
      ensures s == old(s).(updates := old(s.updates)[u := Queue(old(s.updates), u) + [upd]])
    {
      hide Keeps;
      UpdatePushed(s0, s, t, b, u, upd);
      s := s.(updates := s.updates[u := (if u in s.updates then s.updates[u] else []) + [upd]]);
    }

    /** Push an update to each of 'users' but one; every such queue gets it exactly once. */
    method PushAll(users: set<nat>, except: nat, upd: Update, ghost s0: State, ghost t: nat, ghost b: Body)
      requires Sound(s0, t, b)
      modifies this`s
      ensures Sound(s0, t, b) && s == old(s).(updates := s.updates)
      ensures Delivered(old(s.updates), s.updates, users - {except}, upd)
    {
      NothingDelivered(s.updates, upd);
      hide Sound, Delivered, Queue;
      var todo := users;
      ghost var done: set<nat> := {};
      while todo != {}
        invariant Sound(s0, t, b) && s == old(s).(updates := s.updates)
        invariant Delivered(old(s.updates), s.updates, done, upd) && Shares(users, except, todo, done)
        decreases |todo|
      {
        var u :| u in todo;
        ghost var mid := s.updates;
        SharesNext(users, except, todo, done, u);
        todo := todo - {u};
        if u != except {
          Push(u, upd, s0, t, b);
          DeliverOne(old(s.updates), mid, s.updates, done, u, upd);
          done := done + {u};
        }
      }
      AllShared(users, except, done);
    }

    method MembersOf(c: nat) returns (m: set<nat>)
      ensures m == MemberIds(s.members, c)
    {
      m := set p | p in s.members && p.0 == c :: p.1;
    }

    // ----- database changes -----

    /** 'createUser' */
    method CreateUser(name: string, hash: int, ghost s0: State, ghost t: nat, ghost b: Body) returns (id: nat)
      requires Sound(s0, t, b) && forall x :: x in s.users ==> s.users[x].name != name
      modifies this
      ensures Sound(s0, t, b) && id !in old(s.users) && s == old(s).(users := old(s.users)[id := User(name, hash)])
    {
      hide Keeps;
      id := nextUser;
      NewUser(s0, s, t, b, id, User(name, hash));
      nextUser := nextUser + 1;
      s := s.(users := s.users[id := User(name, hash)]);
    }

    /** 'createGroupChat' */
    method CreateGroupChat(owner: nat, name: string, ghost s0: State, ghost t: nat, ghost b: Body) returns (c: nat)
      requires Sound(s0, t, b) && owner in s.users
      modifies this
      ensures Sound(s0, t, b) && c !in old(s.chats)
      ensures s == old(s).(chats := old(s.chats)[c := Chat(name, owner)], members := old(s.members) + {(c, owner)})
      ensures c !in s0.chats && c !in s.direct && forall u :: (c, u) in s.members <==> u == owner
    {
      hide Keeps;
      c := nextChat;
      FreshChat(s0, t, b, c);
      NewChat(s0, s, t, b, c, Chat(name, owner));
      nextChat := nextChat + 1;
      s := s.(chats := s.chats[c := Chat(name, owner)], members := s.members + {(c, owner)});
    }

    /** A chat that did not exist has no row in any table. */
    lemma FreshChat(s0: State, t: nat, b: Body, c: nat)
      requires Sound(s0, t, b) && c !in s.chats
      ensures c !in s0.chats && c !in s.direct && forall u :: (c, u) !in s.members
    {
      hide BansPermitted, MembersPermitted, QueuesPermitted, MessagesPermitted, SessionsPermitted;
      forall u: nat
        ensures (c, u) !in s.members
      {
        var p := (c, u);
        assert p in s.members ==> p.0 in s.chats;
      }
    }

    /** 'createDirectChat': the chat row is committed first, so that a pair that breaks a primary
        key leaves a chat with no member but SYSTEM behind. */
    method CreateDirectChat(x: nat, y: nat, ghost s0: State, ghost t: nat, ghost b: Body) returns (c: nat, ok: bool)
      requires Sound(s0, t, b) && x in s.users && y in s.users && SYSTEM in s.users
      requires forall d :: d in s.direct ==> s.direct[d] != Ordered(x, y)
      modifies this
      ensures Sound(s0, t, b) && c !in old(s.chats) && c in s.chats && s.chats[c].owner == SYSTEM
      ensures ok <==> x != y && x != SYSTEM && y != SYSTEM
      ensures var s1 := DirectRow(old(s), c, old(s.users)[x], old(s.users)[y]);
        s == if ok then s1.(members := s1.members + {(c, x), (c, y)}, direct := s1.direct[c := Ordered(x, y)]) else s1
    {
      hide Sound;
      var name := "direct_chat_" + s.users[x].name + "_and_" + s.users[y].name;
      c := CreateGroupChat(SYSTEM, name, s0, t, b);
      ok := x != y && x != SYSTEM && y != SYSTEM;
      if ok {
        AddPair(c, x, y, s0, t, b);
      }
    }

    method AddPair(c: nat, x: nat, y: nat, ghost s0: State, ghost t: nat, ghost b: Body)
      requires Sound(s0, t, b) && c in s.chats && s.chats[c].owner == SYSTEM && x in s.users && y in s.users
      requires x != y && x != SYSTEM && y != SYSTEM && forall d :: d in s.direct ==> s.direct[d] != Ordered(x, y)
      requires c !in s0.chats && c !in s.direct && forall u :: (c, u) in s.members <==> u == SYSTEM
      modifies this`s
      ensures Sound(s0, t, b)
      ensures s == old(s).(direct := old(s.direct)[c := Ordered(x, y)], members := old(s.members) + {(c, x), (c, y)})
    {
      hide Keeps;
      var (lo, hi) := Ordered(x, y);
      NewPair(s0, s, t, b, c, lo, hi);
      assert {(c, lo), (c, hi)} == {(c, x), (c, y)};
      s := s.(members := s.members + {(c, x), (c, y)}, direct := s.direct[c := Ordered(x, y)]);
    }

    // ----- finding chats -----

    /** Open the direct chat of two users, creating it if there is none. */
    method OpenDirect(x: nat, y: nat, ghost s0: State, ghost t: nat, ghost b: Body) returns (f: Found)
      requires Sound(s0, t, b) && x in s.users && y in s.users
      modifies this
      ensures Sound(s0, t, b) && !f.NotFound? && !f.Threw?
      ensures DirectFound(old(s), s, x, y, f)
    {
      SystemExists(s0, t, b);
      hide Sound;
      var found := FindDirectChat(x, y);
      if found.Some? {
        return FoundChat(found.value, 0);    // 'OwnerId' is left zero here
      }
      var c, ok := CreateDirectChat(x, y, s0, t, b);
      f := if ok then FoundChat(c, SYSTEM) else Failed;
    }

    lemma SystemExists(s0: State, t: nat, b: Body)
      requires Sound(s0, t, b)
      ensures SYSTEM in s.users && forall x :: x in s.clients ==> s.clients[x] in s.users
    {
    }

    lemma NoOddPairs(s0: State, t: nat, b: Body)
      requires Sound(s0, t, b)
      ensures forall d :: d in s.direct ==> var p := s.direct[d]; p.0 < p.1 && p.0 != SYSTEM && p.1 != SYSTEM
      ensures forall d :: d in s.direct ==> d in s.chats && (d, s.direct[d].0) in s.members && (d, s.direct[d].1) in s.members
    {
      forall d | d in s.direct
        ensures PairIn(s.members, d, s.direct[d]) && d in s.chats
      {
      }
    }

    /** Direct chats are not found by number or name. */
    method GroupOnly(c: Option<nat>, ghost s0: State, ghost t: nat, ghost b: Body) returns (f: Found)
      requires Sound(s0, t, b) && (c.Some? ==> c.value in s.chats)
      ensures f == if c.Some? then GroupFound(s, c.value) else NotFound
    {
      f := if c.None? || s.chats[c.value].owner == SYSTEM then NotFound else FoundChat(c.value, s.chats[c.value].owner);
    }

    /** 'findChatByQuery' */
    method FindChatByQuery(u: nat, q: ChatQuery, ghost s0: State, ghost t: nat, ghost b: Body) returns (f: Found)
      requires Sound(s0, t, b) && u in s.users
      modifies this
      ensures Sound(s0, t, b) && QueryFound(old(s), s, u, q, f)
    {
      UserNamesUnique(s0, t, b);
      hide Sound, DirectFound;
      match q {
        case AtUser(name) =>
          var other := FindUserByName(name);
          if other.None? {
            return NotFound;
          }
          f := OpenDirect(u, other.value, s0, t, b);
        case DollarUser(id) =>
          if id !in s.users {
            return NotFound;
          }
          f := OpenDirect(u, id, s0, t, b);
        case HashChat(id) =>
          f := GroupOnly(if id in s.chats then Some(id) else None, s0, t, b);
        case NamedChat(name) =>
          var c := FindChatByName(name);
          f := GroupOnly(c, s0, t, b);
        case BadNumber =>
          f := Threw;
      }
    }

    /** What a found chat is like: only an existing direct chat comes without its owner. */
    lemma FoundFacts(s1: State, u: nat, q: ChatQuery, f: Found, s0: State, t: nat, b: Body)
      requires QueryFound(s1, s, u, q, f) && Sound(s0, t, b) && f.FoundChat?
      ensures f.owner == 0 ==> s == s1 && f.id in s.chats && (f.id, u) in s.members
      ensures f.owner != 0 && f.owner != SYSTEM ==> s == s1 && f.id in s.chats && s.chats[f.id].owner == f.owner && f.id !in s.direct
      ensures f.owner == SYSTEM ==> f.id in s.direct && f.id !in s1.chats
    {
      NoOddPairs(s0, t, b);
      OwnersAreUsers(s0, t, b);
      hide Sound;
    }

    lemma PairsAreUsers(s0: State, t: nat, b: Body)
      requires Sound(s0, t, b)
      ensures forall d :: d in s.direct ==> s.direct[d].0 in s.users && s.direct[d].1 in s.users
    {
      NoOddPairs(s0, t, b);
      forall d | d in s.direct
        ensures s.direct[d].0 in s.users && s.direct[d].1 in s.users
      {
        var p := (d, s.direct[d].0);
        var q := (d, s.direct[d].1);
        assert p in s.members && q in s.members;
      }
    }

    lemma UserNamesUnique(s0: State, t: nat, b: Body)
      requires Sound(s0, t, b)
      ensures forall x, y :: x in s.users && y in s.users && s.users[x].name == s.users[y].name ==> x == y
    {
    }

    lemma OwnersAreUsers(s0: State, t: nat, b: Body)
      requires Sound(s0, t, b)
      ensures forall c :: c in s.chats ==> s.chats[c].owner in s.users
      ensures forall c :: c in s.chats ==> s.chats[c].owner != 0
      ensures forall c :: c in s.direct ==> c in s.chats && s.chats[c].owner == SYSTEM
    {
    }

    // ----- sessions -----

    /** 'assignUserInfo' */
    method Assign(t: nat, u: nat, ghost s0: State, ghost b: Body)
      requires Sound(s0, t, b) && (b.Register? || b.Login?)
      requires t in s.sockets && u in s.users && forall x :: x in s.clients && s.clients[x] == u ==> x == t
      modifies this`s
      ensures Sound(s0, t, b) && s == old(s).(clients := old(s.clients)[t := u])
    {
      hide Keeps;
      LoggedIn(s0, s, t, b, u);
      s := s.(clients := s.clients[t := u]);
    }

    // 'through' is the number of answers that get through to the peer: the next one fails, and
    // the rest of the request is then skipped.

    method DoRegister(t: nat, name: string, hash: int, through: nat, ghost s0: State, ghost b: Body) returns (r: Reply)
      requires Sound(s0, t, b) && t in s.sockets && b.Register?
      modifies this
      ensures Sound(s0, t, b)
      ensures r.Ok? ==> LoggedInAs(s, t, User(name, hash))
      ensures if r.Ok? then s.clients[t] !in old(s.users) else s.clients == old(s.clients)
      ensures r == if NameTaken(old(s), name) then Error else Granted(through)
      ensures r == Error ==> s == old(s)
    {
      SystemExists(s0, t, b);
      hide Sound;
      var known := FindUserByName(name);
      if known.Some? {
        return Error;
      }
      var id := CreateUser(name, hash, s0, t, b);
      if through == 0 {
        return NoAnswer;
      }
      Assign(t, id, s0, b);
      return Ok(Done);
    }

    /** 'findSocketByUser' */
    method FindSocketByUser(u: nat) returns (x: Option<nat>)
      ensures x.Some? ==> x.value in s.clients && s.clients[x.value] == u
      ensures x.None? ==> forall y :: y in s.clients ==> s.clients[y] != u
    {
      x := None;
      if y :| y in s.clients && s.clients[y] == u {
        x := Some(y);
      }
    }

    /** 'designUserInfo' */
    method DoLogout(t: nat, ghost s0: State, ghost b: Body)
      requires Sound(s0, t, b) && b.Login?
      modifies this`s
      ensures Sound(s0, t, b) && s == old(s).(clients := old(s.clients) - {t})
    {
      hide Keeps;
      LoggedOut(s0, s, t, b);
      s := s.(clients := s.clients - {t});
    }

    /** The account may be used here: it is logged in on no other connection. */
    method MayLogIn(t: nat, u: nat, ghost s0: State, ghost b: Body) returns (ok: bool)
      requires Sound(s0, t, b) && t in s.sockets
      ensures ok <==> !InUse(s, t, u)
    {
      OneSocket(s0, t, b);
      hide Sound;
      var x := FindSocketByUser(u);
      ok := !(x.Some? && s.sockets[x.value] != s.sockets[t]);
    }

    /** Names are unique: only the account found by name can match. */
    lemma OnlyAccount(t: nat, u: Option<nat>, name: string, hash: int, s0: State, b: Body)
      requires Sound(s0, t, b)
      requires u.Some? ==> u.value in s.users && s.users[u.value].name == name
      requires u.None? ==> forall x :: x in s.users ==> s.users[x].name != name
      ensures MayUse(s, t, User(name, hash)) <==> u.Some? && s.users[u.value].hash == hash && !InUse(s, t, u.value)
    {
      UserNamesUnique(s0, t, b);
      hide Sound, InUse;
    }

    method DoLogin(t: nat, name: string, hash: int, through: nat, ghost s0: State, ghost b: Body) returns (r: Reply)
      requires Sound(s0, t, b) && t in s.sockets && b.Login?
      modifies this
      ensures Sound(s0, t, b)
      ensures r.Ok? && name != "" ==> LoggedInAs(s, t, User(name, hash))
      ensures r.Ok? && name == "" ==> t !in s.clients
      ensures s == old(s).(clients := s.clients) && (!r.Ok? ==> s == old(s))
      ensures r == if name == "" then Ok(Done) else if MayUse(old(s), t, User(name, hash)) then Granted(through) else Error
    {
      hide Sound, MayUse;
      if name == "" {
        DoLogout(t, s0, b);
        return Ok(Done);
      }
      var u := FindUserByName(name);
      OnlyAccount(t, u, name, hash, s0, b);
      if u.None? {
        return Error;
      }
      var may := MayLogIn(t, u.value, s0, b);
      if !may || s.users[u.value].hash != hash {
        return Error;
      }
      if through == 0 {
        return NoAnswer;
      }
      Assign(t, u.value, s0, b);
      return Ok(Done);
    }

    /** Connections logged in as the same user, or with the same socket, are the same. */
    lemma OneSocket(s0: State, t: nat, b: Body)
      requires Sound(s0, t, b) && t in s.sockets
      ensures forall x :: x in s.clients ==> x in s.sockets && (s.sockets[x] == s.sockets[t] ==> x == t)
      ensures forall x, y :: x in s.clients && y in s.clients && s.clients[x] == s.clients[y] ==> x == y
    {
    }

    // ----- requests of a logged-in user -----

    method DoGetUpdates(t: nat, u: nat, drop: bool, through: nat, ghost s0: State, ghost b: Body) returns (r: Reply)
      requires Sound(s0, t, b) && Actor(s0, t) == Some(u) && b.GetUpdates?
      modifies this`s
      ensures Sound(s0, t, b)
      ensures r == if !drop && through >= 1 && through >= |Queue(old(s.updates), u)| then Ok(Pending(Queue(old(s.updates), u))) else NoAnswer
      ensures s == old(s).(updates := s.updates) && forall v: nat :: v != u ==> Queue(s.updates, v) == Queue(old(s.updates), v)
      ensures drop || r.Ok? ==> Queue(s.updates, u) == []
      ensures !drop && !r.Ok? ==> s == old(s)
    {
      hide Keeps;
      QueueCleared(s0, s, t, b, u);
      if drop {
        s := s.(updates := s.updates[u := []]);
        return NoAnswer;
      }
      var pending := if u in s.updates then s.updates[u] else [];
      if pending == [] {
        return if through > 0 then Ok(Pending([])) else NoAnswer;
      }
      if through < |pending| {
        return NoAnswer;
      }
      s := s.(updates := s.updates[u := []]);
      return Ok(Pending(pending));
    }

    /** An existing direct chat is reported as a group, since its owner field was left zero. */
    method DoGetChatInfo(t: nat, u: nat, q: ChatQuery, ghost s0: State, ghost b: Body) returns (r: Reply)
      requires Sound(s0, t, b) && u in s.users
      modifies this
      ensures Sound(s0, t, b)
      ensures exists f :: QueryFound(old(s), s, u, q, f) && r == InfoReply(f)
      ensures r.Ok? ==> r.content.ChatIs? && (r.content.direct <==> r.content.chat in s.direct && r.content.chat !in old(s.chats))
      ensures forall id :: Names(old(s), q, id) && u != id && u != SYSTEM && id != SYSTEM ==>
        && r.Ok? && r.content.chat in s.direct && s.direct[r.content.chat] == Ordered(u, id)
        && (r.content.direct <==> !HasDirect(old(s), u, id))
    {
      OwnersAreUsers(s0, t, b);
      hide Sound;
      var f := FindChatByQuery(u, q, s0, t, b);
      InfoFacts(old(s), s, u, q, f);
      hide QueryFound, Names, HasDirect;
      r := match f
        case FoundChat(id, owner) => Ok(ChatIs(id, owner == SYSTEM))
        case Threw => Escaped
        case _ => Error;
    }

    method DoGetHistory(c: nat, through: nat) returns (r: Reply)
      ensures if c !in s.chats then r == Error
              else exists list :: IsHistory(list, s.messages, c) && r == Listed(History(list), |list|, through)
    {
      if c !in s.chats {
        return Error;
      }
      var list: seq<Message>, i, messages := [], 0, s.messages;
      ghost var at: seq<nat> := [];
      while i < |messages|
        invariant 0 <= i <= |messages| && Places(at, messages[..i], c) && PickedFrom(list, messages, at)
      {
        ghost var was := at;
        if messages[i].chat == c {
          list, at := list + [messages[i]], at + [i];
        }
        OneMorePlace(was, messages, i, c);
        i := i + 1;
      }
      assert messages[..i] == messages;
      r := if through >= 1 && through >= |list| then Ok(History(list)) else NoAnswer;
    }

    method DoGetMembers(u: nat, c: nat, through: nat) returns (r: Reply)
      ensures if c !in s.chats || (c, u) !in s.members then r == Error
              else exists list :: ListsMembers(list, s, c) && r == Listed(People(list), |list|, through)
    {
      if c !in s.chats || !IsMember(c, u) {
        return Error;
      }
      var m := MembersOf(c);
      var list := InSomeOrder(m - {SYSTEM});
      assert ListsMembers(list, s, c);
      r := if through >= 1 && through >= |list| then Ok(People(list)) else NoAnswer;
    }

    method DoGetChats(u: nat, through: nat, ghost s0: State, ghost t: nat, ghost b: Body) returns (r: Reply)
      requires Sound(s0, t, b)
      ensures exists list :: ListsChats(list, s, u) && r == Listed(Chats(list), |list|, through)
    {
      var mine := set c | c in s.chats && (c, u) in s.members;
      var ids := InSomeOrder(mine);
      var list: seq<Line> := [];
      while |list| < |ids|
        invariant |list| <= |ids| && forall i :: 0 <= i < |list| ==> ListsChat(list[i], s, u) && list[i].id == ids[i]
      {
        assert ids[|list|] in mine;
        var e := ChatLine(ids[|list|], u, s0, t, b);
        list := list + [e];
      }
      forall c | c in s.chats && (c, u) in s.members
        ensures exists i :: 0 <= i < |list| && list[i].id == c
      {
        assert c in ids;
      }
      assert ListsChats(list, s, u);
      r := if through >= 1 && through >= |list| then Ok(Chats(list)) else NoAnswer;
    }

    /** One chat of user 'u', with the name that 'findDirectChatPeer' gives a direct chat. */
    method ChatLine(c: nat, u: nat, ghost s0: State, ghost t: nat, ghost b: Body) returns (e: Line)
      requires Sound(s0, t, b) && c in s.chats && (c, u) in s.members
      ensures e.id == c && ListsChat(e, s, u)
    {
      NoOddPairs(s0, t, b);
      PairsAreUsers(s0, t, b);
      hide Sound;
      e := Line(c, s.chats[c].name, s.chats[c].owner == SYSTEM);
      if e.direct && c in s.direct {
        var (a, z) := s.direct[c];
        if u == a || u == z {
          e := e.(name := s.users[if u == a then z else a].name);
        }
      }
    }

    method DoSpawn(t: nat, u: nat, name: string, ghost s0: State, ghost b: Body) returns (r: Reply)
      requires Sound(s0, t, b) && u in s.users
      modifies this
      ensures Sound(s0, t, b)
      ensures if name == "" || NamesChat(old(s), name) then r == Error && s == old(s)
              else exists c :: c !in old(s.chats) && s == Spawned(old(s), c, name, u) && r == Ok(ChatIs(c, false))
    {
      hide Sound;
      if name == "" {
        return Error;
      }
      var known := FindChatByName(name);
      if known.Some? {
        return Error;
      }
      var c := CreateGroupChat(u, name, s0, t, b);
      return Ok(ChatIs(c, false));
    }

    method DoJoin(t: nat, u: nat, q: ChatQuery, ghost s0: State, ghost b: Body) returns (r: Reply)
      requires Sound(s0, t, b) && s == s0 && Actor(s0, t) == Some(u) && u in s.users
      modifies this
      ensures Sound(s0, t, b)
      ensures JoinDone(old(s), s, u, q, r)
    {
      hide Keeps;
      var f := FindChatByQuery(u, q, s0, t, b);
      ghost var mid := s;
      assert QueryFound(old(s), mid, u, q, f);
      if f.Threw? {
        return Escaped;
      }
      if !f.FoundChat? || f.owner == SYSTEM {
        return Error;
      }
      FoundFacts(old(s), u, q, f, s0, t, b);
      if (f.id, u) in s.bans {
        return Error;
      }
      if !IsMember(f.id, u) {
        MemberJoins(s0, s, t, b, f.id, u);
        s := s.(members := s.members + {(f.id, u)});
      }
      return Ok(ChatIs(f.id, false));
    }

    // ----- slash commands -----

    method Say(m: Message, ghost s0: State, ghost t: nat, ghost b: Body)
      requires Sound(s0, t, b) && MessagePermitted(s0, t, m)
      modifies this`s
      ensures Sound(s0, t, b) && s == old(s).(messages := old(s.messages) + [m])
    {
      hide Keeps;
      MessageAdded(s0, s, t, b, m);
      s := s.(messages := s.messages + [m]);
    }

    /** Announce a command of the owner: a system message, the answer, and an update for others. */
    method Announce(c: nat, u: nat, text: string, upd: Update, to: set<nat>, through: nat, ghost s0: State, ghost t: nat, ghost b: Body)
      returns (r: Reply)
      requires Sound(s0, t, b) && OwnerActs(s0, t, c)
      modifies this`s
      ensures Sound(s0, t, b) && r == Granted(through)
      ensures Announced(old(s), s, c, u, text, upd, to, through)
    {
      hide Sound;
      Say(Message(c, SYSTEM, text), s0, t, b);
      if through == 0 {
        return NoAnswer;
      }
      PushAll(to, u, upd, s0, t, b);
      return Ok(Done);
    }

    /** 'resolveUserToken' */
    method Resolve(target: Target) returns (u: Option<nat>)
      ensures u.Some? ==> Resolves(s, target, u.value)
      ensures u.None? ==> forall v :: !Resolves(s, target, v)
    {
      u := None;
      match target {
        case AtName(name) => u := FindUserByName(name);
        case DollarId(id) => u := if id in s.users then Some(id) else None;
        case _ =>
      }
    }

    method DoRename(c: nat, u: nat, name: string, through: nat, ghost s0: State, ghost t: nat, ghost b: Body) returns (r: Reply)
      requires Sound(s0, t, b) && OwnerActs(s0, t, c)
      modifies this`s
      ensures Sound(s0, t, b)
      ensures if name == "" then r == Error && s == old(s)
              else r == Granted(through) && CommandDone(old(s), s, c, u, Rename(name), through)
    {
      hide Keeps;
      if name == "" {
        return Error;
      }
      ChatRenames(s0, s, t, b, c, name);
      s := s.(chats := s.chats[c := s.chats[c].(name := name)]);
      var m := MembersOf(c);
      r := Announce(c, u, "имя чата изменено на \"" + name + "\"", ChatRenamed(c), m, through, s0, t, b);
    }

    method DoUnban(c: nat, u: nat, target: nat, through: nat, ghost s0: State, ghost t: nat, ghost b: Body) returns (r: Reply)
      requires Sound(s0, t, b) && OwnerActs(s0, t, c) && target in s.users
      modifies this`s
      ensures Sound(s0, t, b)
      ensures if (c, target) in old(s.bans) then r == Granted(through) && CommandDone(old(s), s, c, u, Unban(DollarId(target)), through)
              else r == Error && s == old(s)
    {
      hide Keeps;
      if (c, target) !in s.bans {
        return Error;
      }
      MemberUnbanned(s0, s, t, b, c, target);
      s := s.(bans := s.bans - {(c, target)});
      var m := MembersOf(c);
      r := Announce(c, u, s.users[target].name + " разбанен", UserUnbanned(c, target), m + {target}, through, s0, t, b);
    }

    method DoKick(c: nat, u: nat, target: nat, through: nat, ghost s0: State, ghost t: nat, ghost b: Body) returns (r: Reply)
      requires Sound(s0, t, b) && OwnerActs(s0, t, c) && target != s0.chats[c].owner && target in s.users
      modifies this`s
      ensures Sound(s0, t, b)
      ensures if (c, target) in old(s.members) then r == Granted(through) && CommandDone(old(s), s, c, u, Kick(DollarId(target)), through)
              else r == Error && s == old(s)
    {
      hide Keeps;
      if !IsMember(c, target) {
        return Error;
      }
      var m := MembersOf(c);
      MemberLeaves(s0, s, t, b, c, target);
      s := s.(members := s.members - {(c, target)});
      r := Announce(c, u, s.users[target].name + " исключен из чата", UserKicked(c, target), m, through, s0, t, b);
    }

    method DoBan(c: nat, u: nat, target: nat, through: nat, ghost s0: State, ghost t: nat, ghost b: Body) returns (r: Reply)
      requires Sound(s0, t, b) && OwnerActs(s0, t, c) && target != s0.chats[c].owner && target in s.users
      modifies this`s
      ensures Sound(s0, t, b)
      ensures r == Granted(through) && CommandDone(old(s), s, c, u, Ban(DollarId(target)), through)
    {
      hide Keeps;
      var m := MembersOf(c);
      MemberBanned(s0, s, t, b, c, target);
      s := s.(bans := s.bans + {(c, target)});
      s := s.(members := s.members - {(c, target)});
      r := Announce(c, u, s.users[target].name + " забанен", UserBanned(c, target), m + {target}, through, s0, t, b);
    }

    /** 'tryHandleSlashCommand', addon commands excluded; 'owner' is that of the chat as found. */
    method SlashCommand(c: nat, owner: nat, u: nat, cmd: Command, through: nat, ghost s0: State, ghost t: nat, ghost b: Body) returns (r: Reply)
      requires Sound(s0, t, b) && c in s0.chats && s0.chats[c].owner == owner && Actor(s0, t) == Some(u)
      modifies this`s
      ensures Sound(s0, t, b)
      ensures if owner == u && CommandAllowed(old(s), c, owner, cmd) then r == Granted(through) && CommandDone(old(s), s, c, u, cmd, through)
              else r == Error && s == old(s)
    {
      TargetsUnique(s0, t, b);
      hide Sound, Announced;
      if owner == SYSTEM || owner != u {
        return Error;
      }
      if cmd.Rename? {
        r := DoRename(c, u, cmd.name, through, s0, t, b);
        return;
      }
      var target := Resolve(cmd.target);
      if target.None? || target.value == SYSTEM {
        return Error;
      }
      r := OnTarget(c, u, cmd, target.value, through, s0, t, b);
    }

    /** A command of the owner about the user that its target stands for. */
    method OnTarget(c: nat, u: nat, cmd: Command, target: nat, through: nat, ghost s0: State, ghost t: nat, ghost b: Body) returns (r: Reply)
      requires Sound(s0, t, b) && OwnerActs(s0, t, c) && s0.chats[c].owner == u && !cmd.Rename?
      requires Resolves(s, cmd.target, target) && target != SYSTEM
      requires forall v :: Resolves(s, cmd.target, v) ==> v == target
      modifies this`s
      ensures Sound(s0, t, b)
      ensures if CommandAllowed(old(s), c, u, cmd) then r == Granted(through) && CommandDone(old(s), s, c, u, cmd, through)
              else r == Error && s == old(s)
    {
      hide Keeps, Announced;
      if cmd.Unban? {
        r := DoUnban(c, u, target, through, s0, t, b);
        return;
      }
      if target == u {
        return Error;
      }
      if cmd.Kick? {
        r := DoKick(c, u, target, through, s0, t, b);
      } else {
        r := DoBan(c, u, target, through, s0, t, b);
      }
    }

    lemma TargetsUnique(s0: State, t: nat, b: Body)
      requires Sound(s0, t, b)
      ensures forall target, v, w :: Resolves(s, target, v) && Resolves(s, target, w) ==> v == w
    {
      UserNamesUnique(s0, t, b);
    }

    method DoCommit(t: nat, u: nat, c: nat, text: string, cmd: Option<Command>, through: nat, ghost s0: State, ghost b: Body) returns (r: Reply)
      requires Sound(s0, t, b) && s == s0 && Actor(s0, t) == Some(u)
      modifies this`s
      ensures Sound(s0, t, b)
      ensures if (c, u) in old(s.members) && c in old(s.chats)
              then r == CommitReply(old(s), c, u, cmd, through) && CommitDone(old(s), s, c, u, text, cmd, through)
              else r == Error && s == old(s)
    {
      hide Keeps, Delivered, CommandDone;
      if c !in s.chats || !IsMember(c, u) {
        return Error;
      }
      var owner := s.chats[c].owner;
      Say(Message(c, u, text), s0, t, b);
      if through == 0 {
        return NoAnswer;
      }
      var m := MembersOf(c);
      PushAll(m, u, MessageSent(Message(c, u, text)), s0, t, b);
      r := Ok(Done);
      ghost var mid := s;
      assert Said(old(s), mid, c, u, text);
      if cmd.Some? {
        AllowedSame(old(s), mid, c, owner, cmd.value);
        r := SlashCommand(c, owner, u, cmd.value, through - 1, s0, t, b);
      }
    }

    // ----- requests -----

    /** 'processRequest': the invariant is kept, and nothing changes but what the request allows
        to the user that the connection is logged in as. */
    method ProcessRequest(t: nat, req: Request, through: nat) returns (r: Reply)
      requires Valid() && t in s.sockets
      modifies this
      ensures Valid() && Permitted(old(s), s, t, req.body)
      ensures !req.tokenOk ==> s == old(s) && r == Error
      ensures req.tokenOk ==> Achieved(old(s), s, t, req.body, through, r)
      ensures t !in old(s.clients) && !req.body.Register? && !req.body.Login? ==> s == old(s)
      ensures ReadsOnly(req.body) ==> s == old(s)
    {
      ghost var s0, b := s, req.body;
      PermittedSelf(s, t, b);
      assert Sound(s0, t, b);
      SystemExists(s0, t, b);
      hide Inv, Permitted, AchievedBy, MayUse, NameTaken;
      if req.body.Unsupported? || !req.tokenOk {
        return Error;
      }
      if req.body.Register? {
        r := DoRegister(t, req.body.name, req.body.hash, through, s0, b);
      } else if req.body.Login? {
        r := DoLogin(t, req.body.name, req.body.hash, through, s0, b);
      } else if t !in s.clients {
        r := Error;
      } else {
        r := ProcessAuthorized(t, s.clients[t], req.body, through, s0);
      }
    }

    method ProcessAuthorized(t: nat, u: nat, body: Body, through: nat, ghost s0: State) returns (r: Reply)
      requires Sound(s0, t, body) && s == s0 && Actor(s0, t) == Some(u) && u in s.users
      requires !body.Register? && !body.Login?
      modifies this
      ensures Sound(s0, t, body) && (ReadsOnly(body) ==> s == old(s)) && Achieved(s0, s, t, body, through, r)
    {
      hide Sound;
      match body {
        case GetUpdates(drop) => r := DoGetUpdates(t, u, drop, through, s0, body);
        case GetChatInfo(query) => r := DoGetChatInfo(t, u, query, s0, body);
        case GetChatHistory(c) => r := DoGetHistory(c, through);
        case GetChatMembers(c) => r := DoGetMembers(u, c, through);
        case GetChatList => r := DoGetChats(u, through, s0, t, body);
        case SpawnGroupChat(name) => r := DoSpawn(t, u, name, s0, body);
        case JoinGroupChat(query) => r := DoJoin(t, u, query, s0, body);
        case CommitMessage(c, text, cmd) => r := DoCommit(t, u, c, text, cmd, through, s0, body);
        case Unsupported => r := Error;
      }
    }
  }

  // ----- whole runs -----

  datatype Event = Connects(t: nat, handle: nat) | Leaves(t: nat) | Asks(t: nat, req: Request, through: nat)

  predicate Taken(s: State, handle: nat) {
    exists x :: x in s.sockets && s.sockets[x] == handle
  }

  /** What one event does, with the answer given. */
  ghost predicate Handled(s: State, s2: State, ev: Event, r: Reply) {
    match ev
    case Connects(t, handle) =>
      s2 == if t in s.sockets || (exists x :: x in s.sockets && s.sockets[x] == handle) then s else s.(sockets := s.sockets[t := handle])
    case Leaves(t) => s2 == s.(sockets := s.sockets - {t}, clients := s.clients - {t})
    case Asks(t, req, through) =>
      if t !in s.sockets then s2 == s
      else
        && Permitted(s, s2, t, req.body)
        && if req.tokenOk then Achieved(s, s2, t, req.body, through, r) else s2 == s && r == Error
  }

  /** The states of a whole run, from the empty database on. */
  ghost predicate IsTrace(trace: seq<State>, events: seq<Event>, replies: seq<Reply>) {
    && |trace| == |events| + 1 && |replies| == |events|
    && trace[0] == State(map[1 := User("SYSTEM", 0)], map[], {}, {}, map[], [], map[], map[], map[])
    && (forall i :: 0 <= i < |trace| ==> Inv(trace[i]))
    && (forall i :: 0 <= i < |events| ==> Handled(trace[i], trace[i + 1], events[i], replies[i]))
  }

  /** Over every run of connections and requests, live sockets being distinct, the invariant
      holds in every state, and each event has its effect and no other. */
  method RunServer(events: seq<Event>) returns (server: Backend, replies: seq<Reply>, ghost trace: seq<State>)
    ensures fresh(server) && server.Valid()
    ensures IsTrace(trace, events, replies) && server.s == trace[|events|]
  {
    hide Inv, Permitted, Achieved;
    server := new Backend();
    replies := [];
    trace := [server.s];
    ValidInv(server);
    while |replies| < |events|
      invariant |replies| <= |events| && fresh(server) && server.Valid()
      invariant IsTrace(trace, events[..|replies|], replies) && server.s == trace[|replies|]
    {
      var ev := events[|replies|];
      ghost var s := server.s;
      var r := Serve(server, ev);
      ValidInv(server);
      TraceExtends(trace, events[..|replies|], replies, s, server.s, ev, r);
      assert events[..|replies| + 1] == events[..|replies|] + [ev];
      trace, replies := trace + [server.s], replies + [r];
    }
    assert events[..|replies|] == events;
  }

  method Serve(server: Backend, ev: Event) returns (r: Reply)
    requires server.Valid()
    modifies server
    ensures server.Valid() && Handled(old(server.s), server.s, ev, r)
  {
    hide Inv, Permitted, Achieved;
    r := NoAnswer;
    match ev {
      case Connects(t, handle) =>
        if t !in server.s.sockets && !Taken(server.s, handle) {
          server.Accept(t, handle);
        }
      case Leaves(t) => server.Disconnect(t);
      case Asks(t, req, through) =>
        if t in server.s.sockets {
          r := server.ProcessRequest(t, req, through);
        }
    }
  }

  lemma ValidInv(server: Backend)
    requires server.Valid()
    ensures Inv(server.s)
  {
  }

  lemma TraceExtends(trace: seq<State>, events: seq<Event>, replies: seq<Reply>, s: State, s2: State, ev: Event, r: Reply)
    requires IsTrace(trace, events, replies) && s == trace[|events|] && Inv(s2) && Handled(s, s2, ev, r)
    ensures IsTrace(trace + [s2], events + [ev], replies + [r])
  {
    hide Inv, Handled;
    var trace2, events2, replies2 := trace + [s2], events + [ev], replies + [r];
    forall i | 0 <= i < |events2|
      ensures Handled(trace2[i], trace2[i + 1], events2[i], replies2[i])
    {
      if i < |events| {
        assert Handled(trace[i], trace[i + 1], events[i], replies[i]);
      }
    }
  }

  // ----- what holds over whole runs -----

  /** Step k is a command of the owner of chat 'c'. */
  ghost predicate OwnerStep(trace: seq<State>, events: seq<Event>, k: nat, c: nat)
    requires k < |trace| && k < |events|
  {
    events[k].Asks? && OwnerActs(trace[k], events[k].t, c)
  }

  lemma OneBan(s: State, s2: State, ev: Event, r: Reply, c: nat, u: nat)
    requires Handled(s, s2, ev, r) && (c, u) in s.bans && (c, u) !in s2.bans
    ensures ev.Asks? && OwnerActs(s, ev.t, c)
  {
    hide Achieved, MembersPermitted, MessagesPermitted, QueuesPermitted, SessionsPermitted, UsersPersist, ChatsPersist, DirectPersists;
    assert (c, u).0 == c;
  }

  /** Whoever is banned gets back into the chat only after its owner has lifted the ban. */
  lemma {:induction false} BanHolds(trace: seq<State>, events: seq<Event>, replies: seq<Reply>, i: nat, j: nat, c: nat, u: nat)
    requires IsTrace(trace, events, replies) && i <= j < |trace|
    requires (c, u) in trace[i].bans && (c, u) in trace[j].members
    ensures exists k :: i <= k < j && OwnerStep(trace, events, k, c) && (c, u) in trace[k].bans && (c, u) !in trace[k + 1].bans
    decreases j - i
  {
    hide Handled;
    NotBoth(trace[i], c, u);
    assert Handled(trace[i], trace[i + 1], events[i], replies[i]);
    if (c, u) in trace[i + 1].bans {
      BanHolds(trace, events, replies, i + 1, j, c, u);
    } else {
      OneBan(trace[i], trace[i + 1], events[i], replies[i], c, u);
      assert OwnerStep(trace, events, i, c);
    }
  }

  lemma NotBoth(s: State, c: nat, u: nat)
    requires Inv(s) && (c, u) in s.bans
    ensures (c, u) !in s.members
  {
  }

  /** A request that logs connection 't' in as 'user'. */
  predicate Presents(ev: Event, t: nat, user: User) {
    ev.Asks? && ev.t == t && ev.req.tokenOk
    && (ev.req.body == Register(user.name, user.hash) || ev.req.body == Login(user.name, user.hash))
  }

  lemma OneSession(s: State, s2: State, ev: Event, r: Reply, t: nat)
    requires Handled(s, s2, ev, r) && t in s2.clients && !(t in s.clients && s.clients[t] == s2.clients[t])
    ensures s2.clients[t] in s2.users && Presents(ev, t, s2.users[s2.clients[t]]) && r.Ok?
  {
    hide MembersPermitted, MessagesPermitted, QueuesPermitted, BansPermitted, UsersPersist, ChatsPersist, DirectPersists, AchievedBy;
  }

  lemma UserStays(s: State, s2: State, ev: Event, r: Reply, u: nat)
    requires Handled(s, s2, ev, r) && u in s.users
    ensures u in s2.users && s2.users[u] == s.users[u]
  {
    hide Achieved, MembersPermitted, MessagesPermitted, QueuesPermitted, BansPermitted, SessionsPermitted, ChatsPersist, DirectPersists;
  }

  /** A connection is logged in as a user only if it has presented that user's name and hash. */
  lemma {:induction false} SessionsAreEarned(trace: seq<State>, events: seq<Event>, replies: seq<Reply>, j: nat, t: nat)
    requires IsTrace(trace, events, replies) && j < |trace| && t in trace[j].clients
    ensures trace[j].clients[t] in trace[j].users
    ensures exists k :: 0 <= k < j && Presents(events[k], t, trace[j].users[trace[j].clients[t]]) && replies[k].Ok?
  {
    hide Handled, Presents;
    var i := j - 1;
    assert Handled(trace[i], trace[i + 1], events[i], replies[i]);
    if t in trace[i].clients && trace[i].clients[t] == trace[j].clients[t] {
      SessionsAreEarned(trace, events, replies, i, t);
      UserStays(trace[i], trace[j], events[i], replies[i], trace[i].clients[t]);
    } else {
      OneSession(trace[i], trace[j], events[i], replies[i], t);
    }
  }

  ghost predicate Grown(s: State, s2: State) {
    && (forall u :: u in s.users ==> u in s2.users && s2.users[u] == s.users[u])
    && (forall c :: c in s.chats ==> c in s2.chats && s2.chats[c].owner == s.chats[c].owner)
    && (forall d :: d in s.direct ==> d in s2.direct && s2.direct[d] == s.direct[d])
    && Extends(s.messages, s2.messages)
  }

  lemma OneGrows(s: State, s2: State, ev: Event, r: Reply)
    requires Handled(s, s2, ev, r)
    ensures Grown(s, s2)
  {
    hide Achieved, MembersPermitted, QueuesPermitted, BansPermitted, SessionsPermitted, OwnerActs, MessagePermitted;
  }

  /** Accounts, chats with their owners, direct chats and messages are never lost or changed. */
  lemma {:induction false} NothingIsLost(trace: seq<State>, events: seq<Event>, replies: seq<Reply>, i: nat, j: nat)
    requires IsTrace(trace, events, replies) && i <= j < |trace|
    ensures Grown(trace[i], trace[j])
    decreases j - i
  {
    hide Handled, Grown, Inv;
    if i < j {
      assert Handled(trace[i], trace[i + 1], events[i], replies[i]);
      OneGrows(trace[i], trace[i + 1], events[i], replies[i]);
      NothingIsLost(trace, events, replies, i + 1, j);
      GrownTransitive(trace[i], trace[i + 1], trace[j]);
    } else {
      GrownSelf(trace[i]);
    }
  }

  lemma GrownSelf(s: State)
    ensures Grown(s, s)
  {
  }

  lemma GrownTransitive(s: State, s1: State, s2: State)
    requires Grown(s, s1) && Grown(s1, s2)
    ensures Grown(s, s2)
  {
    assert s.messages == s1.messages[..|s.messages|] == s2.messages[..|s.messages|];
  }

  /** A history that is answered holds every message the chat was ever sent, and no others. */
  lemma SentIsRead(trace: seq<State>, events: seq<Event>, replies: seq<Reply>, i: nat, j: nat, t: nat, c: nat, through: nat)
    requires IsTrace(trace, events, replies) && i <= j < |events|
    requires events[j] == Asks(t, Request(true, GetChatHistory(c)), through) && t in trace[j].sockets && t in trace[j].clients
    requires replies[j].Ok?
    ensures replies[j].content.History?
    ensures forall m :: m in trace[i].messages && m.chat == c ==> m in replies[j].content.messages
    ensures forall m :: m in replies[j].content.messages ==> m in trace[j].messages && m.chat == c
  {
    NothingIsLost(trace, events, replies, i, j);
    assert Handled(trace[j], trace[j + 1], events[j], replies[j]);
    hide Handled, Inv, IsTrace;
    HistoryAnswered(trace[j], trace[j + 1], t, through, replies[j], c);
    var list := replies[j].content.messages;
    HistoryHolds(list, trace[j].messages, c);
    forall m | m in trace[i].messages && m.chat == c
      ensures m in list
    {
      var k :| 0 <= k < |trace[i].messages| && trace[i].messages[k] == m;
      assert trace[j].messages[..|trace[i].messages|][k] == m;
    }
  }

  lemma HistoryAnswered(s: State, s2: State, t: nat, through: nat, r: Reply, c: nat)
    requires Handled(s, s2, Asks(t, Request(true, GetChatHistory(c)), through), r) && t in s.sockets && t in s.clients
    requires r.Ok?
    ensures r.content.History? && IsHistory(r.content.messages, s.messages, c)
  {
    hide Permitted, IsHistory;
  }

  lemma HistoryHolds(list: seq<Message>, messages: seq<Message>, c: nat)
    requires IsHistory(list, messages, c)
    ensures forall m :: m in list <==> m in messages && m.chat == c
  {
    var at :| Places(at, messages, c) && PickedFrom(list, messages, at);
    forall m | m in messages && m.chat == c
      ensures m in list
    {
      var k: nat :| k < |messages| && messages[k] == m;
      assert k in at;
      var i :| 0 <= i < |at| && at[i] == k;
      assert list[i] == m;
    }
  }

  /** Step k hands the pending updates of user 'v' over, 'upd' among them, or is asked to drop them. */
  ghost predicate HandsOver(trace: seq<State>, events: seq<Event>, replies: seq<Reply>, k: nat, v: nat, upd: Update)
    requires k < |trace| && k < |events| && k < |replies|
  {
    && events[k].Asks? && Actor(trace[k], events[k].t) == Some(v) && events[k].req.body.GetUpdates?
    && (events[k].req.body.drop || (replies[k].Ok? && replies[k].content.Pending? && upd in replies[k].content.updates))
  }

  lemma OnePending(s: State, s2: State, ev: Event, r: Reply, v: nat, upd: Update)
    requires Handled(s, s2, ev, r) && upd in Queue(s.updates, v)
    ensures upd in Queue(s2.updates, v) || (ev.Asks? && Actor(s, ev.t) == Some(v) && ev.req.body.GetUpdates?
      && (ev.req.body.drop || (r.Ok? && r.content.Pending? && upd in r.content.updates)))
  {
    hide MembersPermitted, MessagesPermitted, SessionsPermitted, BansPermitted, UsersPersist, ChatsPersist, DirectPersists;
    hide ListsChats, ListsMembers, IsHistory, QueryFound, JoinDone, CommitDone, CommitReply, Inv;
    if ev.Asks? && ev.t in s.sockets && !(Actor(s, ev.t) == Some(v) && ev.req.body.GetUpdates?) {
      assert IsPrefix(Queue(s.updates, v), Queue(s2.updates, v));
      var k :| 0 <= k < |Queue(s.updates, v)| && Queue(s.updates, v)[k] == upd;
      assert Queue(s2.updates, v)[..|Queue(s.updates, v)|][k] == upd;
    }
  }

  /** No update is lost: it waits in its queue until the user takes or drops the pending updates. */
  lemma {:induction false} UpdatesWait(trace: seq<State>, events: seq<Event>, replies: seq<Reply>, i: nat, j: nat, v: nat, upd: Update)
    requires IsTrace(trace, events, replies) && i <= j < |trace| && upd in Queue(trace[i].updates, v)
    ensures upd in Queue(trace[j].updates, v) || exists k :: i <= k < j && HandsOver(trace, events, replies, k, v, upd)
    decreases j - i
  {
    hide Handled, Inv, Queue;
    if i < j {
      assert Handled(trace[i], trace[i + 1], events[i], replies[i]);
      OnePending(trace[i], trace[i + 1], events[i], replies[i], v, upd);
      if upd in Queue(trace[i + 1].updates, v) {
        UpdatesWait(trace, events, replies, i + 1, j, v, upd);
      } else {
        assert HandsOver(trace, events, replies, i, v, upd);
      }
    }
  }

  /** What the server owes: a request whose answers get through succeeds when its guards hold. */
  lemma DeliveredRequestsSucceed(s: State, s2: State, t: nat, req: Request, through: nat, r: Reply)
    requires Handled(s, s2, Asks(t, req, through), r) && t in s.sockets && req.tokenOk && through > 0
    ensures req.body.Register? && !NameTaken(s, req.body.name) ==>
      r.Ok? && LoggedInAs(s2, t, User(req.body.name, req.body.hash)) && s2.clients[t] !in s.users
    ensures req.body.Login? && req.body.name != "" && MayUse(s, t, User(req.body.name, req.body.hash)) ==>
      r.Ok? && LoggedInAs(s2, t, User(req.body.name, req.body.hash))
    ensures t in s.clients && req.body.GetUpdates? && !req.body.drop && through >= |Queue(s.updates, s.clients[t])| ==>
      r == Ok(Pending(Queue(s.updates, s.clients[t]))) && Queue(s2.updates, s.clients[t]) == []
    ensures t in s.clients && req.body.SpawnGroupChat? && req.body.name != "" && (forall c :: c in s.chats ==> s.chats[c].name != req.body.name) ==>
      exists c :: c !in s.chats && s2 == Spawned(s, c, req.body.name, s.clients[t]) && r == Ok(ChatIs(c, false))
    ensures t in s.clients && req.body.CommitMessage? && req.body.chat in s.chats && (req.body.chat, s.clients[t]) in s.members ==>
      var u, b := s.clients[t], req.body;
      if b.command.Some? && s.chats[b.chat].owner == u && CommandAllowed(s, b.chat, u, b.command.value) then
        && (exists mid: State :: Said(s, mid, b.chat, u, b.text) && CommandDone(mid, s2, b.chat, u, b.command.value, through - 1))
        && (through > 1 ==> r.Ok?)
      else Said(s, s2, b.chat, u, b.text) && (r.Ok? <==> b.command.None?)
  {
    hide Permitted, CommandAllowed, CommandDone, Said, NameTaken, MayUse, LoggedInAs, JoinDone, QueryFound, ListsMembers, ListsChats, IsHistory;
  }

  /** Users 'x' and 'y' have direct chat 'd'. */
  ghost predicate IsDirect(s: State, d: nat, x: nat, y: nat) {
    d in s.direct && (s.direct[d] == (x, y) || s.direct[d] == (y, x))
  }

  /** User 'u' may join group 'c'. */
  ghost predicate MayJoin(s: State, c: nat, u: nat) {
    c in s.chats && s.chats[c].owner != SYSTEM && (c, u) !in s.bans
  }

  lemma DirectFacts(s: State)
    requires Inv(s)
    ensures forall d :: d in s.direct ==> s.direct[d].0 < s.direct[d].1 && d in s.chats && s.chats[d].owner == SYSTEM
    ensures forall d, u :: d in s.direct && (u == s.direct[d].0 || u == s.direct[d].1) ==> (d, u) in s.members && (d, u) !in s.bans
    ensures forall d, e :: d in s.direct && e in s.direct && s.direct[d] == s.direct[e] ==> d == e
    ensures forall c :: c in s.chats ==> s.chats[c].owner != 0
    ensures forall x, y :: x in s.users && y in s.users && s.users[x].name == s.users[y].name ==> x == y
  {
    forall d, u: nat | d in s.direct && (u == s.direct[d].0 || u == s.direct[d].1)
      ensures (d, u) in s.members && (d, u) !in s.bans
    {
      assert PairIn(s.members, d, s.direct[d]);
    }
    assert forall d :: d in s.direct ==> PairIn(s.members, d, s.direct[d]);
  }

  /** The direct chat of two users is found, or a new one is opened where there can be one. */
  lemma DirectKnown(s: State, s2: State, x: nat, y: nat, f: Found)
    requires Inv(s) && DirectFound(s, s2, x, y, f)
    ensures forall d: nat :: IsDirect(s, d, x, y) ==> f == FoundChat(d, 0) && s2 == s && (d, x) in s.members && (d, x) !in s.bans
    ensures (forall d: nat :: !IsDirect(s, d, x, y)) ==>
      if x == y || x == SYSTEM || y == SYSTEM then f == Failed
      else f.FoundChat? && f.owner == SYSTEM && f.id !in s.chats && IsDirect(s2, f.id, x, y)
  {
    DirectFacts(s);
    hide Inv, DirectRow;
    forall d: nat | IsDirect(s, d, x, y)
      ensures f == FoundChat(d, 0) && s2 == s && (d, x) in s.members && (d, x) !in s.bans
    {
      assert s.direct[d] == Backend.Ordered(x, y);
      assert HasDirect(s, x, y);
    }
    if d: nat :| d in s.direct && s.direct[d] == Backend.Ordered(x, y) {
      assert IsDirect(s, d, x, y);
    }
  }

  /** Opening a direct chat changes no chat that there is. */
  lemma OnlyNewMembers(s: State, s2: State, x: nat, y: nat, f: Found)
    requires DirectFound(s, s2, x, y, f)
    ensures s2.bans == s.bans && s.members <= s2.members
    ensures forall p :: p in s2.members && p !in s.members ==> p.0 !in s.chats
  {
  }

  lemma NamesFound(s: State, s2: State, u: nat, q: ChatQuery, id: nat, f: Found)
    requires QueryFound(s, s2, u, q, f) && Names(s, q, id)
    ensures DirectFound(s, s2, u, id, f)
  {
    hide DirectFound;
  }

  /** Who is answered what when asking to join a group: groups that do not ban the user are joined,
      whether named or numbered, and nothing else is. */
  lemma GroupJoins(s: State, s2: State, t: nat, through: nat, r: Reply, q: ChatQuery, u: nat)
    requires Handled(s, s2, Asks(t, Request(true, JoinGroupChat(q)), through), r) && !q.AtUser? && !q.DollarUser?
    requires t in s.sockets && t in s.clients && u == s.clients[t]
    ensures q.HashChat? ==> if MayJoin(s, q.id, u) then r == Ok(ChatIs(q.id, false)) && Joined(s, s2, q.id, u) else r == Error && s2 == s
    ensures q.NamedChat? && (forall c :: c in s.chats && s.chats[c].name == q.name ==> !MayJoin(s, c, u)) ==> r == Error && s2 == s
    ensures q.NamedChat? && NamesChat(s, q.name) && (forall c :: c in s.chats && s.chats[c].name == q.name ==> MayJoin(s, c, u)) ==>
      exists c :: c in s.chats && s.chats[c].name == q.name && r == Ok(ChatIs(c, false)) && Joined(s, s2, c, u)
    ensures q.BadNumber? ==> r == Escaped && s2 == s
  {
    hide Permitted;
    var f: Found, mid: State :| QueryFound(s, mid, u, q, f) && JoinFound(mid, s2, u, f, r);
    if q.NamedChat? && f != NotFound {
      var c :| c in s.chats && s.chats[c].name == q.name && f == GroupFound(s, c);
      assert MayJoin(s, c, u) ==> r == Ok(ChatIs(c, false)) && Joined(s, s2, c, u);
    }
  }

  /** Who is answered what when asking to join a chat with a user: an existing direct chat is
      answered as if joined, and otherwise nobody becomes a member of a chat there was. */
  lemma DirectJoins(s: State, s2: State, t: nat, through: nat, r: Reply, q: ChatQuery, u: nat)
    requires Inv(s) && Handled(s, s2, Asks(t, Request(true, JoinGroupChat(q)), through), r) && (q.AtUser? || q.DollarUser?)
    requires t in s.sockets && t in s.clients && u == s.clients[t]
    ensures forall id: nat, d: nat :: Names(s, q, id) && IsDirect(s, d, u, id) ==> r == Ok(ChatIs(d, false)) && s2 == s
    ensures (forall id: nat, d: nat :: Names(s, q, id) ==> !IsDirect(s, d, u, id)) ==> r == Error
    ensures s2.bans == s.bans && s.members <= s2.members
    ensures forall p :: p in s2.members && p !in s.members ==> p.0 !in s.chats
  {
    hide Inv, Permitted, IsDirect, DirectFound;
    var f: Found, mid: State :| QueryFound(s, mid, u, q, f) && JoinFound(mid, s2, u, f, r);
    if id: nat :| Names(s, q, id) {
      OneName(s, q);
      NamesFound(s, mid, u, q, id, f);
      hide QueryFound, Names, DirectFound;
      DirectKnown(s, mid, u, id, f);
      OnlyNewMembers(s, mid, u, id, f);
      if d: nat :| IsDirect(s, d, u, id) {
        assert s2.members == s.members;
      }
    } else {
      assert f == NotFound && mid == s by { Unnamed(s, q); }
    }
  }

  lemma OneName(s: State, q: ChatQuery)
    requires Inv(s)
    ensures forall id, x :: Names(s, q, id) && Names(s, q, x) ==> id == x
  {
    DirectFacts(s);
  }

  lemma Unnamed(s: State, q: ChatQuery)
    requires forall id :: !Names(s, q, id)
    ensures q.DollarUser? ==> q.id !in s.users
    ensures q.AtUser? ==> forall id :: id in s.users ==> s.users[id].name != q.name
  {
    assert q.DollarUser? ==> !Names(s, q, q.id);
    assert forall id :: id in s.users ==> !Names(s, q, id);
  }

  /** Who is answered what when asking for a group. */
  lemma GroupInfo(s: State, s2: State, t: nat, through: nat, r: Reply, q: ChatQuery, u: nat)
    requires Handled(s, s2, Asks(t, Request(true, GetChatInfo(q)), through), r) && !q.AtUser? && !q.DollarUser?
    requires t in s.sockets && t in s.clients && u == s.clients[t]
    ensures s2 == s
    ensures q.HashChat? ==> r == if q.id in s.chats && s.chats[q.id].owner != SYSTEM then Ok(ChatIs(q.id, false)) else Error
    ensures q.NamedChat? && (forall c :: c in s.chats && s.chats[c].name == q.name ==> s.chats[c].owner == SYSTEM) ==> r == Error
    ensures q.NamedChat? && NamesChat(s, q.name) && (forall c :: c in s.chats && s.chats[c].name == q.name ==> s.chats[c].owner != SYSTEM) ==>
      exists c :: c in s.chats && s.chats[c].name == q.name && r == Ok(ChatIs(c, false))
    ensures q.BadNumber? ==> r == Escaped
  {
    hide Permitted;
    var f :| QueryFound(s, s2, u, q, f) && r == InfoReply(f);
    if q.NamedChat? && f != NotFound {
      var c :| c in s.chats && s.chats[c].name == q.name && f == GroupFound(s, c);
      assert s.chats[c].owner != SYSTEM ==> r == Ok(ChatIs(c, false));
    }
  }

  /** Who is answered what when asking for the chat with a user, which is reported as direct only
      when it is new. */
  lemma DirectInfo(s: State, s2: State, t: nat, through: nat, r: Reply, q: ChatQuery, u: nat)
    requires Inv(s) && Handled(s, s2, Asks(t, Request(true, GetChatInfo(q)), through), r) && (q.AtUser? || q.DollarUser?)
    requires t in s.sockets && t in s.clients && u == s.clients[t]
    ensures forall id: nat, d: nat :: Names(s, q, id) && IsDirect(s, d, u, id) ==> r == Ok(ChatIs(d, false)) && s2 == s
    ensures forall id: nat :: Names(s, q, id) && (forall d: nat :: !IsDirect(s, d, u, id)) ==>
      if u == id || u == SYSTEM || id == SYSTEM then r == Error
      else exists d :: d !in s.chats && IsDirect(s2, d, u, id) && r == Ok(ChatIs(d, true))
    ensures (forall id :: !Names(s, q, id)) ==> r == Error && s2 == s
  {
    hide Inv, Permitted, IsDirect, DirectFound;
    var f :| QueryFound(s, s2, u, q, f) && r == InfoReply(f);
    if id: nat :| Names(s, q, id) {
      OneName(s, q);
      NamesFound(s, s2, u, q, id, f);
      hide QueryFound, Names, DirectFound;
      DirectKnown(s, s2, u, id, f);
    } else {
      assert f == NotFound && s2 == s by { Unnamed(s, q); }
    }
  }

  // ----- a direct chat reported as a group -----

  /** Asking twice for the direct chat with a user: it is created and reported as direct, and
      then, the same chat, reported as a group. */
  method SameChatTwoKinds(server: Backend, t: nat, u: nat, id: nat) returns (c: nat, first: Reply, second: Reply)
    requires server.Valid() && u in server.s.users && id in server.s.users
    requires u != id && u != SYSTEM && id != SYSTEM && !HasDirect(server.s, u, id)
    modifies server
    ensures server.Valid() && c in server.s.direct && server.s.direct[c] == Backend.Ordered(u, id)
    ensures first == Ok(ChatIs(c, true)) && second == Ok(ChatIs(c, false))
  {
    ghost var s0, b := server.s, GetChatInfo(DollarUser(id));
    PermittedSelf(s0, t, b);
    DirectFacts(s0);
    hide Inv, Permitted;
    first := server.DoGetChatInfo(t, u, DollarUser(id), s0, b);
    ghost var s1 := server.s;
    assert Names(s0, DollarUser(id), id);
    c := first.content.chat;
    assert c in s1.direct && HasDirect(s1, u, id) && Names(s1, DollarUser(id), id);
    second := server.DoGetChatInfo(t, u, DollarUser(id), s0, b);
  }

  /** A database with two accounts for which this happens. */
  method DirectReportedAsGroup() returns (server: Backend, c: nat, r: Reply)
    ensures fresh(server) && server.Valid() && c in server.s.direct && r == Ok(ChatIs(c, false))
  {
    server := new Backend();
    server.s := server.s.(users := server.s.users[2 := User("ann", 0)][3 := User("bob", 0)]);
    server.nextUser := 4;
    var first;
    c, first, r := SameChatTwoKinds(server, 0, 2, 3);
  }
}
